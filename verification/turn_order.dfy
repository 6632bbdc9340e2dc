/** Seat arithmetic shared by the server handlers and the client reducer:
    one step from seat `i` among `n` seats in a direction. */
module TurnOrder {
  import opened CardTypes

  /** The seat after `i` in direction `dir`: `(i + 1) % n` clockwise and
      `(i - 1 + n) % n` counterclockwise. The operands are never negative
      for `i >= 0`; for `i == -1` (a player the reducer did not find) the
      only negative dividend is `-1 % 1`, which JavaScript and Dafny both
      take to seat 0. */
  function Step(i: int, n: int, dir: Direction): (r: int)
    requires 0 < n && -1 <= i < n
    ensures 0 <= r < n
    ensures dir == Clockwise ==> r == (if i == n - 1 then 0 else i + 1)
    ensures dir == Counterclockwise ==> r == (if i == 0 then n - 1 else if i == -1 then (if n == 1 then 0 else n - 2) else i - 1)
  {
    if dir == Clockwise then
      Wrap(i + 1, n); (i + 1) % n
    else
      Wrap(i - 1 + n, n); (i - 1 + n) % n
  }

  /** Reducing a number in `[-n, 2 * n)` modulo `n` adds or subtracts `n` at most once. */
  lemma Wrap(a: int, n: int)
    requires 0 < n && -n <= a < 2 * n
    ensures a % n == if a < 0 then a + n else if a < n then a else a - n
  {
    if a >= n {
      WrapDown(a, n);
    } else if a < 0 {
      WrapUp(a, n);
    }
  }

  lemma WrapDown(a: int, n: int)
    requires 0 < n && n <= a < 2 * n
    ensures a % n == a - n
  {
    assert (a - n) % n == a % n;
  }

  lemma WrapUp(a: int, n: int)
    requires 0 < n && -n <= a < 0
    ensures a % n == a + n
  {
    assert (a + n) % n == a % n;
  }

  /** A step back in the other direction undoes a step. */
  lemma StepUndo(i: int, n: int, dir: Direction)
    requires 0 < n && 0 <= i < n
    ensures Step(Step(i, n, dir), n, Flip(dir)) == i
  {
  }

  /** Stepping is a permutation of the seats: two seats never step onto the same seat. */
  lemma StepInjective(i: int, j: int, n: int, dir: Direction)
    requires 0 < n && 0 <= i < n && 0 <= j < n
    requires Step(i, n, dir) == Step(j, n, dir)
    ensures i == j
  {
    StepUndo(i, n, dir);
    StepUndo(j, n, dir);
  }

  /** With two seats, two steps in the same direction come back to the start. */
  lemma TwoStepsOfTwoSeats(i: int, dir: Direction)
    requires 0 <= i < 2
    ensures Step(Step(i, 2, dir), 2, dir) == i
  {
  }

  /** With three or more seats the two directions lead to different seats. */
  lemma DirectionsDiffer(i: int, n: int)
    requires 3 <= n && 0 <= i < n
    ensures Step(i, n, Clockwise) != Step(i, n, Counterclockwise)
  {
  }
}
