/**
 * The years the text overlays cycle through (2011 to 2024), and the step from
 * one displayed year to the next. Both overlays advance the year the same way:
 * one year later, or back to 2011 after 2024.
 */
module Years {

  const FirstYear: int := 2011
  const LastYear: int := 2024

  /** Number of distinct years in the cycle. */
  const CycleLength: int := LastYear - FirstYear + 1

  predicate InRange(y: int) {
    FirstYear <= y <= LastYear
  }

  /**
   * The year displayed after `y`. Inside the range this is a step of a
   * counter modulo `CycleLength`, offset by `FirstYear`.
   */
  function Next(y: int): (r: int)
    ensures InRange(y) ==> InRange(r)
    ensures InRange(y) ==> r - FirstYear == (y - FirstYear + 1) % CycleLength
    ensures y < FirstYear ==> r == y + 1
  {
    if y < LastYear then y + 1 else FirstYear
  }

  /** The year displayed after `k` successive advances starting from `y`. */
  function Advance(y: int, k: nat): int {
    if k == 0 then y else Next(Advance(y, k - 1))
  }

  /** Closed form: `k` advances add `k` to the position in the cycle, modulo its length. */
  lemma {:induction false} AdvanceFormula(y: int, k: nat)
    requires InRange(y)
    ensures Advance(y, k) == FirstYear + (y - FirstYear + k) % CycleLength
  {
    if k > 0 {
      AdvanceFormula(y, k - 1);
      var a := y - FirstYear + k;
      var m := (a - 1) % CycleLength;
      var q := (a - 1) / CycleLength;
      if m + 1 < CycleLength {
        ModUnique(a, q, m + 1);
      } else {
        ModUnique(a, q + 1, 0);
      }
    }
  }

  /** Euclidean remainder is determined by any quotient-remainder decomposition. */
  lemma ModUnique(a: int, q: int, m: int)
    requires a == CycleLength * q + m && 0 <= m < CycleLength
    ensures a % CycleLength == m
  {
  }

  /** Starting inside the range, the year never leaves it, however often it is advanced. */
  lemma {:induction false} AdvanceStaysInRange(y: int, k: nat)
    requires InRange(y)
    ensures InRange(Advance(y, k))
  {
    AdvanceFormula(y, k);
  }

  /** `CycleLength` (14) advances bring every year of the range back to itself. */
  lemma AdvanceCycle(y: int)
    requires InRange(y)
    ensures Advance(y, CycleLength) == y
  {
    AdvanceFormula(y, CycleLength);
  }

  /** No shorter positive number of advances brings a year back to itself. */
  lemma AdvanceNoShorterCycle(y: int, k: nat)
    requires InRange(y)
    requires 0 < k < CycleLength
    ensures Advance(y, k) != y
  {
    AdvanceFormula(y, k);
  }

  /**
   * Every year of the range is reached from every other one within one
   * cycle: after `z - y` advances when `z` is not earlier, after
   * `z - y + CycleLength` when it is.
   */
  lemma AdvanceReaches(y: int, z: int)
    requires InRange(y) && InRange(z)
    ensures var k := if y <= z then z - y else z - y + CycleLength;
      0 <= k < CycleLength && Advance(y, k) == z
  {
    if y <= z {
      AdvanceFormula(y, z - y);
      ModUnique(z - FirstYear, 0, z - FirstYear);
    } else {
      AdvanceFormula(y, z - y + CycleLength);
      ModUnique(z - FirstYear + CycleLength, 1, z - FirstYear);
    }
  }

  /** From 2011, thirteen advances show 2024 and the fourteenth shows 2011 again. */
  lemma FromFirstYear()
    ensures Advance(FirstYear, CycleLength - 1) == LastYear
    ensures Advance(FirstYear, CycleLength) == FirstYear
  {
    AdvanceFormula(FirstYear, CycleLength - 1);
    AdvanceFormula(FirstYear, CycleLength);
  }
}
