/** Exponential backoff (backoff.go), in exact milliseconds. */
module Backoffs {

  const DEFAULT_BASE := 20
  const DEFAULT_FACTOR := 2
  const DEFAULT_CAP := 180000

  function Pow(b: nat, e: nat): nat {
    if e == 0 then 1 else b * Pow(b, e - 1)
  }

  /** The upper end of the interval a delay is drawn from. */
  function Bound(base: nat, factor: nat, cap: nat, attempt: nat): nat {
    var exponential := base * Pow(factor, attempt);
    if cap < exponential then cap else exponential
  }

  function OrDefault(value: nat, default: nat): nat {
    if value == 0 then default else value
  }

  lemma {:induction false} PowPositive(b: nat, e: nat)
    requires b > 0
    ensures Pow(b, e) > 0
  {
    if e > 0 {
      PowPositive(b, e - 1);
    }
  }

  /** With the defaults filled in there is always something to draw from. */
  lemma BoundPositive(base: nat, factor: nat, cap: nat, attempt: nat)
    requires base > 0 && factor > 0 && cap > 0
    ensures 0 < Bound(base, factor, cap, attempt) <= cap
  {
    PowPositive(factor, attempt);
  }

  class Backoff {
    var noJitter: bool
    var base: nat
    var factor: nat
    var cap: nat
    var attempt: nat

    constructor ()
      ensures !noJitter && base == factor == cap == attempt == 0
    {
      noJitter, base, factor, cap, attempt := false, 0, 0, 0, 0;
    }

    /** The bound in force at the current attempt. */
    ghost function CurrentBound(): nat
      reads this
    {
      Bound(OrDefault(base, DEFAULT_BASE), OrDefault(factor, DEFAULT_FACTOR), OrDefault(cap, DEFAULT_CAP), attempt)
    }

    method SetDefault()
      modifies `base, `factor, `cap
      ensures base == if old(base) == 0 then DEFAULT_BASE else old(base)
      ensures factor == if old(factor) == 0 then DEFAULT_FACTOR else old(factor)
      ensures cap == if old(cap) == 0 then DEFAULT_CAP else old(cap)
    {
      if base == 0 {
        base := DEFAULT_BASE;
      }
      if cap == 0 {
        cap := DEFAULT_CAP;
      }
      if factor == 0 {
        factor := DEFAULT_FACTOR;
      }
    }

    /** The delay follows the attempt counter of the object, whatever argument is passed. */
    method DurationForAttempt(attempt: int) returns (d: nat)
      modifies `base, `factor, `cap
      ensures base == if old(base) == 0 then DEFAULT_BASE else old(base)
      ensures factor == if old(factor) == 0 then DEFAULT_FACTOR else old(factor)
      ensures cap == if old(cap) == 0 then DEFAULT_CAP else old(cap)
      ensures if noJitter then d == old(CurrentBound()) else d < old(CurrentBound())
    {
      SetDefault();
      BoundPositive(base, factor, cap, this.attempt);
      d := Bound(base, factor, cap, this.attempt);
      if !noJitter {
        var limit := d;
        d :| 0 <= d < limit;
      }
    }

    method Duration() returns (d: nat)
      modifies `base, `factor, `cap, `attempt
      ensures attempt == old(attempt) + 1
      ensures base == if old(base) == 0 then DEFAULT_BASE else old(base)
      ensures factor == if old(factor) == 0 then DEFAULT_FACTOR else old(factor)
      ensures cap == if old(cap) == 0 then DEFAULT_CAP else old(cap)
      ensures if noJitter then d == old(CurrentBound()) else d < old(CurrentBound())
    {
      d := DurationForAttempt(attempt);
      attempt := attempt + 1;
    }

    method Reset()
      modifies `attempt
      ensures attempt == 0
    {
      attempt := 0;
    }
  }

  // ------------------------------------------------------------------
  // Waiting with the defaults

  function DefaultBound(attempt: nat): nat {
    Bound(DEFAULT_BASE, DEFAULT_FACTOR, DEFAULT_CAP, attempt)
  }

  /** The sum of the first `n` bounds. */
  function TotalBound(n: nat): nat {
    if n == 0 then 0 else TotalBound(n - 1) + DefaultBound(n - 1)
  }

  lemma {:induction false} PowGrows(e: nat)
    requires e >= 14
    ensures Pow(2, e) >= 16384
  {
    if e == 14 {
      assert Pow(2, 7) == 128;
      assert Pow(2, 14) == 128 * Pow(2, 7);
    } else {
      PowGrows(e - 1);
    }
  }

  /** The cap takes over from the fifteenth attempt on. */
  lemma {:induction false} TotalBoundClosed(n: nat)
    ensures TotalBound(n) == if n <= 14 then 20 * (Pow(2, n) - 1) else 20 * (Pow(2, 14) - 1) + 180000 * (n - 14)
  {
    if n > 0 {
      TotalBoundClosed(n - 1);
      if n > 14 {
        PowGrows(n - 1);
      } else {
        PowSmall(n - 1);
      }
    }
  }

  lemma PowSmall(e: nat)
    requires e <= 13
    ensures 20 * Pow(2, e) <= 163840
  {
    PowMonotone(e, 13);
    assert Pow(2, 6) == 64;
    assert Pow(2, 13) == 128 * Pow(2, 6);
  }

  lemma {:induction false} PowMonotone(a: nat, b: nat)
    requires a <= b
    ensures Pow(2, a) <= Pow(2, b)
    decreases b
  {
    if a < b {
      PowMonotone(a, b - 1);
    }
  }
}
