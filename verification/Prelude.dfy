/** Datatypes and facts every other module leans on. */
module Prelude {

  datatype Option<+T> = None | Some(value: T)

  type byte = n: nat | n < 256

  const U64_MAX: nat := 0xFFFF_FFFF_FFFF_FFFF

  function Min(a: nat, b: nat): nat { if a <= b then a else b }

  function Max(a: int, b: int): int { if a >= b then a else b }

  /** `u64::saturating_sub`. */
  function SaturatingSub(a: nat, b: nat): nat { if a >= b then a - b else 0 }

  function Sum(xs: seq<nat>): nat
  {
    if xs == [] then 0 else Sum(xs[..|xs| - 1]) + xs[|xs| - 1]
  }

  lemma {:induction false} SumAppend(xs: seq<nat>, ys: seq<nat>)
    ensures Sum(xs + ys) == Sum(xs) + Sum(ys)
  {
    if ys == [] {
      assert xs + ys == xs;
    } else {
      var n := |ys| - 1;
      assert (xs + ys)[..|xs + ys| - 1] == xs + ys[..n];
      SumAppend(xs, ys[..n]);
    }
  }

  /** A sum does not depend on the order its terms come in. */
  lemma {:induction false} SumOfPermutation(xs: seq<nat>, ys: seq<nat>)
    requires multiset(xs) == multiset(ys)
    ensures Sum(xs) == Sum(ys)
    decreases |xs|
  {
    assert |xs| == |multiset(xs)| == |multiset(ys)| == |ys|;
    if xs != [] {
      var n := |xs| - 1;
      var x := xs[n];
      assert x in multiset(ys);
      var i :| 0 <= i < |ys| && ys[i] == x;
      var rest := ys[..i] + ys[i + 1..];
      assert xs == xs[..n] + [x];
      assert ys == ys[..i] + ([x] + ys[i + 1..]);
      assert multiset(rest) == multiset(ys) - multiset{x} == multiset(xs[..n]);
      SumOfPermutation(xs[..n], rest);
      SumAppend(ys[..i], [x] + ys[i + 1..]);
      SumAppend([x], ys[i + 1..]);
      SumAppend(ys[..i], ys[i + 1..]);
    }
  }

  lemma MulMonotone(a: int, b: int, d: nat)
    requires a <= b
    ensures d * a <= d * b
  {
  }

  /** Dividing by a fixed positive number keeps order. */
  lemma DivMonotone(a: nat, b: nat, d: nat)
    requires a <= b && d > 0
    ensures a / d <= b / d
  {
    DivMonotoneBy(a / d, a % d, b / d, b % d, d);
  }

  /** The same in quotients and remainders, where only products appear. */
  lemma DivMonotoneBy(qa: int, ra: int, qb: int, rb: int, d: nat)
    requires d * qa + ra <= d * qb + rb
    requires 0 <= ra < d && 0 <= rb < d
    ensures qa <= qb
  {
    if qa > qb {
      MulMonotone(qb + 1, qa, d);
    }
  }

  /** There is always a number nobody has used. */
  lemma {:induction false} UnusedNumber(used: set<nat>) returns (n: nat)
    ensures forall x :: x in used ==> x < n
  {
    if used == {} {
      n := 0;
    } else {
      var x :| x in used;
      var m := UnusedNumber(used - {x});
      n := Max(m, x + 1);
      assert forall y :: y in used ==> y == x || y in used - {x};
    }
  }

  // ── Traces of a method among other requests ──

  /** The group of other requests' steps that lands at the next await. */
  function Landing<T>(arriving: seq<seq<T>>): seq<T>
  {
    if arriving == [] then [] else arriving[0]
  }

  /** A trace after one await and one step. */
  function Then<T>(trace: seq<T>, landed: seq<T>, step: T): (longer: seq<T>)
    ensures trace <= longer
  {
    trace + landed + [step]
  }
}
