/**
 Delta debugging of src/verifierlab/minimization/delta.py: ddmin over trajectory
 steps and the drop-one causal analysis.

 An oracle is asked with the number of the call, so it may answer the same list
 differently on different calls; `Steady` oracles do not.
 */
module DeltaDebug {
  import opened Prelude


  type Oracle<!T> = (nat, seq<T>) -> bool

  ghost predicate Steady<T(!new)>(oracle: Oracle<T>) {
    forall a: nat, c: nat, s: seq<T> {:trigger oracle(a, s), oracle(c, s)} :: oracle(a, s) == oracle(c, s)
  }

  // ---------------------------------------------------------------- selections

  /** Positions of a list of length `n`, in order and without repetition. */
  ghost predicate IsSelection(ks: seq<nat>, n: nat) {
    && (forall i :: 0 <= i < |ks| ==> ks[i] < n)
    && (forall i, j :: 0 <= i < j < |ks| ==> ks[i] < ks[j])
  }

  ghost function Select<T>(steps: seq<T>, ks: seq<nat>): seq<T>
    requires IsSelection(ks, |steps|)
  {
    seq(|ks|, i requires 0 <= i < |ks| => steps[ks[i]])
  }

  ghost function Everything(n: nat): (ks: seq<nat>)
    ensures IsSelection(ks, n)
  {
    seq(n, i => i)
  }

  /** The list without the slice that starts at `i`; Python slices clamp at the end. */
  function Complement<T>(current: seq<T>, i: nat, size: nat): seq<T>
    requires i <= |current|
  {
    current[..i] + current[if i + size <= |current| then i + size else |current|..]
  }

  lemma ComplementSelects<T>(steps: seq<T>, ks: seq<nat>, i: nat, size: nat)
    requires IsSelection(ks, |steps|) && i <= |ks|
    ensures IsSelection(Complement(ks, i, size), |steps|)
    ensures Select(steps, Complement(ks, i, size)) == Complement(Select(steps, ks), i, size)
  {
  }

  /** Dropping any single step leaves nothing or something uninteresting. */
  ghost predicate OneMinimal<T>(current: seq<T>, oracle: Oracle<T>) {
    forall k :: 0 <= k < |current| ==> Needed(current, k, oracle)
  }

  predicate Needed<T>(current: seq<T>, k: nat, oracle: Oracle<T>)
    requires k < |current|
  {
    Complement(current, k, 1) == [] || !oracle(0, Complement(current, k, 1))
  }

  // ---------------------------------------------------------------- the call budget

  function Pow2(k: nat): nat {
    if k == 0 then 1 else 2 * Pow2(k - 1)
  }

  /** ceil(log2 m), for m >= 1. */
  function CeilLog2(m: nat): (k: nat)
    ensures Pow2(k) >= m
    ensures k > 0 ==> Pow2(k - 1) < m
  {
    if m <= 1 then 0 else 1 + CeilLog2((m + 1) / 2)
  }

  function Min(a: nat, c: nat): nat {
    if a < c then a else c
  }

  /** Passes left at length m once the granularity is n and nothing reduces. */
  function Passes(m: nat, n: nat): nat
    requires 2 <= n
    decreases if n >= m then 0 else m - n
  {
    if n >= m then 1 else 1 + Passes(m, Min(m, 2 * n))
  }

  lemma {:induction false} PassesBound(m: nat, n: nat, k: nat)
    requires 2 <= n && n * Pow2(k) >= m
    ensures Passes(m, n) <= k + 1
    decreases k
  {
    if n < m {
      assert k > 0;
      var p := Pow2(k - 1);
      assert n * Pow2(k) == (2 * n) * p;
      if m <= 2 * n {
        assert m * p >= m by { Pow2Positive(k - 1); MulAtLeast(m, p); }
      }
      PassesBound(m, Min(m, 2 * n), k - 1);
    }
  }

  lemma Pow2Positive(k: nat)
    ensures Pow2(k) >= 1
  {
  }

  lemma MulAtLeast(m: nat, p: nat)
    requires p >= 1
    ensures m * p >= m
  {
    assert m * p == m + m * (p - 1);
  }

  lemma {:induction false} LogMonotone(m: nat, m': nat)
    requires m <= m'
    ensures CeilLog2(m) <= CeilLog2(m')
  {
    if CeilLog2(m) > CeilLog2(m') {
      Pow2Monotone(CeilLog2(m'), CeilLog2(m) - 1);
    }
  }

  lemma {:induction false} Pow2Monotone(a: nat, c: nat)
    requires a <= c
    ensures Pow2(a) <= Pow2(c)
  {
    if a < c {
      Pow2Monotone(a, c - 1);
    }
  }

  /** At any granularity a length up to `total` is searched in at most ceil(log2 total) passes. */
  lemma PhaseBound(m: nat, n: nat, total: nat)
    requires 2 <= m <= total && 2 <= n
    ensures Passes(m, n) <= CeilLog2(total)
  {
    var c := CeilLog2(m);
    assert c > 0;
    assert 2 * Pow2(c - 1) == Pow2(c);
    assert n * Pow2(c - 1) >= 2 * Pow2(c - 1) by {
      assert (n - 2) * Pow2(c - 1) >= 0;
    }
    PassesBound(m, n, c - 1);
    LogMonotone(m, total);
  }

  /** The passes left when the list has m steps and granularity n, at most c a phase. */
  ghost function PassesLeft(m: nat, n: nat, c: nat): nat
    requires 2 <= n
  {
    if m < 2 then 0 else Passes(m, n) + Product(c, m - 2)
  }

  ghost function Product(a: nat, c: nat): nat {
    a * c
  }

  ghost function CallBound(total: nat): nat {
    if total == 0 then 0 else 1 + Product(total, Product(CeilLog2(total), total - 1))
  }

  lemma ProductStep(a: nat, c: nat)
    ensures Product(a, c + 1) == Product(a, c) + a
  {
  }

  lemma ProductMonotone(a: nat, c: nat, c': nat)
    requires c <= c'
    ensures Product(a, c) <= Product(a, c')
  {
    assert a * c' == a * c + a * (c' - c);
  }

  lemma PassesAtStart(total: nat)
    requires total >= 1
    ensures PassesLeft(total, 2, CeilLog2(total)) <= Product(CeilLog2(total), total - 1)
  {
    if total >= 2 {
      PhaseBound(total, 2, total);
      ProductStep(CeilLog2(total), total - 2);
    }
  }

  lemma PassesAfterReduction(m: nat, n: nat, m': nat, n': nat, total: nat)
    requires 2 <= m <= total && m' < m && 2 <= n && 2 <= n'
    ensures 1 + PassesLeft(m', n', CeilLog2(total)) <= PassesLeft(m, n, CeilLog2(total))
  {
    var c := CeilLog2(total);
    if m' >= 2 {
      PhaseBound(m', n', total);
      ProductStep(c, m' - 2);
      ProductMonotone(c, m' - 1, m - 2);
    }
  }

  function Coarser(n: nat): nat {
    if n > 3 then n - 1 else 2
  }

  function SliceSize(m: nat, n: nat): nat
    requires n >= 1
  {
    if m / n > 1 then m / n else 1
  }

  lemma PassesAfterPass(m: nat, n: nat, c: nat)
    requires 2 <= n < m
    ensures PassesLeft(m, n, c) == 1 + PassesLeft(m, Min(m, 2 * n), c)
  {
  }

  lemma QuotientTimes(m: nat, n: nat)
    requires n >= 1
    ensures (m / n) * n <= m
  {
    assert m == (m / n) * n + m % n;
  }

  /** Granularity stays within the list after a reduction. */
  lemma GranularityFits(m: nat, n: nat)
    requires 2 <= n <= m
    ensures Coarser(n) <= m - SliceSize(m, n) || m == 2
  {
    QuotientTimes(m, n);
    ShareFits(m, n, m / n);
  }

  lemma ShareFits(m: nat, n: nat, q: nat)
    requires 2 <= n <= m && q * n <= m
    ensures q > 1 ==> m - q >= n - 1 && m - q >= 2
  {
    if q > 1 {
      SumBelowProduct(q, n);
    }
  }

  /** Once the granularity reaches the length every slice is a single step. */
  lemma FinestSlice(m: nat)
    requires m >= 1
    ensures SliceSize(m, m) == 1
  {
    assert m / m == 1;
  }

  // ---------------------------------------------------------------- ddmin

  /** Classic ddmin. For every oracle, however it answers, it stops within the call
      budget on a selection of the steps; for a steady one that finds the input
      interesting, the result is interesting, not empty, and 1-minimal. */
  method Ddmin<T(!new, ==)>(steps: seq<T>, oracle: Oracle<T>) returns (current: seq<T>, calls: nat, ghost kept: seq<nat>)
    ensures IsSelection(kept, |steps|) && current == Select(steps, kept)
    ensures calls <= CallBound(|steps|)
    ensures steps != [] && !oracle(0, steps) ==> current == steps && calls == 1
    ensures steps != [] ==> current != []
    ensures steps != [] && oracle(0, steps) ==> exists c :: 0 <= c < calls && oracle(c, current)
    ensures steps != [] && oracle(0, steps) && Steady(oracle) ==>
      oracle(0, current) && OneMinimal(current, oracle)
  {
    ghost var total, c := |steps|, CeilLog2(|steps|);
    kept := Everything(|steps|);
    assert Select(steps, kept) == steps;
    current := steps;
    calls := 0;
    if steps == [] {
      return;
    }
    calls := 1;
    PassesAtStart(total);
    if !oracle(0, steps) {
      return;
    }
    var n := 2;
    ghost var passes, hit := 0, 0;
    while |current| >= 2
      invariant 2 <= n && (|current| >= 2 ==> n <= |current|)
      invariant 1 <= |current| <= total && calls <= 1 + Product(total, passes)
      invariant 0 <= hit < calls && oracle(hit, current)
      invariant IsSelection(kept, |steps|) && current == Select(steps, kept)
      invariant passes + PassesLeft(|current|, n, c) <= Product(c, total - 1)
      decreases |current|, |current| - n
    {
      ProductStep(total, passes);
      ghost var m, n0 := |current|, n;
      var size := Slice(|current|, n);
      var reduced;
      current, calls, reduced, kept := DropOneSlice(steps, current, size, calls, oracle, kept);
      passes := passes + 1;
      if reduced {
        n := if n - 1 > 2 then n - 1 else 2;
        hit := calls - 1;
        PassesAfterReduction(m, n0, |current|, n, total);
      } else {
        if n >= |current| {
          break;
        }
        PassesAfterPass(m, n, c);
        n := if |current| < n * 2 then |current| else n * 2;
      }
    }
    ProductMonotone(total, passes, Product(c, total - 1));
  }

  /** max(1, m // n): fine enough to keep the granularity within the list after a
      reduction, and a single step once the granularity has reached the length. */
  method Slice(m: nat, n: nat) returns (size: nat)
    requires 2 <= n <= m
    ensures 1 <= size <= m
    ensures Coarser(n) <= m - size || m == 2
    ensures n == m ==> size == 1
  {
    GranularityFits(m, n);
    FinestSlice(m);
    QuotientTimes(m, n);
    size := if m / n > 1 then m / n else 1;
    assert (m / n) * n >= m / n;
  }

  /** One pass: try the list without each slice in turn, keep the first that still fails. */
  method DropOneSlice<T(!new, ==)>(ghost steps: seq<T>, before: seq<T>, size: nat, asked: nat, oracle: Oracle<T>,
                                   ghost chosen: seq<nat>)
    returns (current: seq<T>, calls: nat, reduced: bool, ghost kept: seq<nat>)
    requires size >= 1
    requires IsSelection(chosen, |steps|) && before == Select(steps, chosen)
    ensures asked <= calls <= asked + |before|
    ensures IsSelection(kept, |steps|) && current == Select(steps, kept)
    ensures reduced ==> current != [] && calls > asked && oracle(calls - 1, current)
    ensures reduced ==> |before| - size <= |current| < |before|
    ensures !reduced ==> current == before
    ensures !reduced && size == 1 && Steady(oracle) ==> OneMinimal(before, oracle)
  {
    current, calls, reduced, kept := before, asked, false, chosen;
    var i := 0;
    while i < |before|
      invariant 0 <= i && current == before && kept == chosen && !reduced
      invariant asked <= calls <= asked + i && calls <= asked + |before|
      invariant Steady(oracle) && size == 1 ==> forall k :: 0 <= k < i && k < |before| ==> Needed(before, k, oracle)
      decreases |before| - i
    {
      var complement := Complement(current, i, size);
      if complement != [] {
        var hit := oracle(calls, complement);
        calls := calls + 1;
        if hit {
          ComplementSelects(steps, kept, i, size);
          kept := Complement(kept, i, size);
          current := complement;
          reduced := true;
          return;
        }
      }
      i := i + size;
    }
  }

  // ---------------------------------------------------------------- causal analysis

  /** The positions whose single removal loses the failure. */
  method CausalBranchAnalysis<T(==)>(steps: seq<T>, oracle: Oracle<T>) returns (necessary: seq<nat>)
    ensures IsSelection(necessary, |steps|)
    ensures forall k :: 0 <= k < |steps| ==> (k in necessary <==>
      Complement(steps, k, 1) == [] || !oracle(k, Complement(steps, k, 1)))
  {
    necessary := [];
    var i := 0;
    while i < |steps|
      invariant 0 <= i <= |steps| && IsSelection(necessary, i)
      invariant forall k :: 0 <= k < i ==> (k in necessary <==>
        Complement(steps, k, 1) == [] || !oracle(k, Complement(steps, k, 1)))
    {
      var without := Complement(steps, i, 1);
      if without == [] || !oracle(i, without) {
        necessary := necessary + [i];
      }
      i := i + 1;
    }
  }

  /** Causal analysis of a 1-minimal list marks every position. */
  lemma MinimalIsAllNecessary<T(!new)>(current: seq<T>, oracle: Oracle<T>, necessary: seq<nat>)
    requires Steady(oracle) && OneMinimal(current, oracle) && IsSelection(necessary, |current|)
    requires forall k :: 0 <= k < |current| ==> (k in necessary <==>
      Complement(current, k, 1) == [] || !oracle(k, Complement(current, k, 1)))
    ensures necessary == Everything(|current|)
  {
    forall k | 0 <= k < |current|
      ensures k in necessary
    {
      assert Needed(current, k, oracle);
    }
    AllOfThem(necessary, |current|);
  }

  lemma LastOfAll(ks: seq<nat>, n: nat)
    requires n > 0 && IsSelection(ks, n) && forall k :: 0 <= k < n ==> k in ks
    ensures ks != [] && ks[|ks| - 1] == n - 1
  {
    assert n - 1 in ks;
    var i :| 0 <= i < |ks| && ks[i] == n - 1;
    assert ks[i] <= ks[|ks| - 1];
  }

  lemma FrontOfAll(ks: seq<nat>, front: seq<nat>, n: nat)
    requires n > 0 && IsSelection(ks, n) && forall k :: 0 <= k < n ==> k in ks
    requires ks == front + [n - 1]
    ensures forall k :: 0 <= k < n - 1 ==> k in front
  {
    forall k | 0 <= k < n - 1
      ensures k in front
    {
      assert k in ks;
      var i :| 0 <= i < |ks| && ks[i] == k;
      assert front[i] == k;
    }
  }

  lemma {:induction false} AllOfThem(ks: seq<nat>, n: nat)
    requires IsSelection(ks, n) && forall k :: 0 <= k < n ==> k in ks
    ensures ks == Everything(n)
  {
    if n == 0 {
      assert ks == [];
    } else {
      LastOfAll(ks, n);
      var front := ks[..|ks| - 1];
      assert ks == front + [n - 1];
      FrontOfAll(ks, front, n);
      AllOfThem(front, n - 1);
    }
  }

  // ---------------------------------------------------------------- monotone failures

  /** More steps never hide the failure. */
  ghost predicate Monotone<T(!new)>(steps: seq<T>, oracle: Oracle<T>) {
    forall ks, ks' {:trigger IsSelection(ks, |steps|), IsSelection(ks', |steps|)} ::
      (IsSelection(ks, |steps|) && IsSelection(ks', |steps|) && (forall k :: k in ks ==> k in ks') &&
       oracle(0, Select(steps, ks))) ==> oracle(0, Select(steps, ks'))
  }

  lemma DroppedStepIsSpare<T(!new)>(steps: seq<T>, oracle: Oracle<T>, kept: seq<nat>, k: nat)
    requires Monotone(steps, oracle) && k < |steps| && k !in kept
    requires IsSelection(kept, |steps|) && kept != [] && oracle(0, Select(steps, kept))
    ensures Complement(steps, k, 1) != [] && oracle(0, Complement(steps, k, 1))
  {
    var all := Everything(|steps|);
    var others := Complement(all, k, 1);
    ComplementSelects(steps, all, k, 1);
    assert Select(steps, all) == steps;
    forall j | j in kept
      ensures j in others
    {
      if j < k {
        assert others[j] == j;
      } else {
        assert others[j - 1] == j;
      }
    }
    assert kept[0] in others;
  }

  /** For a monotone failure, every step the causal analysis calls necessary on the
      original survives in any interesting selection of it, the minimized one included. */
  lemma NecessaryStepsSurvive<T(!new)>(steps: seq<T>, oracle: Oracle<T>, kept: seq<nat>, k: nat)
    requires Monotone(steps, oracle) && k < |steps| && Needed(steps, k, oracle)
    requires IsSelection(kept, |steps|) && kept != [] && oracle(0, Select(steps, kept))
    ensures k in kept
  {
    if k !in kept {
      DroppedStepIsSpare(steps, oracle, kept, k);
    }
  }
}
