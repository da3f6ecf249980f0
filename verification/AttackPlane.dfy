/**
 The attack plane after a freeze: release_labels compares the work units with the tree
 the freeze locked, if there is a lock. Which freezes bind the release, exactly.
 */
module AttackPlane {
  import opened Prelude
  import opened HashChain
  import opened RunProtocol
  import opened RunLaws
  import opened RunTheorems
  import opened Interruptions
  import opened Adjudication

  // ---------------------------------------------------------------- work units stay

  ghost predicate Kept(before: map<string, UnitRow>, after: map<string, UnitRow>) {
    forall name :: name in before ==> name in after && after[name] == before[name]
  }

  lemma KeptTransitive(a: map<string, UnitRow>, c: map<string, UnitRow>, e: map<string, UnitRow>)
    requires Kept(a, c) && Kept(c, e)
    ensures Kept(a, e)
  {
  }

  lemma {:induction false} UnitWritesKeep(cfg: Config, d: Disk, units: seq<(string, UnitRow)>, n: nat)
    ensures Kept(d.workUnits, ApplyAll(cfg, d, FirstN(UnitWrites(d.workUnits.Keys, units), n)).workUnits)
    decreases |units|
  {
    if units != [] && n > 0 {
      var name, ws := units[0].0, UnitWrites(d.workUnits.Keys, units);
      if name in d.workUnits {
        UnitWritesKeep(cfg, d, units[1..], n);
      } else {
        var d1 := Apply(cfg, d, WorkUnit(name, units[0].1));
        assert d1.workUnits.Keys == d.workUnits.Keys + {name};
        FirstNTail(ws, n);
        UnitWritesKeep(cfg, d1, units[1..], n - 1);
        KeptTransitive(d.workUnits, d1.workUnits, ApplyAll(cfg, d, FirstN(ws, n)).workUnits);
      }
    }
  }

  /** A run_campaign cut anywhere. */
  lemma AttackKeepsUnits(cfg: Config, d: Disk, units: seq<(string, UnitRow)>, text: string, n: nat)
    ensures Kept(d.workUnits, Perform(cfg, d, Attempt(AttackRun(units, text), n)).workUnits)
  {
    var a := UnitWrites(d.workUnits.Keys, units);
    var c := AttackPlan(cfg, d, units, text).writes[|a|..];
    assert AttackPlan(cfg, d, units, text).writes == a + c;
    FirstNOfTwo(a, c, n);
    if n <= |a| {
      UnitWritesKeep(cfg, d, units, n);
    } else {
      UnitWritesKeep(cfg, d, units, |a|);
      assert FirstN(a, |a|) == a;
      assert forall w :: w in c ==> !w.WorkUnit?;
      RestKeepsUnits(cfg, d, a, c, n - |a|);
    }
  }

  lemma RestKeepsUnits(cfg: Config, d: Disk, a: seq<Write>, c: seq<Write>, n: nat)
    requires forall w :: w in c ==> !w.WorkUnit?
    ensures ApplyAll(cfg, d, a + FirstN(c, n)).workUnits == ApplyAll(cfg, d, a).workUnits
  {
    assert forall w :: w in FirstN(c, n) ==> w in c;
    ApplyConcat(cfg, d, a, FirstN(c, n));
    NoUnitsChange(cfg, ApplyAll(cfg, d, a), FirstN(c, n));
  }

  lemma OthersWriteNoUnits(cfg: Config, d: Disk, op: Op)
    requires !op.AttackRun?
    ensures forall w :: w in Plan(cfg, d, op).writes ==> !w.WorkUnit?
  {
    match op
    case FreezeRun(text) => FreezeWritesNoUnits(cfg, d, text);
    case AdjudicateRun(order, randoms, text) => AdjudicationWritesNoUnits(cfg, d, order, randoms, text);
    case ReleaseLabels(order, text) => ReleaseWritesNoUnits(cfg, d, order, text);
  }

  lemma FreezeWritesNoUnits(cfg: Config, d: Disk, text: string)
    ensures forall w :: w in FreezePlan(cfg, d, text).writes ==> !w.WorkUnit?
  {
  }

  lemma AdjudicationWritesNoUnits(cfg: Config, d: Disk, order: seq<string>, randoms: string -> string, text: string)
    ensures forall w :: w in AdjudicatePlan(cfg, d, order, randoms, text).writes ==> !w.WorkUnit?
  {
    SealingWritesNoUnits(cfg, d, order, randoms);
  }

  lemma ReleaseWritesNoUnits(cfg: Config, d: Disk, order: seq<string>, text: string)
    ensures forall w :: w in ReleasePlan(cfg, d, order, text).writes ==> !w.WorkUnit?
  {
    AnalysisWritesNoUnits(d, order);
  }

  lemma {:induction false} AnalysisWritesNoUnits(d: Disk, order: seq<string>)
    ensures forall w :: w in AnalysisWrites(d, order) ==> !w.WorkUnit?
    decreases |order|
  {
    if order != [] {
      AnalysisWritesNoUnits(d, order[1..]);
    }
  }

  /** No run of operations, each cut anywhere, changes or removes a work unit that is
      there: units are only ever added. */
  lemma {:induction false} UnitsStay(cfg: Config, d: Disk, attempts: seq<Attempt>)
    ensures Kept(d.workUnits, After(cfg, d, attempts).workUnits)
    decreases |attempts|
  {
    if attempts != [] {
      var op, n := attempts[0].op, attempts[0].n;
      var e := Perform(cfg, d, attempts[0]);
      if op.AttackRun? {
        AttackKeepsUnits(cfg, d, op.units, op.text, n);
      } else {
        var ws := Plan(cfg, d, op).writes;
        OthersWriteNoUnits(cfg, d, op);
        assert forall w :: w in FirstN(ws, n) ==> w in ws;
        NoUnitsChange(cfg, d, FirstN(ws, n));
      }
      UnitsStay(cfg, e, attempts[1..]);
      KeptTransitive(d.workUnits, e.workUnits, After(cfg, e, attempts[1..]).workUnits);
    }
  }

  // ---------------------------------------------------------------- the lock of a freeze

  /** The position of the lock in the writes of a freeze: it comes last. */
  function LockAt(d: Disk): nat {
    |VaultFreeze(d)| + 7
  }

  lemma LockByOne(cfg: Config, d: Disk, w: Write)
    ensures Apply(cfg, d, w).core.lock == if w.CoreFile? && w.write.LockFile? then Some(w.write.tree) else d.core.lock
  {
  }

  lemma {:induction false} LockByPrefix(cfg: Config, d: Disk, ws: seq<Write>)
    requires forall w :: w in ws ==> !(w.CoreFile? && w.write.LockFile?)
    ensures ApplyAll(cfg, d, ws).core.lock == d.core.lock
    decreases |ws|
  {
    if ws != [] {
      assert ws[0] in ws && forall w :: w in ws[1..] ==> w in ws;
      LockByOne(cfg, d, ws[0]);
      LockByPrefix(cfg, Apply(cfg, d, ws[0]), ws[1..]);
    }
  }

  lemma OnlyLastLocks(cfg: Config, d: Disk, record: TipRecord, chain: seq<Digest>, i: nat)
    requires i < LockAt(d)
    ensures var ws := VaultFreeze(d) + TipWrites(cfg, record, Freeze, chain) + SealWrites(cfg, d);
      |ws| == LockAt(d) + 1 && !(ws[i].CoreFile? && ws[i].write.LockFile?)
  {
    var v := |VaultFreeze(d)|;
    var ws := VaultFreeze(d) + TipWrites(cfg, record, Freeze, chain) + SealWrites(cfg, d);
    if i < v {
      assert ws[i] == VaultFreeze(d)[i];
    } else if i < v + 3 {
      assert ws[i] == TipWrites(cfg, record, Freeze, chain)[i - v];
    } else {
      assert ws[i] == SealWrites(cfg, d)[i - v - 3];
    }
  }

  lemma NoLockBefore(cfg: Config, d: Disk, record: TipRecord, chain: seq<Digest>, n: nat)
    requires n <= LockAt(d)
    ensures var ws := VaultFreeze(d) + TipWrites(cfg, record, Freeze, chain) + SealWrites(cfg, d);
      |ws| == LockAt(d) + 1 && forall w :: w in ws[..n] ==> !(w.CoreFile? && w.write.LockFile?)
  {
    var ws := VaultFreeze(d) + TipWrites(cfg, record, Freeze, chain) + SealWrites(cfg, d);
    OnlyLastLocks(cfg, d, record, chain, 0);
    forall w | w in ws[..n]
      ensures !(w.CoreFile? && w.write.LockFile?)
    {
      var i :| 0 <= i < n && ws[..n][i] == w;
      OnlyLastLocks(cfg, d, record, chain, i);
    }
  }

  predicate Attacked(d: Disk) {
    d.core.manifest.Some? && d.core.manifest.value.lifecycle == Attack
  }

  lemma CutFreezeKeepsInv(cfg: Config, d: Disk, text: string, n: nat)
    requires OneToOne(cfg.digest) && Inv(cfg, d)
    ensures Inv(cfg, Perform(cfg, d, Attempt(FreezeRun(text), n)))
  {
    PlanIsSafe(cfg, d, FreezeRun(text));
    SafeKeepsInv(cfg, d, FreezePlan(cfg, d, text).writes, n);
  }

  lemma CutFreezeManifest(cfg: Config, d: Disk, text: string, n: nat)
    requires Attacked(d) && n >= |VaultFreeze(d)| + 2
    ensures CoreRank(Perform(cfg, d, Attempt(FreezeRun(text), n)).core) == Rank(Freeze)
  {
    var index := d.core.manifest.value;
    var record := TipRecord(FreezeTip, Some(index.tip), multiset(d.commitments.Keys), text);
    var next := Index(Freeze, cfg.digest(record), FreezeTip, ChainWith(index.chain, cfg.digest(record)));
    var ws := FreezePlan(cfg, d, text).writes;
    var part := FirstN(ws, n);
    FreezeLayout(cfg, d, record, index.chain);
    assert part == ws[..|part|] && forall w :: w in part ==> w in ws;
    ManifestByPrefix(cfg, d, part, next);
    InPrefix(ws, |VaultFreeze(d)| + 1, |part|);
  }

  lemma CutFreezeSeal(cfg: Config, d: Disk, text: string, n: nat)
    requires Attacked(d) && !d.core.sealed
    ensures Perform(cfg, d, Attempt(FreezeRun(text), n)).core.sealed <==> n >= LockAt(d)
  {
    var index := d.core.manifest.value;
    var record := TipRecord(FreezeTip, Some(index.tip), multiset(d.commitments.Keys), text);
    var ws := FreezePlan(cfg, d, text).writes;
    var part := FirstN(ws, n);
    FreezeLayout(cfg, d, record, index.chain);
    assert part == ws[..|part|];
    SealedByPrefix(cfg, d, part);
    InPrefix(ws, |VaultFreeze(d)| + 6, |part|);
  }

  lemma CutFreezeLock(cfg: Config, d: Disk, text: string, n: nat)
    requires Attacked(d) && d.core.lock.None?
    ensures Perform(cfg, d, Attempt(FreezeRun(text), n)).core.lock ==
            if n > LockAt(d) then Some(cfg.tree(d.workUnits)) else None
  {
    var index := d.core.manifest.value;
    var record := TipRecord(FreezeTip, Some(index.tip), multiset(d.commitments.Keys), text);
    var ws := FreezePlan(cfg, d, text).writes;
    OnlyLastLocks(cfg, d, record, index.chain, 0);
    if n > LockAt(d) {
      assert FirstN(ws, n) == ws;
      FreezeResult(cfg, d, text);
    } else {
      NoLockBefore(cfg, d, record, index.chain, n);
      assert FirstN(ws, n) == ws[..n];
      LockByPrefix(cfg, d, ws[..n]);
    }
  }

  lemma CutFreezeUnits(cfg: Config, d: Disk, text: string, n: nat)
    ensures Perform(cfg, d, Attempt(FreezeRun(text), n)).workUnits == d.workUnits
  {
    var ws := FreezePlan(cfg, d, text).writes;
    assert forall w :: w in FirstN(ws, n) ==> w in ws;
    NoUnitsChange(cfg, d, FirstN(ws, n));
  }

  /** A freeze of an attacked run whose manifest got written: frozen, with the work units
      as they were, sealed from the write before the last on, and locked by the last. */
  lemma CutFreeze(cfg: Config, d: Disk, text: string, n: nat)
    requires OneToOne(cfg.digest) && Inv(cfg, d) && Attacked(d) && n >= |VaultFreeze(d)| + 2
    ensures var f := Perform(cfg, d, Attempt(FreezeRun(text), n));
      && Inv(cfg, f) && CoreRank(f.core) == Rank(Freeze) && f.workUnits == d.workUnits
      && (f.core.sealed <==> n >= LockAt(d))
      && f.core.lock == if n > LockAt(d) then Some(cfg.tree(d.workUnits)) else None
  {
    CutFreezeKeepsInv(cfg, d, text, n);
    CutFreezeManifest(cfg, d, text, n);
    CutFreezeSeal(cfg, d, text, n);
    CutFreezeLock(cfg, d, text, n);
    CutFreezeUnits(cfg, d, text, n);
  }

  // ---------------------------------------------------------------- the release that follows

  /** A release of labels at the end of a run either raises or finds this tree. */
  ghost predicate Bound(cfg: Config, f: Disk, tree: Digest, rest: seq<Attempt>, order: seq<string>, text: string) {
    var e := After(cfg, f, rest);
    ReleasePlan(cfg, e, order, text).raised.None? ==> cfg.tree(e.workUnits) == tree
  }

  /** Trees tell collections of work units apart. */
  ghost predicate TreesDiffer(cfg: Config) {
    forall p, q :: cfg.tree(p) == cfg.tree(q) ==> p == q
  }

  lemma LockBinds(cfg: Config, f: Disk, tree: Digest, rest: seq<Attempt>, order: seq<string>, text: string)
    requires OneToOne(cfg.digest) && Inv(cfg, f) && CoreRank(f.core) >= Rank(Freeze) && f.core.lock == Some(tree)
    ensures Bound(cfg, f, tree, rest, order, text)
  {
    SealAndLockStay(cfg, f, rest);
  }

  /** run_campaign on a frozen run: it raises, but only after it has filed its new units. */
  lemma LateAttack(cfg: Config, d: Disk, name: string, row: UnitRow, text: string)
    requires CoreRank(d.core) == Rank(Freeze) && name !in d.workUnits
    ensures var plan := Plan(cfg, d, AttackRun([(name, row)], text));
      plan.raised == Some(IllegalTransition) &&
      ApplyAll(cfg, d, plan.writes) == d.(workUnits := d.workUnits[name := row])
  {
    var units := [(name, row)];
    OneWrite(cfg, d, WorkUnit(name, row));
    assert units[1..] == [];
    assert UnitWrites(d.workUnits.Keys, units) == [WorkUnit(name, row)] + UnitWrites(d.workUnits.Keys + {name}, units[1..]);
  }

  /** What adjudication leaves for the release to look at. */
  lemma AdjudicationLeaves(cfg: Config, d: Disk, names: seq<string>, randoms: string -> string, text: string)
    requires Inv(cfg, d) && CoreRank(d.core) == Rank(Freeze)
    ensures AdjudicatePlan(cfg, d, names, randoms, text).raised.None?
    ensures var e := Complete(AdjudicateRun(names, randoms, text), cfg, d);
      && e.core.manifest.Some? && e.core.manifest.value.lifecycle == Adjudication
      && e.core.frozen && e.core.sealed == d.core.sealed && e.core.lock == d.core.lock
      && e.workUnits == d.workUnits
  {
    assert d.core.manifest.value.lifecycle == Freeze;
    AdjudicateResult(cfg, d, names, randoms, text);
  }

  lemma ReleaseSucceeds(cfg: Config, d: Disk, sides: seq<string>, text: string)
    requires d.core.manifest.Some? && d.core.manifest.value.lifecycle == Adjudication
    requires d.core.frozen && d.core.lock.None?
    ensures ReleasePlan(cfg, d, sides, text).raised.None?
    ensures CoreFile(Receipt) in ReleasePlan(cfg, d, sides, text).writes <==> d.core.sealed
  {
    var ws := ReleasePlan(cfg, d, sides, text).writes;
    AnalysisQuiet(d, sides);
    if d.core.sealed {
      assert ws[|ws| - 1] == CoreFile(Receipt);
    }
  }

  /** A frozen run without a lock: a late run_campaign adds a work unit, and the
      adjudication and the release that follow raise nothing. The release writes a
      receipt exactly when the run is sealed. */
  lemma UnlockedReleaseSucceeds(
      cfg: Config, f: Disk, name: string, row: UnitRow, randoms: string -> string, names: seq<string>, sides: seq<string>,
      text: string)
    requires OneToOne(cfg.digest) && Inv(cfg, f) && CoreRank(f.core) == Rank(Freeze) && f.core.lock.None?
    requires name !in f.workUnits
    ensures var d1 := Complete(AttackRun([(name, row)], text), cfg, f);
      var d2 := Complete(AdjudicateRun(names, randoms, text), cfg, d1);
      && d2.workUnits == f.workUnits[name := row] && d2.workUnits != f.workUnits
      && Plan(cfg, d1, AdjudicateRun(names, randoms, text)).raised.None?
      && Plan(cfg, d2, ReleaseLabels(sides, text)).raised.None?
      && (CoreFile(Receipt) in Plan(cfg, d2, ReleaseLabels(sides, text)).writes <==> f.core.sealed)
  {
    var d1 := Complete(AttackRun([(name, row)], text), cfg, f);
    LateAttack(cfg, f, name, row, text);
    assert name in d1.workUnits;
    AdjudicationLeaves(cfg, d1, names, randoms, text);
    ReleaseSucceeds(cfg, Complete(AdjudicateRun(names, randoms, text), cfg, d1), sides, text);
  }

  /** No collection of files takes up every name. */
  lemma {:induction false} FreshName(names: set<string>, n: nat) returns (name: string)
    ensures name !in names && |name| >= n
    decreases |names|
  {
    name := seq(n, i => 'u');
    if name in names {
      name := FreshName(names - {name}, n + 1);
    }
  }

  lemma RunTwo(cfg: Config, d: Disk, a: Op, c: Op)
    ensures var d1 := Complete(a, cfg, d);
      After(cfg, d, [Attempt(a, |Plan(cfg, d, a).writes|), Attempt(c, |Plan(cfg, d1, c).writes|)]) == Complete(c, cfg, d1)
  {
    var d1 := Complete(a, cfg, d);
    var x, y := Attempt(a, |Plan(cfg, d, a).writes|), Attempt(c, |Plan(cfg, d1, c).writes|);
    assert [x, y][1..] == [y] && [y][1..] == [];
    assert After(cfg, d1, [y]) == Perform(cfg, d1, y);
  }

  lemma UnlockedIsNotBound(cfg: Config, f: Disk) returns (rest: seq<Attempt>)
    requires OneToOne(cfg.digest) && TreesDiffer(cfg)
    requires Inv(cfg, f) && CoreRank(f.core) == Rank(Freeze) && f.core.lock.None?
    ensures !Bound(cfg, f, cfg.tree(f.workUnits), rest, [], "")
  {
    var randoms: string -> string := name => name;
    var name := FreshName(f.workUnits.Keys, 0);
    var row := UnitRow("", None, "", "");
    var a, c := AttackRun([(name, row)], ""), AdjudicateRun([], randoms, "");
    UnlockedReleaseSucceeds(cfg, f, name, row, randoms, [], [], "");
    RunTwo(cfg, f, a, c);
    rest := [Attempt(a, |Plan(cfg, f, a).writes|), Attempt(c, |Plan(cfg, Complete(a, cfg, f), c).writes|)];
    assert After(cfg, f, rest).workUnits != f.workUnits;
  }

  /** Over every run from an empty directory: once a freeze has written its manifest, a
      release that succeeds, after whatever else was run and cut, has the work-unit tree
      of that freeze exactly when the freeze got as far as its last write, the lock. */
  lemma ReleaseBoundExactly(cfg: Config, before: seq<Attempt>, text: string, n: nat)
    requires OneToOne(cfg.digest) && TreesDiffer(cfg)
    requires var d := After(cfg, EMPTY, before);
      Attacked(d) && n >= |VaultFreeze(d)| + 2
    ensures var d := After(cfg, EMPTY, before);
      var f := Perform(cfg, d, Attempt(FreezeRun(text), n));
      (forall rest, order, late :: Bound(cfg, f, cfg.tree(d.workUnits), rest, order, late)) <==> n > LockAt(d)
  {
    var d := After(cfg, EMPTY, before);
    var f := Perform(cfg, d, Attempt(FreezeRun(text), n));
    FreshRunKeepsInv(cfg, before);
    CutFreeze(cfg, d, text, n);
    if n > LockAt(d) {
      forall rest, order, late
        ensures Bound(cfg, f, cfg.tree(d.workUnits), rest, order, late)
      {
        LockBinds(cfg, f, cfg.tree(d.workUnits), rest, order, late);
      }
    } else {
      var rest := UnlockedIsNotBound(cfg, f);
      assert !Bound(cfg, f, cfg.tree(d.workUnits), rest, [], "");
    }
  }

  /** The window StrandedForever does not cover: a freeze cut between its seal and its
      lock. A late run_campaign may add work units, and the release still succeeds and
      writes a receipt for the sealed run. */
  lemma CutBeforeLockGetsReceipt(
      cfg: Config, d: Disk, text: string, name: string, row: UnitRow, randoms: string -> string, names: seq<string>,
      sides: seq<string>)
    requires OneToOne(cfg.digest) && Inv(cfg, d) && Attacked(d) && name !in d.workUnits
    ensures var f := Perform(cfg, d, Attempt(FreezeRun(text), LockAt(d)));
      var d1 := Complete(AttackRun([(name, row)], text), cfg, f);
      var d2 := Complete(AdjudicateRun(names, randoms, text), cfg, d1);
      var release := Plan(cfg, d2, ReleaseLabels(sides, text));
      d2.workUnits == d.workUnits[name := row] && release.raised.None? && CoreFile(Receipt) in release.writes
  {
    CutFreeze(cfg, d, text, LockAt(d));
    UnlockedReleaseSucceeds(
      cfg, Perform(cfg, d, Attempt(FreezeRun(text), LockAt(d))), name, row, randoms, names, sides, text);
  }
}
