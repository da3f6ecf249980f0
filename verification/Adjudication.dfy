/**
 What a run that is not interrupted ends with: every adjudicated unit has its commitment,
 its sealed label and its side file, and after the release its labelled copy.
 */
module Adjudication {
  import opened Prelude
  import opened HashChain
  import opened RunProtocol
  import opened RunLaws
  import opened RunTheorems
  import opened Interruptions

  /** The files that speak of one unit. */
  ghost predicate UnitSealed(e: Disk, row: UnitRow, c: string, verdict: Label) {
    && c in e.commitments && c in e.labels
    && row.unitId in e.adjudications && e.adjudications[row.unitId] == Side(row.unitId, c, verdict)
  }

  lemma SealWritesSeal(cfg: Config, e: Disk, row: UnitRow, random: string)
    requires row.trajectory.Some?
    ensures UnitSealed(ApplyAll(cfg, e, SealWritesOf(cfg, row, random)), row, CommitmentOf(cfg, row, random), cfg.judge(row))
  {
    var ws := SealWritesOf(cfg, row, random);
    var e1 := Apply(cfg, e, ws[0]);
    var e2 := Apply(cfg, e1, ws[1]);
    var e3 := Apply(cfg, e2, ws[2]);
    TwoWrites(cfg, e3, ws[3], ws[4]);
    assert ws[1..] == [ws[1], ws[2], ws[3], ws[4]] && ws[1..][1..] == [ws[2], ws[3], ws[4]];
    assert ws[1..][1..][1..] == [ws[3], ws[4]];
    assert ApplyAll(cfg, e2, ws[1..][1..]) == ApplyAll(cfg, e3, [ws[3], ws[4]]);
    assert ApplyAll(cfg, e1, ws[1..]) == ApplyAll(cfg, e2, ws[1..][1..]);
  }

  /** Writes that do not touch the side file of a unit. */
  ghost predicate Elsewhere(ws: seq<Write>, unitId: string) {
    forall w :: w in ws && w.AdjudicationFile? ==> w.side.unitId != unitId
  }

  lemma {:induction false} StaysSealed(cfg: Config, e: Disk, ws: seq<Write>, row: UnitRow, c: string, verdict: Label)
    requires UnitSealed(e, row, c, verdict) && Elsewhere(ws, row.unitId)
    ensures UnitSealed(ApplyAll(cfg, e, ws), row, c, verdict)
    decreases |ws|
  {
    if ws != [] {
      assert ws[0] in ws && forall w :: w in ws[1..] ==> w in ws;
      OneStaysSealed(cfg, e, ws[0], row, c, verdict);
      StaysSealed(cfg, Apply(cfg, e, ws[0]), ws[1..], row, c, verdict);
    }
  }

  lemma OneStaysSealed(cfg: Config, e: Disk, w: Write, row: UnitRow, c: string, verdict: Label)
    requires UnitSealed(e, row, c, verdict) && (w.AdjudicationFile? ==> w.side.unitId != row.unitId)
    ensures UnitSealed(Apply(cfg, e, w), row, c, verdict)
  {
  }

  /** No other adjudicated unit on the list has this unit id. */
  ghost predicate OthersDiffer(d: Disk, order: seq<string>, unitId: string) {
    forall n :: n in order && Adjudicable(d, n) ==> d.workUnits[n].unitId != unitId
  }

  lemma {:induction false} OthersElsewhere(cfg: Config, d: Disk, order: seq<string>, randoms: string -> string, unitId: string)
    requires OthersDiffer(d, order, unitId)
    ensures Elsewhere(SealUnits(cfg, d, order, randoms), unitId)
    decreases |order|
  {
    if order != [] {
      assert order[0] in order && forall n :: n in order[1..] ==> n in order;
      OthersElsewhere(cfg, d, order[1..], randoms, unitId);
    }
  }

  /** The sealing loop leaves every unit that has a trajectory sealed under its own
      commitment and label. */
  lemma AdjudicationSealsEveryUnit(cfg: Config, d: Disk, order: seq<string>, i: nat, randoms: string -> string)
    requires i < |order| && Adjudicable(d, order[i])
    requires OthersDiffer(d, order[i + 1..], d.workUnits[order[i]].unitId)
    ensures var row := d.workUnits[order[i]];
      UnitSealed(ApplyAll(cfg, d, SealUnits(cfg, d, order, randoms)), row, CommitmentOf(cfg, row, randoms(order[i])),
                 cfg.judge(row))
  {
    var row, random := d.workUnits[order[i]], randoms(order[i]);
    var before, after := SealUnits(cfg, d, order[..i], randoms), SealUnits(cfg, d, order[i + 1..], randoms);
    var own := SealWritesOf(cfg, row, random);
    SealUnitsAround(cfg, d, order, i, randoms);
    ApplyConcat(cfg, d, before, own);
    ApplyConcat(cfg, d, before + own, after);
    SealWritesSeal(cfg, ApplyAll(cfg, d, before), row, random);
    OthersElsewhere(cfg, d, order[i + 1..], randoms, row.unitId);
    StaysSealed(cfg, ApplyAll(cfg, d, before + own), after, row, CommitmentOf(cfg, row, random), cfg.judge(row));
  }

  lemma {:induction false} SealUnitsAround(cfg: Config, d: Disk, order: seq<string>, i: nat, randoms: string -> string)
    requires i < |order| && Adjudicable(d, order[i])
    ensures SealUnits(cfg, d, order, randoms) ==
            SealUnits(cfg, d, order[..i], randoms) + SealWritesOf(cfg, d.workUnits[order[i]], randoms(order[i])) +
            SealUnits(cfg, d, order[i + 1..], randoms)
    decreases |order|
  {
    if i > 0 {
      SealUnitsAround(cfg, d, order[1..], i - 1, randoms);
      assert order[1..][..i - 1] == order[..i][1..] && order[1..][i..] == order[i + 1..];
    } else {
      assert order[..0] == [];
    }
  }

  /** The release copies every side file whose work unit exists, label and all. */
  lemma {:induction false} ReleaseCopiesEveryUnit(cfg: Config, d: Disk, e: Disk, order: seq<string>, unitId: string)
    requires unitId in order && unitId in d.adjudications && d.adjudications[unitId].unitId == unitId
    requires unitId in d.workUnits
    requires forall n :: n in order && n in d.adjudications ==> d.adjudications[n].unitId == n
    ensures var w := ApplyAll(cfg, e, AnalysisWrites(d, order));
      unitId in w.analysis && w.analysis[unitId] == d.adjudications[unitId]
    decreases |order|
  {
    var head := AnalysisWrites(d, order[..1]);
    assert order[..1] == [order[0]] && order[..1][1..] == [] && AnalysisWrites(d, []) == [];
    assert AnalysisWrites(d, order) == head + AnalysisWrites(d, order[1..]);
    ApplyConcat(cfg, e, head, AnalysisWrites(d, order[1..]));
    if unitId in order[1..] {
      assert forall n :: n in order[1..] ==> n in order;
      ReleaseCopiesEveryUnit(cfg, d, ApplyAll(cfg, e, head), order[1..], unitId);
    } else {
      assert order[0] == unitId;
      OneWrite(cfg, e, AnalysisFile(d.adjudications[unitId]));
      assert head == [AnalysisFile(d.adjudications[unitId])];
      AnalysisElsewhere(cfg, d, ApplyAll(cfg, e, head), order[1..], unitId);
    }
  }

  lemma {:induction false} AnalysisElsewhere(cfg: Config, d: Disk, e: Disk, order: seq<string>, unitId: string)
    requires unitId !in order && unitId in e.analysis
    requires forall n :: n in order && n in d.adjudications ==> d.adjudications[n].unitId == n
    ensures var w := ApplyAll(cfg, e, AnalysisWrites(d, order));
      unitId in w.analysis && w.analysis[unitId] == e.analysis[unitId]
    decreases |order|
  {
    if order != [] {
      var head := AnalysisWrites(d, order[..1]);
      assert order[..1] == [order[0]] && order[..1][1..] == [] && AnalysisWrites(d, []) == [];
      assert AnalysisWrites(d, order) == head + AnalysisWrites(d, order[1..]);
      assert order[0] in order && forall n :: n in order[1..] ==> n in order;
      ApplyConcat(cfg, e, head, AnalysisWrites(d, order[1..]));
      if head != [] {
        OneWrite(cfg, e, head[0]);
        assert head == [head[0]];
      }
      AnalysisElsewhere(cfg, d, ApplyAll(cfg, e, head), order[1..], unitId);
    }
  }

  // ---------------------------------------------------------------- the whole protocol

  lemma FreezeResult(cfg: Config, d: Disk, text: string)
    requires d.core.manifest.Some? && d.core.manifest.value.lifecycle == Attack
    ensures var chain := d.core.manifest.value.chain;
      var record := TipRecord(FreezeTip, Some(d.core.manifest.value.tip), multiset(d.commitments.Keys), text);
      var after := ApplyAll(cfg, d, FreezePlan(cfg, d, text).writes);
      && after.core == WithTip(cfg, d.core.(frozen := true), record, Freeze, chain)
                         .(sealed := true, lock := Some(cfg.tree(d.workUnits)))
      && after.workUnits == d.workUnits
  {
    var index := d.core.manifest.value;
    var record := TipRecord(FreezeTip, Some(index.tip), multiset(d.commitments.Keys), text);
    var a, c, e := VaultFreeze(d), TipWrites(cfg, record, Freeze, index.chain), SealWrites(cfg, d);
    VaultFreezeIsSafe(cfg, d);
    TipWritesApply(cfg, ApplyAll(cfg, d, a), record, Freeze, index.chain);
    ApplyConcat(cfg, d, a, c);
    SealWritesSafe(cfg, ApplyAll(cfg, d, a + c), d);
    ApplyConcat(cfg, d, a + c, e);
    NoUnitsChange(cfg, d, a + c + e);
  }

  lemma AdjudicateResult(cfg: Config, d: Disk, order: seq<string>, randoms: string -> string, text: string)
    requires AdjudicatePlan(cfg, d, order, randoms, text).raised.None?
    ensures var chain := d.core.manifest.value.chain;
      var record := TipRecord(AdjudicationTip, Some(d.core.manifest.value.tip),
                              multiset(Sealed(cfg, d, order, randoms)), text);
      var after := ApplyAll(cfg, d, AdjudicatePlan(cfg, d, order, randoms, text).writes);
      after.core == WithTip(cfg, d.core, record, Adjudication, chain) && after.workUnits == d.workUnits
  {
    var index := d.core.manifest.value;
    var record := TipRecord(AdjudicationTip, Some(index.tip), multiset(Sealed(cfg, d, order, randoms)), text);
    var a, c := SealUnits(cfg, d, order, randoms), TipWrites(cfg, record, Adjudication, index.chain);
    var last := [OtherFile("adjudication")];
    SealUnitsQuiet(cfg, d, order, randoms);
    QuietKeepsCore(cfg, d, a);
    TipWritesApply(cfg, ApplyAll(cfg, d, a), record, Adjudication, index.chain);
    ApplyConcat(cfg, d, a, c);
    QuietKeepsCore(cfg, ApplyAll(cfg, d, a + c), last);
    ApplyConcat(cfg, d, a + c, last);
    SealingWritesNoUnits(cfg, d, order, randoms);
    NoUnitsChange(cfg, d, a + c + last);
  }

  lemma ReleaseResult(cfg: Config, d: Disk, order: seq<string>, text: string)
    requires ReleasePlan(cfg, d, order, text).raised.None? && d.core.sealed
    ensures var chain := d.core.manifest.value.chain;
      var record := TipRecord(ReleaseTip, Some(d.core.manifest.value.tip), multiset(Materialized(d, order)), text);
      ApplyAll(cfg, d, ReleasePlan(cfg, d, order, text).writes).core ==
        WithTip(cfg, d.core.(released := true), record, LabelRelease, chain).(receipt := true)
  {
    var index := d.core.manifest.value;
    var record := TipRecord(ReleaseTip, Some(index.tip), multiset(Materialized(d, order)), text);
    var a, c := VaultRelease(d) + AnalysisWrites(d, order), TipWrites(cfg, record, LabelRelease, index.chain);
    VaultReleaseCore(cfg, d, order);
    TipWritesApply(cfg, ApplyAll(cfg, d, a), record, LabelRelease, index.chain);
    ApplyConcat(cfg, d, a, c);
    var e1, e2 := OtherFile("release"), CoreFile(Receipt);
    TwoWrites(cfg, ApplyAll(cfg, d, a + c), e1, e2);
    ApplyConcat(cfg, d, a + c, [e1, e2]);
    assert ReleasePlan(cfg, d, order, text).writes == a + c + [e1, e2];
  }

  lemma VaultReleaseCore(cfg: Config, d: Disk, order: seq<string>)
    ensures ApplyAll(cfg, d, VaultRelease(d) + AnalysisWrites(d, order)).core == d.core.(released := true)
  {
    var a, c := VaultRelease(d), AnalysisWrites(d, order);
    if d.core.released {
      QuietKeepsCore(cfg, d, a);
    } else {
      assert a[1..] == [OtherFile("records"), Audited("release")];
      QuietKeepsCore(cfg, Apply(cfg, d, CoreFile(MarkReleased)), a[1..]);
    }
    AnalysisQuiet(d, order);
    QuietKeepsCore(cfg, ApplyAll(cfg, d, a), c);
    ApplyConcat(cfg, d, a, c);
  }

  function Complete(op: Op, cfg: Config, d: Disk): Disk {
    ApplyAll(cfg, d, Plan(cfg, d, op).writes)
  }

  /** An attacked run that is frozen, adjudicated and released without interruption raises
      nowhere and ends released, sealed and with its receipt, its chain three tips longer. */
  lemma ProtocolCompletes(cfg: Config, d: Disk, names: seq<string>, randoms: string -> string, sides: seq<string>,
                          t1: string, t2: string, t3: string)
    requires OneToOne(cfg.digest) && Inv(cfg, d)
    requires d.core.manifest.Some? && d.core.manifest.value.lifecycle == Attack
    ensures var f, a, r := FreezeRun(t1), AdjudicateRun(names, randoms, t2), ReleaseLabels(sides, t3);
      var d1 := Complete(f, cfg, d);
      var d2 := Complete(a, cfg, d1);
      var d3 := Complete(r, cfg, d2);
      && Plan(cfg, d, f).raised.None? && Plan(cfg, d1, a).raised.None? && Plan(cfg, d2, r).raised.None?
      && d3.core.released && d3.core.sealed && d3.core.receipt && LabelsReleased(d3)
      && d3.core.manifest.Some? && d3.core.manifest.value.lifecycle == LabelRelease
      && d.core.manifest.value.chain <= d3.core.manifest.value.chain
      && |d3.core.manifest.value.chain| == |d.core.manifest.value.chain| + 3
  {
    var f, a, r := FreezeRun(t1), AdjudicateRun(names, randoms, t2), ReleaseLabels(sides, t3);
    var d1 := Complete(f, cfg, d);
    var d2 := Complete(a, cfg, d1);
    FreezeStep(cfg, d, t1);
    AdjudicateStep(cfg, d1, names, randoms, t2);
    ReleaseStep(cfg, d2, sides, t3);
  }

  /** What the next operation needs of a disk: its place in the lifecycle, a valid chain,
      an unreleased vault, and a lock that fits the work units. */
  ghost predicate ReadyFor(cfg: Config, d: Disk, l: Lifecycle) {
    && Inv(cfg, d) && d.core.manifest.Some? && d.core.manifest.value.lifecycle == l
    && d.core.frozen && d.core.sealed && !d.core.released && d.core.lock == Some(cfg.tree(d.workUnits))
  }

  lemma Finishes(cfg: Config, d: Disk, op: Op)
    requires OneToOne(cfg.digest) && Inv(cfg, d)
    ensures Inv(cfg, Complete(op, cfg, d))
  {
    var ws := Plan(cfg, d, op).writes;
    PlanIsSafe(cfg, d, op);
    SafeKeepsInv(cfg, d, ws, |ws|);
  }

  lemma FreezeStep(cfg: Config, d: Disk, text: string)
    requires OneToOne(cfg.digest) && Inv(cfg, d)
    requires d.core.manifest.Some? && d.core.manifest.value.lifecycle == Attack
    ensures var e := Complete(FreezeRun(text), cfg, d);
      && ReadyFor(cfg, e, Freeze)
      && d.core.manifest.value.chain <= e.core.manifest.value.chain
      && |e.core.manifest.value.chain| == |d.core.manifest.value.chain| + 1
  {
    var index := d.core.manifest.value;
    var record := TipRecord(FreezeTip, Some(index.tip), multiset(d.commitments.Keys), text);
    Finishes(cfg, d, FreezeRun(text));
    FreezeResult(cfg, d, text);
    ExtendedChain(cfg, d.core.objects, index, record, Freeze);
  }

  lemma AdjudicateStep(cfg: Config, d: Disk, order: seq<string>, randoms: string -> string, text: string)
    requires OneToOne(cfg.digest) && ReadyFor(cfg, d, Freeze)
    ensures var op := AdjudicateRun(order, randoms, text);
      var e := Complete(op, cfg, d);
      && Plan(cfg, d, op).raised.None? && ReadyFor(cfg, e, Adjudication)
      && d.core.manifest.value.chain <= e.core.manifest.value.chain
      && |e.core.manifest.value.chain| == |d.core.manifest.value.chain| + 1
  {
    var index := d.core.manifest.value;
    var record := TipRecord(AdjudicationTip, Some(index.tip), multiset(Sealed(cfg, d, order, randoms)), text);
    Finishes(cfg, d, AdjudicateRun(order, randoms, text));
    AdjudicateResult(cfg, d, order, randoms, text);
    ExtendedChain(cfg, d.core.objects, index, record, Adjudication);
  }

  lemma ReleaseStep(cfg: Config, d: Disk, order: seq<string>, text: string)
    requires OneToOne(cfg.digest) && ReadyFor(cfg, d, Adjudication)
    ensures var op := ReleaseLabels(order, text);
      var e := Complete(op, cfg, d);
      && Plan(cfg, d, op).raised.None?
      && e.core.released && e.core.sealed && e.core.receipt && LabelsReleased(e)
      && e.core.manifest.Some? && e.core.manifest.value.lifecycle == LabelRelease
      && d.core.manifest.value.chain <= e.core.manifest.value.chain
      && |e.core.manifest.value.chain| == |d.core.manifest.value.chain| + 1
  {
    var index := d.core.manifest.value;
    var record := TipRecord(ReleaseTip, Some(index.tip), multiset(Materialized(d, order)), text);
    ReleaseResult(cfg, d, order, text);
    ExtendedChain(cfg, d.core.objects, index, record, LabelRelease);
  }
}
