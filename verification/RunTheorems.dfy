/**
 The protocol's promises over whole runs: markers and lifecycle agree, a release is
 final, the tip chain only grows from freeze on, and a crashed adjudication seals the
 same commitments when it is run again.
 */
module RunTheorems {
  import opened Prelude
  import opened HashChain
  import opened RunProtocol
  import opened RunLaws

  // ---------------------------------------------------------------- every plan is safe

  lemma AttackTipIsSafe(cfg: Config, core: Core, record: TipRecord)
    requires OneToOne(cfg.digest) && CoreInv(cfg, core) && record.kind == AttackTip && record.prev == None
    requires core.manifest.None? || (core.manifest.value.lifecycle == Attack && !core.sealed)
    ensures var tip := cfg.digest(record);
      SafeCore(core.(objects := Stored(cfg, core.objects, record)), Manifest(Index(Attack, tip, AttackTip, ChainWith([], tip))))
  {
    var tip := cfg.digest(record);
    StoredGrows(cfg, core.objects, record);
    assert cfg.digest(Stored(cfg, core.objects, record)[tip]) == tip;
    assert LinkAt(Stored(cfg, core.objects, record), [tip], 0);
    assert ChainWith([], tip) == [tip];
  }

  lemma {:induction false} UnitWritesQuiet(filed: set<string>, units: seq<(string, UnitRow)>)
    ensures forall w :: w in UnitWrites(filed, units) ==> w.WorkUnit?
    decreases |units|
  {
    if units != [] {
      UnitWritesQuiet(filed, units[1..]);
      UnitWritesQuiet(filed + {units[0].0}, units[1..]);
    }
  }

  lemma AttackIsSafe(cfg: Config, d: Disk, units: seq<(string, UnitRow)>, text: string)
    requires OneToOne(cfg.digest) && Inv(cfg, d)
    ensures SafeAll(cfg, d, AttackPlan(cfg, d, units, text).writes)
  {
    var ws := UnitWrites(d.workUnits.Keys, units);
    UnitWritesQuiet(d.workUnits.Keys, units);
    QuietIsSafe(cfg, d, ws);
    if TipGuard(d, Attack).None? {
      var record := TipRecord(AttackTip, None, multiset{}, text);
      QuietKeepsCore(cfg, d, ws);
      AttackTipIsSafe(cfg, d.core, record);
      TipWritesSafe(cfg, ApplyAll(cfg, d, ws), record, Attack, []);
      SafeConcat(cfg, d, ws, TipWrites(cfg, record, Attack, []));
    }
  }

  lemma VaultFreezeIsSafe(cfg: Config, d: Disk)
    ensures SafeAll(cfg, d, VaultFreeze(d)) && ApplyAll(cfg, d, VaultFreeze(d)).core == d.core.(frozen := true)
  {
    if d.core.frozen {
      QuietIsSafe(cfg, d, VaultFreeze(d));
      QuietKeepsCore(cfg, d, VaultFreeze(d));
    } else {
      var d1 := Apply(cfg, d, CoreFile(MarkFrozen));
      var others := [OtherFile("records"), Audited("freeze")];
      assert VaultFreeze(d)[1..] == others;
      QuietIsSafe(cfg, d1, others);
      QuietKeepsCore(cfg, d1, others);
    }
  }

  lemma TwoWrites(cfg: Config, d: Disk, w: Write, x: Write)
    ensures ApplyAll(cfg, d, [w, x]) == Apply(cfg, Apply(cfg, d, w), x)
    ensures SafeAll(cfg, d, [w, x]) <==> Safe(d, w) && Safe(Apply(cfg, d, w), x)
  {
    OneWrite(cfg, Apply(cfg, d, w), x);
    assert [w, x][1..] == [x];
  }

  lemma OneWrite(cfg: Config, d: Disk, w: Write)
    ensures ApplyAll(cfg, d, [w]) == Apply(cfg, d, w)
    ensures SafeAll(cfg, d, [w]) <==> Safe(d, w)
  {
    assert [w][1..] == [];
  }

  lemma SealWritesSafe(cfg: Config, e: Disk, d: Disk)
    requires CoreRank(e.core) >= Rank(Freeze)
    ensures SafeAll(cfg, e, SealWrites(cfg, d))
    ensures ApplyAll(cfg, e, SealWrites(cfg, d)).core == e.core.(sealed := true, lock := Some(cfg.tree(d.workUnits)))
  {
    var ws := SealWrites(cfg, d);
    var quiet, seal, lock := ws[..3], ws[3], ws[4];
    QuietIsSafe(cfg, e, quiet);
    QuietKeepsCore(cfg, e, quiet);
    var e1 := ApplyAll(cfg, e, quiet);
    TwoWrites(cfg, e1, seal, lock);
    SafeConcat(cfg, e, quiet, [seal, lock]);
    ApplyConcat(cfg, e, quiet, [seal, lock]);
    assert ws == quiet + [seal, lock];
  }

  lemma FreezeIsSafe(cfg: Config, d: Disk, text: string)
    requires OneToOne(cfg.digest) && Inv(cfg, d)
    ensures SafeAll(cfg, d, FreezePlan(cfg, d, text).writes)
  {
    if d.core.manifest.Some? && CanTransition(d.core.manifest.value.lifecycle, Freeze) {
      var index := d.core.manifest.value;
      var record := TipRecord(FreezeTip, Some(index.tip), multiset(d.commitments.Keys), text);
      var a, c := VaultFreeze(d), TipWrites(cfg, record, Freeze, index.chain);
      VaultFreezeIsSafe(cfg, d);
      var d1 := ApplyAll(cfg, d, a);
      ForwardIsSafe(cfg, d.core.(frozen := true), record, Freeze);
      TipWritesSafe(cfg, d1, record, Freeze, index.chain);
      TipWritesApply(cfg, d1, record, Freeze, index.chain);
      SafeConcat(cfg, d, a, c);
      ApplyConcat(cfg, d, a, c);
      SealWritesSafe(cfg, ApplyAll(cfg, d1, c), d);
      SafeConcat(cfg, d, a + c, SealWrites(cfg, d));
    }
  }

  lemma {:induction false} SealUnitsQuiet(cfg: Config, d: Disk, order: seq<string>, randoms: string -> string)
    ensures Quiet(SealUnits(cfg, d, order, randoms))
    decreases |order|
  {
    if order != [] {
      SealUnitsQuiet(cfg, d, order[1..], randoms);
    }
  }

  lemma AdjudicateIsSafe(cfg: Config, d: Disk, order: seq<string>, randoms: string -> string, text: string)
    requires OneToOne(cfg.digest) && Inv(cfg, d)
    ensures SafeAll(cfg, d, AdjudicatePlan(cfg, d, order, randoms, text).writes)
  {
    if AdjudicatePlan(cfg, d, order, randoms, text).raised.None? {
      var index := d.core.manifest.value;
      var record := TipRecord(AdjudicationTip, Some(index.tip), multiset(Sealed(cfg, d, order, randoms)), text);
      var a, c := SealUnits(cfg, d, order, randoms), TipWrites(cfg, record, Adjudication, index.chain);
      SealingIsSafe(cfg, d, order, randoms, record);
      var last := [OtherFile("adjudication")];
      QuietIsSafe(cfg, ApplyAll(cfg, d, a + c), last);
      SafeConcat(cfg, d, a + c, last);
    }
  }

  lemma SealingIsSafe(cfg: Config, d: Disk, order: seq<string>, randoms: string -> string, record: TipRecord)
    requires OneToOne(cfg.digest) && Inv(cfg, d) && d.core.manifest.Some? && CoreRank(d.core) == Rank(Freeze)
    requires record.kind != AttackTip && record.prev == Some(d.core.manifest.value.tip) && !d.core.released
    ensures SafeAll(cfg, d, SealUnits(cfg, d, order, randoms) +
                            TipWrites(cfg, record, Adjudication, d.core.manifest.value.chain))
  {
    var a, chain := SealUnits(cfg, d, order, randoms), d.core.manifest.value.chain;
    SealUnitsQuiet(cfg, d, order, randoms);
    QuietIsSafe(cfg, d, a);
    QuietKeepsCore(cfg, d, a);
    ForwardIsSafe(cfg, d.core, record, Adjudication);
    TipWritesSafe(cfg, ApplyAll(cfg, d, a), record, Adjudication, chain);
    SafeConcat(cfg, d, a, TipWrites(cfg, record, Adjudication, chain));
  }

  lemma VaultReleaseIsSafe(cfg: Config, d: Disk)
    requires d.core.frozen && CoreRank(d.core) >= Rank(Adjudication)
    ensures SafeAll(cfg, d, VaultRelease(d)) && ApplyAll(cfg, d, VaultRelease(d)).core == d.core.(released := true)
  {
    if d.core.released {
      QuietIsSafe(cfg, d, VaultRelease(d));
      QuietKeepsCore(cfg, d, VaultRelease(d));
    } else {
      var d1 := Apply(cfg, d, CoreFile(MarkReleased));
      var others := [OtherFile("records"), Audited("release")];
      assert VaultRelease(d)[1..] == others;
      QuietIsSafe(cfg, d1, others);
      QuietKeepsCore(cfg, d1, others);
    }
  }

  lemma {:induction false} AnalysisQuiet(d: Disk, order: seq<string>)
    ensures Quiet(AnalysisWrites(d, order)) && NoLabels(AnalysisWrites(d, order))
    decreases |order|
  {
    if order != [] {
      AnalysisQuiet(d, order[1..]);
    }
  }

  /** Marker and analysis copies: everything release writes before its tip. */
  lemma ReleaseStartSafe(cfg: Config, d: Disk, order: seq<string>)
    requires d.core.frozen && CoreRank(d.core) >= Rank(Adjudication)
    ensures SafeAll(cfg, d, VaultRelease(d) + AnalysisWrites(d, order))
    ensures ApplyAll(cfg, d, VaultRelease(d) + AnalysisWrites(d, order)).core == d.core.(released := true)
  {
    var a, c := VaultRelease(d), AnalysisWrites(d, order);
    VaultReleaseIsSafe(cfg, d);
    AnalysisQuiet(d, order);
    QuietIsSafe(cfg, ApplyAll(cfg, d, a), c);
    QuietKeepsCore(cfg, ApplyAll(cfg, d, a), c);
    SafeConcat(cfg, d, a, c);
    ApplyConcat(cfg, d, a, c);
  }

  lemma ReleaseEndSafe(cfg: Config, e: Disk)
    requires e.core.released
    ensures SafeAll(cfg, e, [OtherFile("release")] + (if e.core.sealed then [CoreFile(Receipt)] else []))
  {
    var a := [OtherFile("release")];
    var c := if e.core.sealed then [CoreFile(Receipt)] else [];
    QuietIsSafe(cfg, e, a);
    QuietKeepsCore(cfg, e, a);
    assert SafeAll(cfg, ApplyAll(cfg, e, a), c);
    SafeConcat(cfg, e, a, c);
  }

  lemma ReleaseTipSafe(cfg: Config, d: Disk, a: seq<Write>, record: TipRecord)
    requires OneToOne(cfg.digest) && Inv(cfg, d) && d.core.manifest.Some? && CoreRank(d.core) == Rank(Adjudication)
    requires record.kind != AttackTip && record.prev == Some(d.core.manifest.value.tip)
    requires SafeAll(cfg, d, a) && ApplyAll(cfg, d, a).core == d.core.(released := true)
    ensures var c := TipWrites(cfg, record, LabelRelease, d.core.manifest.value.chain);
      && SafeAll(cfg, d, a + c)
      && ApplyAll(cfg, d, a + c).core.released && ApplyAll(cfg, d, a + c).core.sealed == d.core.sealed
  {
    var chain := d.core.manifest.value.chain;
    var c := TipWrites(cfg, record, LabelRelease, chain);
    ForwardIsSafe(cfg, d.core.(released := true), record, LabelRelease);
    TipWritesSafe(cfg, ApplyAll(cfg, d, a), record, LabelRelease, chain);
    TipWritesApply(cfg, ApplyAll(cfg, d, a), record, LabelRelease, chain);
    SafeConcat(cfg, d, a, c);
    ApplyConcat(cfg, d, a, c);
  }

  lemma ReleaseIsSafe(cfg: Config, d: Disk, order: seq<string>, text: string)
    requires OneToOne(cfg.digest) && Inv(cfg, d)
    ensures SafeAll(cfg, d, ReleasePlan(cfg, d, order, text).writes)
  {
    if ReleasePlan(cfg, d, order, text).raised.None? {
      var index := d.core.manifest.value;
      var record := TipRecord(ReleaseTip, Some(index.tip), multiset(Materialized(d, order)), text);
      var a := VaultRelease(d) + AnalysisWrites(d, order);
      var c := TipWrites(cfg, record, LabelRelease, index.chain);
      var e := [OtherFile("release")] + (if d.core.sealed then [CoreFile(Receipt)] else []);
      ReleaseStartSafe(cfg, d, order);
      ReleaseTipSafe(cfg, d, a, record);
      ReleaseEndSafe(cfg, ApplyAll(cfg, d, a + c));
      SafeConcat(cfg, d, a + c, e);
      assert ReleasePlan(cfg, d, order, text).writes == a + c + e;
    }
  }

  lemma PlanIsSafe(cfg: Config, d: Disk, op: Op)
    requires OneToOne(cfg.digest) && Inv(cfg, d)
    ensures SafeAll(cfg, d, Plan(cfg, d, op).writes)
  {
    match op
    case AttackRun(units, text) => AttackIsSafe(cfg, d, units, text);
    case FreezeRun(text) => FreezeIsSafe(cfg, d, text);
    case AdjudicateRun(order, randoms, text) => AdjudicateIsSafe(cfg, d, order, randoms, text);
    case ReleaseLabels(order, text) => ReleaseIsSafe(cfg, d, order, text);
  }

  // ---------------------------------------------------------------- runs

  /** Over every run, each operation cut off anywhere: lifecycle and markers agree, the
      audit log verifies, and the tip chain is linked and resolves in the store. */
  lemma {:induction false} RunKeepsInv(cfg: Config, d: Disk, attempts: seq<Attempt>)
    requires OneToOne(cfg.digest) && Inv(cfg, d)
    ensures Inv(cfg, After(cfg, d, attempts))
    decreases |attempts|
  {
    if attempts != [] {
      PlanIsSafe(cfg, d, attempts[0].op);
      SafeKeepsInv(cfg, d, Plan(cfg, d, attempts[0].op).writes, attempts[0].n);
      RunKeepsInv(cfg, Perform(cfg, d, attempts[0]), attempts[1..]);
    }
  }

  lemma FreshRunKeepsInv(cfg: Config, attempts: seq<Attempt>)
    requires OneToOne(cfg.digest)
    ensures Inv(cfg, After(cfg, EMPTY, attempts))
  {
    RunKeepsInv(cfg, EMPTY, attempts);
  }

  /** What labels_released reports is exactly the vault's marker. */
  lemma LabelsReleasedExactly(cfg: Config, attempts: seq<Attempt>)
    requires OneToOne(cfg.digest)
    ensures LabelsReleased(After(cfg, EMPTY, attempts)) <==> After(cfg, EMPTY, attempts).core.released
  {
    FreshRunKeepsInv(cfg, attempts);
    ReleasedByMarker(cfg, After(cfg, EMPTY, attempts));
  }

  lemma ReleasedByMarker(cfg: Config, d: Disk)
    requires Inv(cfg, d)
    ensures LabelsReleased(d) <==> d.core.released
  {
  }

  // ---------------------------------------------------------------- what never changes back

  /** What a safe step cannot undo: markers stay, a released vault's commitments and
      labels stay, and from freeze on the chain and the lifecycle only move forward. */
  ghost predicate Onward(d: Disk, e: Disk) {
    && (d.core.frozen ==> e.core.frozen)
    && (d.core.released ==> e.core.released && e.commitments == d.commitments && e.labels == d.labels)
    && (CoreRank(d.core) >= Rank(Freeze) ==>
          CoreRank(e.core) >= CoreRank(d.core) && d.core.manifest.value.chain <= e.core.manifest.value.chain)
  }

  lemma SafeWriteIsOnward(cfg: Config, d: Disk, w: Write)
    requires Safe(d, w)
    ensures Onward(d, Apply(cfg, d, w))
  {
  }

  lemma OnwardTransitive(a: Disk, c: Disk, e: Disk)
    requires Onward(a, c) && Onward(c, e)
    ensures Onward(a, e)
  {
  }

  lemma {:induction false} SafeIsOnward(cfg: Config, d: Disk, ws: seq<Write>, n: nat)
    requires SafeAll(cfg, d, ws)
    ensures Onward(d, ApplyAll(cfg, d, FirstN(ws, n)))
    decreases |ws|
  {
    if n > 0 && ws != [] {
      FirstNTail(ws, n);
      SafeWriteIsOnward(cfg, d, ws[0]);
      SafeIsOnward(cfg, Apply(cfg, d, ws[0]), ws[1..], n - 1);
      OnwardTransitive(d, Apply(cfg, d, ws[0]), ApplyAll(cfg, d, FirstN(ws, n)));
    }
  }

  /** A release is final: whatever is attempted later, and wherever it stops, the set of
      commitments and their labels stay as they were. From freeze on no run shortens or
      rewrites the tip chain. */
  lemma {:induction false} RunIsOnward(cfg: Config, d: Disk, attempts: seq<Attempt>)
    requires OneToOne(cfg.digest) && Inv(cfg, d)
    ensures Onward(d, After(cfg, d, attempts))
    decreases |attempts|
  {
    if attempts != [] {
      var e := Perform(cfg, d, attempts[0]);
      PlanIsSafe(cfg, d, attempts[0].op);
      SafeKeepsInv(cfg, d, Plan(cfg, d, attempts[0].op).writes, attempts[0].n);
      SafeIsOnward(cfg, d, Plan(cfg, d, attempts[0].op).writes, attempts[0].n);
      RunIsOnward(cfg, e, attempts[1..]);
      OnwardTransitive(d, e, After(cfg, e, attempts[1..]));
    }
  }

  // ---------------------------------------------------------------- an interrupted freeze

  /** Frozen by its manifest, but never sealed. */
  ghost predicate Stranded(d: Disk) {
    CoreRank(d.core) >= Rank(Freeze) && !d.core.sealed
  }

  predicate Seals(w: Write) {
    w.CoreFile? && (w.write.SealedRun? || w.write.LockFile?)
  }

  ghost predicate NoSeal(ws: seq<Write>) {
    forall w :: w in ws ==> !Seals(w)
  }

  lemma OneKeepsSeals(cfg: Config, d: Disk, w: Write)
    requires !Seals(w)
    ensures Apply(cfg, d, w).core.sealed == d.core.sealed && Apply(cfg, d, w).core.lock == d.core.lock
  {
  }

  lemma {:induction false} NoSealKeepsSeals(cfg: Config, d: Disk, ws: seq<Write>)
    requires NoSeal(ws)
    ensures ApplyAll(cfg, d, ws).core.sealed == d.core.sealed && ApplyAll(cfg, d, ws).core.lock == d.core.lock
    decreases |ws|
  {
    if ws != [] {
      assert ws[0] in ws && forall w :: w in ws[1..] ==> w in ws;
      OneKeepsSeals(cfg, d, ws[0]);
      NoSealKeepsSeals(cfg, Apply(cfg, d, ws[0]), ws[1..]);
    }
  }

  lemma FrozenPlansNoSeal(cfg: Config, d: Disk, op: Op)
    requires CoreRank(d.core) >= Rank(Freeze)
    ensures NoSeal(Plan(cfg, d, op).writes)
  {
    match op
    case AttackRun(units, _) => UnitWritesQuiet(d.workUnits.Keys, units);
    case FreezeRun(_) =>
    case AdjudicateRun(order, randoms, text) => AdjudicatePlansNoSeal(cfg, d, order, randoms, text);
    case ReleaseLabels(order, text) => ReleasePlansNoSeal(cfg, d, order, text);
  }

  lemma AdjudicatePlansNoSeal(cfg: Config, d: Disk, order: seq<string>, randoms: string -> string, text: string)
    ensures NoSeal(AdjudicatePlan(cfg, d, order, randoms, text).writes)
  {
    SealUnitsQuiet(cfg, d, order, randoms);
  }

  lemma ReleasePlansNoSeal(cfg: Config, d: Disk, order: seq<string>, text: string)
    ensures NoSeal(ReleasePlan(cfg, d, order, text).writes)
  {
    AnalysisQuiet(d, order);
  }

  /** Once a manifest says a run is frozen, its seal and its attack-plane lock are what
      they are: no run of operations, each cut anywhere, adds or changes them. */
  lemma {:induction false} SealAndLockStay(cfg: Config, d: Disk, attempts: seq<Attempt>)
    requires OneToOne(cfg.digest) && Inv(cfg, d) && CoreRank(d.core) >= Rank(Freeze)
    ensures var e := After(cfg, d, attempts);
      && Inv(cfg, e) && CoreRank(e.core) >= Rank(Freeze)
      && e.core.sealed == d.core.sealed && e.core.lock == d.core.lock
    decreases |attempts|
  {
    if attempts != [] {
      var ws := Plan(cfg, d, attempts[0].op).writes;
      PlanIsSafe(cfg, d, attempts[0].op);
      SafeKeepsInv(cfg, d, ws, attempts[0].n);
      SafeIsOnward(cfg, d, ws, attempts[0].n);
      FrozenPlansNoSeal(cfg, d, attempts[0].op);
      assert forall w :: w in FirstN(ws, attempts[0].n) ==> w in ws;
      NoSealKeepsSeals(cfg, d, FirstN(ws, attempts[0].n));
      SealAndLockStay(cfg, Perform(cfg, d, attempts[0]), attempts[1..]);
    }
  }

  /** A freeze stopped between its manifest and its seal cannot be run again: no run of
      operations ever seals it, so its release never gets a receipt. */
  lemma StrandedForever(cfg: Config, d: Disk, attempts: seq<Attempt>)
    requires OneToOne(cfg.digest) && Inv(cfg, d) && Stranded(d)
    ensures Stranded(After(cfg, d, attempts)) && !After(cfg, d, attempts).core.receipt
  {
    SealAndLockStay(cfg, d, attempts);
  }
}
