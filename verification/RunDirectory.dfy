/**
 freeze_run, adjudicate_run, release_labels and write_tip_index as methods that change
 the run directory one durable write at a time, proved to make the writes planned for
 them, in that order.
 */
module RunDirectory {
  import opened Prelude
  import opened HashChain
  import opened RunProtocol
  import opened RunLaws
  import opened RunTheorems

  lemma {:induction false} SealUnitsConcat(cfg: Config, d: Disk, a: seq<string>, c: seq<string>, randoms: string -> string)
    ensures SealUnits(cfg, d, a + c, randoms) == SealUnits(cfg, d, a, randoms) + SealUnits(cfg, d, c, randoms)
    decreases |a|
  {
    if a == [] {
      assert a + c == c;
    } else {
      assert (a + c)[1..] == a[1..] + c;
      SealUnitsConcat(cfg, d, a[1..], c, randoms);
    }
  }

  lemma {:induction false} SealedConcat(cfg: Config, d: Disk, a: seq<string>, c: seq<string>, randoms: string -> string)
    ensures Sealed(cfg, d, a + c, randoms) == Sealed(cfg, d, a, randoms) + Sealed(cfg, d, c, randoms)
    decreases |a|
  {
    if a == [] {
      assert a + c == c;
    } else {
      assert (a + c)[1..] == a[1..] + c;
      SealedConcat(cfg, d, a[1..], c, randoms);
    }
  }

  lemma SealUnitsNext(cfg: Config, d: Disk, order: seq<string>, i: nat, randoms: string -> string)
    requires i < |order|
    ensures SealUnits(cfg, d, order[..i + 1], randoms) == SealUnits(cfg, d, order[..i], randoms) +
            if Adjudicable(d, order[i]) then SealWritesOf(cfg, d.workUnits[order[i]], randoms(order[i])) else []
    ensures Sealed(cfg, d, order[..i + 1], randoms) == Sealed(cfg, d, order[..i], randoms) +
            if Adjudicable(d, order[i]) then [CommitmentOf(cfg, d.workUnits[order[i]], randoms(order[i]))] else []
  {
    assert order[..i + 1] == order[..i] + [order[i]];
    SealUnitsConcat(cfg, d, order[..i], [order[i]], randoms);
    SealedConcat(cfg, d, order[..i], [order[i]], randoms);
    assert [order[i]][1..] == [];
    assert SealUnits(cfg, d, [], randoms) == [] && Sealed(cfg, d, [], randoms) == [];
  }

  lemma {:induction false} AnalysisConcat(d: Disk, a: seq<string>, c: seq<string>)
    ensures AnalysisWrites(d, a + c) == AnalysisWrites(d, a) + AnalysisWrites(d, c)
    decreases |a|
  {
    if a == [] {
      assert a + c == c;
    } else {
      assert (a + c)[1..] == a[1..] + c;
      AnalysisConcat(d, a[1..], c);
    }
  }

  lemma {:induction false} MaterializedConcat(d: Disk, a: seq<string>, c: seq<string>)
    ensures Materialized(d, a + c) == Materialized(d, a) + Materialized(d, c)
    decreases |a|
  {
    if a == [] {
      assert a + c == c;
    } else {
      assert (a + c)[1..] == a[1..] + c;
      MaterializedConcat(d, a[1..], c);
    }
  }

  predicate Copied(d: Disk, name: string) {
    name in d.adjudications && d.adjudications[name].unitId in d.workUnits
  }

  lemma AnalysisNext(d: Disk, order: seq<string>, i: nat)
    requires i < |order|
    ensures AnalysisWrites(d, order[..i + 1]) == AnalysisWrites(d, order[..i]) +
            if Copied(d, order[i]) then [AnalysisFile(d.adjudications[order[i]])] else []
    ensures Materialized(d, order[..i + 1]) == Materialized(d, order[..i]) +
            if Copied(d, order[i]) then [d.adjudications[order[i]].commitment] else []
  {
    assert order[..i + 1] == order[..i] + [order[i]];
    AnalysisConcat(d, order[..i], [order[i]]);
    MaterializedConcat(d, order[..i], [order[i]]);
    assert [order[i]][1..] == [];
    assert AnalysisWrites(d, []) == [] && Materialized(d, []) == [];
  }

  /** What the loops read again on each turn, no write of theirs changes. */
  ghost predicate SameInputs(d: Disk, e: Disk) {
    d.core.manifest == e.core.manifest && d.workUnits == e.workUnits && d.core.sealed == e.core.sealed
  }

  class RunDirectory {
    const cfg: Config
    var disk: Disk

    /** Every durable write so far, in order. */
    ghost var trace: seq<Write>

    constructor (cfg: Config)
      ensures Valid() && this.cfg == cfg && disk == EMPTY && trace == []
    {
      this.cfg := cfg;
      disk, trace := EMPTY, [];
    }

    ghost predicate Valid()
      reads this
    {
      disk == ApplyAll(cfg, EMPTY, trace)
    }

    method Put(w: Write)
      requires Valid()
      modifies this
      ensures Valid() && trace == old(trace) + [w] && disk == Apply(cfg, old(disk), w)
    {
      ApplyConcat(cfg, EMPTY, trace, [w]);
      OneWrite(cfg, disk, w);
      disk := Apply(cfg, disk, w);
      trace := trace + [w];
    }

    /** The record, the tip index, and the copy for inspection. */
    method MoveTip(record: TipRecord, next: Lifecycle, prevChain: seq<Digest>)
      requires Valid()
      modifies this
      ensures Valid() && trace == old(trace) + TipWrites(cfg, record, next, prevChain)
      ensures disk.core.sealed == old(disk).core.sealed && disk.workUnits == old(disk).workUnits
    {
      var tip := cfg.digest(record);
      var chain := prevChain;
      if tip !in chain {
        chain := chain + [tip];
      }
      Put(CoreFile(PutTip(record)));
      Put(CoreFile(Manifest(Index(next, tip, record.kind, chain))));
      Put(OtherFile("lifecycle"));
    }

    /** write_tip_index: the guard, then the tip. */
    method WriteTipIndex(record: TipRecord, next: Lifecycle, prevChain: seq<Digest>) returns (raised: Option<Failure>)
      requires Valid()
      modifies this
      ensures Valid() && raised == TipGuard(old(disk), next)
      ensures trace == if raised.Some? then old(trace) else old(trace) + TipWrites(cfg, record, next, prevChain)
      ensures raised.Some? ==> disk == old(disk)
      ensures disk.core.sealed == old(disk).core.sealed && disk.workUnits == old(disk).workUnits
    {
      if disk.core.manifest.Some? {
        var current := disk.core.manifest.value.lifecycle;
        if current != next {
          if !CanTransition(current, next) {
            return Some(IllegalTransition);
          }
        } else if disk.core.sealed {
          return Some(TipAfterSeal);
        }
      }
      MoveTip(record, next, prevChain);
      return None;
    }

    method AttackRun(units: seq<(string, UnitRow)>, text: string) returns (raised: Option<Failure>)
      requires Valid()
      modifies this
      ensures Valid() && trace == old(trace) + AttackPlan(cfg, old(disk), units, text).writes
      ensures raised == AttackPlan(cfg, old(disk), units, text).raised
    {
      ghost var all := UnitWrites(disk.workUnits.Keys, units);
      for i := 0 to |units|
        invariant Valid() && disk.core == old(disk).core
        invariant trace + UnitWrites(disk.workUnits.Keys, units[i..]) == old(trace) + all
      {
        assert units[i..][1..] == units[i + 1..];
        ghost var before, filed := trace, disk.workUnits.Keys;
        if units[i].0 !in disk.workUnits {
          Put(WorkUnit(units[i].0, units[i].1));
          assert disk.workUnits.Keys == filed + {units[i].0};
          Reassociated(before, trace[|before|], UnitWrites(disk.workUnits.Keys, units[i + 1..]));
        }
      }
      assert trace + [] == trace;
      raised := WriteTipIndex(TipRecord(AttackTip, None, multiset{}, text), Attack, []);
    }

    method FreezeVault()
      requires Valid()
      modifies this
      ensures Valid() && trace == old(trace) + VaultFreeze(old(disk))
      ensures SameInputs(old(disk), disk) && disk.commitments == old(disk).commitments
    {
      if disk.core.frozen {
        Put(Audited("freeze_idempotent"));
      } else {
        Put(CoreFile(MarkFrozen));
        Put(OtherFile("records"));
        Put(Audited("freeze"));
      }
    }

    method SealRun()
      requires Valid()
      modifies this
      ensures Valid() && trace == old(trace) + SealWrites(cfg, old(disk))
    {
      var tree := cfg.tree(disk.workUnits);
      Put(FreezeFile);
      Put(OtherFile("chronology"));
      Put(OtherFile("freeze_seal_bundle"));
      Put(CoreFile(SealedRun));
      Put(CoreFile(LockFile(tree)));
    }

    method FreezeRun(text: string) returns (raised: Option<Failure>)
      requires Valid()
      modifies this
      ensures Valid() && trace == old(trace) + FreezePlan(cfg, old(disk), text).writes
      ensures raised == FreezePlan(cfg, old(disk), text).raised
    {
      if disk.core.manifest.None? {
        return Some(NoManifest);
      }
      var index := disk.core.manifest.value;
      if !CanTransition(index.lifecycle, Freeze) {
        return Some(IllegalTransition);
      }
      FreezeVault();
      var record := TipRecord(FreezeTip, Some(index.tip), multiset(disk.commitments.Keys), text);
      raised := WriteTipIndex(record, Freeze, index.chain);
      SealRun();
    }

    /** vault.commit for one unit, and the side file beside it. */
    method SealUnit(row: UnitRow, random: string) returns (commitment: string)
      requires Valid() && row.trajectory.Some?
      modifies this
      ensures Valid() && trace == old(trace) + SealWritesOf(cfg, row, random)
      ensures commitment == CommitmentOf(cfg, row, random) && SameInputs(old(disk), disk)
    {
      var salt := if row.nonce != "" then row.nonce else if row.unitId != "" then row.unitId else random;
      var verdict := cfg.judge(row);
      commitment := cfg.mac(row.trajectory.value, salt, verdict);
      Put(CommitFile(commitment, CommitRecord(salt, verdict, row.external)));
      Put(LabelFile(commitment, verdict));
      Put(OtherFile("label_tiers"));
      Put(Audited("commit:" + commitment));
      Put(AdjudicationFile(Side(row.unitId, commitment, verdict)));
    }

    /** The loop over the work units, in file order. */
    method SealAll(order: seq<string>, randoms: string -> string) returns (sealed: seq<string>)
      requires Valid()
      modifies this
      ensures Valid() && trace == old(trace) + SealUnits(cfg, old(disk), order, randoms)
      ensures sealed == Sealed(cfg, old(disk), order, randoms) && SameInputs(old(disk), disk)
    {
      ghost var d, before := disk, trace;
      sealed := [];
      for i := 0 to |order|
        invariant Valid() && SameInputs(d, disk)
        invariant trace == before + SealUnits(cfg, d, order[..i], randoms)
        invariant sealed == Sealed(cfg, d, order[..i], randoms)
      {
        SealUnitsNext(cfg, d, order, i, randoms);
        ghost var past := SealUnits(cfg, d, order[..i], randoms);
        if Adjudicable(disk, order[i]) {
          var row, random := disk.workUnits[order[i]], randoms(order[i]);
          var c := SealUnit(row, random);
          sealed := sealed + [c];
          assert (before + past) + SealWritesOf(cfg, row, random) == before + (past + SealWritesOf(cfg, row, random));
        }
      }
      assert order[..|order|] == order;
    }

    method AdjudicateRun(order: seq<string>, randoms: string -> string, text: string) returns (raised: Option<Failure>)
      requires Valid()
      modifies this
      ensures Valid() && trace == old(trace) + AdjudicatePlan(cfg, old(disk), order, randoms, text).writes
      ensures raised == AdjudicatePlan(cfg, old(disk), order, randoms, text).raised
    {
      if disk.core.manifest.None? {
        return Some(NoManifest);
      }
      var index := disk.core.manifest.value;
      if !CanTransition(index.lifecycle, Adjudication) {
        return Some(IllegalTransition);
      }
      if !disk.core.frozen && !disk.freezeFile {
        return Some(BeforeFreeze);
      }
      if disk.core.released {
        return Some(AfterRelease);
      }
      var sealed := SealAll(order, randoms);
      var record := TipRecord(AdjudicationTip, Some(index.tip), multiset(sealed), text);
      raised := WriteTipIndex(record, Adjudication, index.chain);
      Put(OtherFile("adjudication"));
    }

    method ReleaseVault()
      requires Valid()
      modifies this
      ensures Valid() && trace == old(trace) + VaultRelease(old(disk))
      ensures SameInputs(old(disk), disk) && disk.adjudications == old(disk).adjudications
    {
      if disk.core.released {
        Put(Audited("release_idempotent"));
      } else {
        Put(CoreFile(MarkReleased));
        Put(OtherFile("records"));
        Put(Audited("release"));
      }
    }

    /** Copies the adjudicated units with their labels. */
    method CopyLabels(order: seq<string>) returns (commitments: seq<string>)
      requires Valid()
      modifies this
      ensures Valid() && trace == old(trace) + AnalysisWrites(old(disk), order)
      ensures commitments == Materialized(old(disk), order) && SameInputs(old(disk), disk)
    {
      ghost var d, before := disk, trace;
      commitments := [];
      for i := 0 to |order|
        invariant Valid() && SameInputs(d, disk) && disk.adjudications == d.adjudications
        invariant trace == before + AnalysisWrites(d, order[..i])
        invariant commitments == Materialized(d, order[..i])
      {
        AnalysisNext(d, order, i);
        if Copied(disk, order[i]) {
          var side := disk.adjudications[order[i]];
          Put(AnalysisFile(side));
          commitments := commitments + [side.commitment];
        }
      }
      assert order[..|order|] == order;
    }

    method ReleaseLabels(order: seq<string>, text: string) returns (raised: Option<Failure>)
      requires Valid()
      modifies this
      ensures Valid() && trace == old(trace) + ReleasePlan(cfg, old(disk), order, text).writes
      ensures raised == ReleasePlan(cfg, old(disk), order, text).raised
    {
      if disk.core.manifest.None? {
        return Some(NoManifest);
      }
      var index := disk.core.manifest.value;
      if !CanTransition(index.lifecycle, LabelRelease) {
        return Some(IllegalTransition);
      }
      if disk.core.lock.Some? && disk.core.lock.value != cfg.tree(disk.workUnits) {
        return Some(AttackPlaneChanged);
      }
      if !disk.core.frozen {
        return Some(NotFrozen);
      }
      ghost var d := disk;
      var commitments := StartRelease(order);
      var record := TipRecord(ReleaseTip, Some(index.tip), multiset(commitments), text);
      raised := WriteTipIndex(record, LabelRelease, index.chain);
      FinishRelease();
      ghost var tip := TipWrites(cfg, record, LabelRelease, index.chain);
      ghost var last := [OtherFile("release")] + if d.core.sealed then [CoreFile(Receipt)] else [];
      ReleaseLayout(cfg, d, order, text);
      Reassociate(old(trace), VaultRelease(d) + AnalysisWrites(d, order), tip, last);
    }

    /** The marker and the analysis copies. */
    method StartRelease(order: seq<string>) returns (commitments: seq<string>)
      requires Valid()
      modifies this
      ensures Valid() && trace == old(trace) + (VaultRelease(old(disk)) + AnalysisWrites(old(disk), order))
      ensures commitments == Materialized(old(disk), order) && SameInputs(old(disk), disk)
    {
      ghost var d := disk;
      ReleaseVault();
      AnalysisReads(d, disk, order);
      commitments := CopyLabels(order);
    }

    method FinishRelease()
      requires Valid()
      modifies this
      ensures Valid()
      ensures trace == old(trace) + ([OtherFile("release")] + if old(disk).core.sealed then [CoreFile(Receipt)] else [])
    {
      Put(OtherFile("release"));
      if disk.core.sealed {
        Put(CoreFile(Receipt));
      }
    }
  }

  lemma Reassociated<T>(t: seq<T>, x: T, a: seq<T>)
    ensures t + [x] + a == t + ([x] + a)
  {
  }

  lemma Reassociate<T>(t: seq<T>, a: seq<T>, c: seq<T>, e: seq<T>)
    ensures t + a + c + e == t + (a + c + e)
  {
  }

  lemma ReleaseLayout(cfg: Config, d: Disk, order: seq<string>, text: string)
    requires ReleasePlan(cfg, d, order, text).raised.None?
    ensures var index := d.core.manifest.value;
      var record := TipRecord(ReleaseTip, Some(index.tip), multiset(Materialized(d, order)), text);
      ReleasePlan(cfg, d, order, text).writes ==
        VaultRelease(d) + AnalysisWrites(d, order) + TipWrites(cfg, record, LabelRelease, index.chain) +
        ([OtherFile("release")] + if d.core.sealed then [CoreFile(Receipt)] else [])
  {
  }

  lemma {:induction false} AnalysisReads(d: Disk, e: Disk, order: seq<string>)
    requires d.adjudications == e.adjudications && d.workUnits == e.workUnits
    ensures AnalysisWrites(e, order) == AnalysisWrites(d, order) && Materialized(e, order) == Materialized(d, order)
    decreases |order|
  {
    if order != [] {
      AnalysisReads(d, e, order[1..]);
    }
  }
}
