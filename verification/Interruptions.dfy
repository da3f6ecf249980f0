/**
 What a crash in the middle of one operation leaves behind: an adjudication that is run
 again seals the same commitments exactly when every unit brings its own nonce, and a
 freeze is lost for good exactly when it stops between its manifest and its seal.
 */
module Interruptions {
  import opened Prelude
  import opened HashChain
  import opened RunProtocol
  import opened RunLaws
  import opened RunTheorems

  // ---------------------------------------------------------------- nonces

  /** Every unit that will be adjudicated has a nonce of its own, or at least an id. */
  predicate Salted(d: Disk, order: seq<string>) {
    forall name :: name in order && Adjudicable(d, name) ==> NonceText(d.workUnits[name]) != ""
  }

  lemma SaltedTail(d: Disk, order: seq<string>)
    requires order != []
    ensures Salted(d, order) <==>
      (Adjudicable(d, order[0]) ==> NonceText(d.workUnits[order[0]]) != "") && Salted(d, order[1..])
  {
    assert order == [order[0]] + order[1..];
  }

  /** The MAC tells nonces apart. */
  ghost predicate SeparatesNonces(cfg: Config) {
    forall t, v, m, n :: cfg.mac(t, m, v) == cfg.mac(t, n, v) ==> m == n
  }

  /** Two adjudications of the same units, with different random draws, seal the same
      commitments exactly when no unit needs a random nonce. */
  lemma {:induction false} SameSealsExactly(cfg: Config, d: Disk, order: seq<string>, r: string -> string, s: string -> string)
    requires SeparatesNonces(cfg) && forall name :: name in order ==> r(name) != s(name)
    ensures Sealed(cfg, d, order, r) == Sealed(cfg, d, order, s) <==> Salted(d, order)
    decreases |order|
  {
    if order != [] {
      SaltedTail(d, order);
      assert order[0] in order;
      SameSealsExactly(cfg, d, order[1..], r, s);
      if Adjudicable(d, order[0]) {
        var x := CommitmentOf(cfg, d.workUnits[order[0]], r(order[0]));
        var y := CommitmentOf(cfg, d.workUnits[order[0]], s(order[0]));
        ConsEqual(x, Sealed(cfg, d, order[1..], r), y, Sealed(cfg, d, order[1..], s));
      } else {
        assert [] + Sealed(cfg, d, order[1..], r) == Sealed(cfg, d, order[1..], r);
        assert [] + Sealed(cfg, d, order[1..], s) == Sealed(cfg, d, order[1..], s);
      }
    }
  }

  lemma ConsEqual<T>(x: T, xs: seq<T>, y: T, ys: seq<T>)
    ensures [x] + xs == [y] + ys <==> x == y && xs == ys
  {
    if [x] + xs == [y] + ys {
      assert ([x] + xs)[0] == ([y] + ys)[0];
      assert ([x] + xs)[1..] == xs && ([y] + ys)[1..] == ys;
    }
  }

  /** With nonces of their own, neither the draws nor anything but the work units matter. */
  lemma {:induction false} SaltedSealsSame(cfg: Config, d: Disk, e: Disk, order: seq<string>, r: string -> string, s: string -> string)
    requires d.workUnits == e.workUnits && Salted(d, order)
    ensures SealUnits(cfg, d, order, r) == SealUnits(cfg, e, order, s)
    ensures Sealed(cfg, d, order, r) == Sealed(cfg, e, order, s)
    decreases |order|
  {
    if order != [] {
      SaltedTail(d, order);
      SaltedSealsSame(cfg, d, e, order[1..], r, s);
    }
  }

  // ---------------------------------------------------------------- running the same writes again

  ghost predicate SameAt<V>(m: map<string, V>, n: map<string, V>, k: string) {
    (k in m <==> k in n) && (k in m && k in n ==> m[k] == n[k])
  }

  ghost predicate Commits(ws: seq<Write>, k: string) {
    exists w :: w in ws && w.CommitFile? && w.commitment == k
  }

  ghost predicate Labels(ws: seq<Write>, k: string) {
    exists w :: w in ws && w.LabelFile? && w.commitment == k
  }

  ghost predicate Sides(ws: seq<Write>, k: string) {
    exists w :: w in ws && w.AdjudicationFile? && w.side.unitId == k
  }

  /** Two disks differ, in what adjudication writes, only where the writes to come will
      make them equal. */
  ghost predicate AgreeBut(d: Disk, e: Disk, ws: seq<Write>) {
    && (forall k :: !Commits(ws, k) ==> SameAt(d.commitments, e.commitments, k))
    && (forall k :: !Labels(ws, k) ==> SameAt(d.labels, e.labels, k))
    && (forall k :: !Sides(ws, k) ==> SameAt(d.adjudications, e.adjudications, k))
  }

  lemma WrittenByFirst(ws: seq<Write>, k: string)
    requires ws != []
    ensures Commits(ws, k) <==> Commits(ws[1..], k) || (ws[0].CommitFile? && ws[0].commitment == k)
    ensures Labels(ws, k) <==> Labels(ws[1..], k) || (ws[0].LabelFile? && ws[0].commitment == k)
    ensures Sides(ws, k) <==> Sides(ws[1..], k) || (ws[0].AdjudicationFile? && ws[0].side.unitId == k)
  {
    assert forall w :: w in ws <==> w == ws[0] || w in ws[1..];
  }

  lemma CommitStep(cfg: Config, d: Disk, e: Disk, w: Write, k: string)
    requires (w.CommitFile? && w.commitment == k) || SameAt(d.commitments, e.commitments, k)
    ensures SameAt(Apply(cfg, d, w).commitments, Apply(cfg, e, w).commitments, k)
  {
  }

  lemma LabelStep(cfg: Config, d: Disk, e: Disk, w: Write, k: string)
    requires (w.LabelFile? && w.commitment == k) || SameAt(d.labels, e.labels, k)
    ensures SameAt(Apply(cfg, d, w).labels, Apply(cfg, e, w).labels, k)
  {
  }

  lemma SideStep(cfg: Config, d: Disk, e: Disk, w: Write, k: string)
    requires (w.AdjudicationFile? && w.side.unitId == k) || SameAt(d.adjudications, e.adjudications, k)
    ensures SameAt(Apply(cfg, d, w).adjudications, Apply(cfg, e, w).adjudications, k)
  {
  }

  lemma AgreeStep(cfg: Config, d: Disk, e: Disk, ws: seq<Write>)
    requires ws != [] && AgreeBut(d, e, ws)
    ensures AgreeBut(Apply(cfg, d, ws[0]), Apply(cfg, e, ws[0]), ws[1..])
  {
    forall k | !Commits(ws[1..], k)
      ensures SameAt(Apply(cfg, d, ws[0]).commitments, Apply(cfg, e, ws[0]).commitments, k)
    {
      WrittenByFirst(ws, k);
      CommitStep(cfg, d, e, ws[0], k);
    }
    forall k | !Labels(ws[1..], k)
      ensures SameAt(Apply(cfg, d, ws[0]).labels, Apply(cfg, e, ws[0]).labels, k)
    {
      WrittenByFirst(ws, k);
      LabelStep(cfg, d, e, ws[0], k);
    }
    forall k | !Sides(ws[1..], k)
      ensures SameAt(Apply(cfg, d, ws[0]).adjudications, Apply(cfg, e, ws[0]).adjudications, k)
    {
      WrittenByFirst(ws, k);
      SideStep(cfg, d, e, ws[0], k);
    }
  }

  lemma {:induction false} AgreeInTheEnd(cfg: Config, d: Disk, e: Disk, ws: seq<Write>)
    requires AgreeBut(d, e, ws)
    ensures AgreeBut(ApplyAll(cfg, d, ws), ApplyAll(cfg, e, ws), [])
    decreases |ws|
  {
    if ws != [] {
      AgreeStep(cfg, d, e, ws);
      AgreeInTheEnd(cfg, Apply(cfg, d, ws[0]), Apply(cfg, e, ws[0]), ws[1..]);
    }
  }

  lemma AgreeTransitive(a: Disk, c: Disk, e: Disk, ws: seq<Write>)
    requires AgreeBut(a, c, ws) && AgreeBut(c, e, ws)
    ensures AgreeBut(a, e, ws)
  {
  }

  lemma OneWriteAgrees(cfg: Config, d: Disk, w: Write, ws: seq<Write>)
    requires w in ws
    ensures AgreeBut(d, Apply(cfg, d, w), ws)
  {
  }

  /** Some of the writes done already is nothing the rest will not undo. */
  lemma {:induction false} PartAgrees(cfg: Config, d: Disk, part: seq<Write>, ws: seq<Write>)
    requires forall w :: w in part ==> w in ws
    ensures AgreeBut(d, ApplyAll(cfg, d, part), ws)
    decreases |part|
  {
    if part != [] {
      assert part[0] in part;
      OneWriteAgrees(cfg, d, part[0], ws);
      PartAgrees(cfg, Apply(cfg, d, part[0]), part[1..], ws);
      AgreeTransitive(d, Apply(cfg, d, part[0]), ApplyAll(cfg, d, part), ws);
    }
  }

  lemma SameEverywhere<V>(m: map<string, V>, n: map<string, V>)
    requires forall k :: SameAt(m, n, k)
    ensures m == n
  {
    assert forall k :: SameAt(m, n, k) ==> (k in m <==> k in n);
    forall k | k in m
      ensures k in n && m[k] == n[k]
    {
      assert SameAt(m, n, k);
    }
    forall k | k in n
      ensures k in m
    {
      assert SameAt(m, n, k);
    }
  }

  lemma AgreeIsEqual(d: Disk, e: Disk)
    requires AgreeBut(d, e, [])
    ensures d.commitments == e.commitments && d.labels == e.labels && d.adjudications == e.adjudications
  {
    assert forall k :: !Commits([], k) && !Labels([], k) && !Sides([], k);
    SameEverywhere(d.commitments, e.commitments);
    SameEverywhere(d.labels, e.labels);
    SameEverywhere(d.adjudications, e.adjudications);
  }

  lemma OneKeepsInputs(cfg: Config, d: Disk, w: Write)
    ensures !w.WorkUnit? ==> Apply(cfg, d, w).workUnits == d.workUnits
    ensures !w.FreezeFile? ==> Apply(cfg, d, w).freezeFile == d.freezeFile
  {
  }

  lemma {:induction false} NoUnitsChange(cfg: Config, d: Disk, ws: seq<Write>)
    requires forall w :: w in ws ==> !w.WorkUnit?
    ensures ApplyAll(cfg, d, ws).workUnits == d.workUnits
    decreases |ws|
  {
    if ws != [] {
      assert ws[0] in ws && forall w :: w in ws[1..] ==> w in ws;
      OneKeepsInputs(cfg, d, ws[0]);
      NoUnitsChange(cfg, Apply(cfg, d, ws[0]), ws[1..]);
    }
  }

  lemma {:induction false} SealingWritesNoUnits(cfg: Config, d: Disk, order: seq<string>, r: string -> string)
    ensures forall w :: w in SealUnits(cfg, d, order, r) ==> !w.WorkUnit?
    decreases |order|
  {
    if order != [] {
      SealingWritesNoUnits(cfg, d, order[1..], r);
    }
  }

  ghost predicate SameVault(d: Disk, e: Disk) {
    d.commitments == e.commitments && d.labels == e.labels && d.adjudications == e.adjudications
  }

  /** Cut in the sealing loop and run again with other random draws. */
  lemma LoopCutSealsTheSame(cfg: Config, d: Disk, order: seq<string>, r: string -> string, s: string -> string, n: nat)
    requires Salted(d, order) && n <= |SealUnits(cfg, d, order, r)|
    ensures var whole := SealUnits(cfg, d, order, r);
      var crashed := ApplyAll(cfg, d, whole[..n]);
      var again := ApplyAll(cfg, crashed, SealUnits(cfg, crashed, order, s));
      && Sealed(cfg, crashed, order, s) == Sealed(cfg, d, order, r) && SameVault(again, ApplyAll(cfg, d, whole))
  {
    var whole := SealUnits(cfg, d, order, r);
    var crashed := ApplyAll(cfg, d, whole[..n]);
    SealingWritesNoUnits(cfg, d, order, r);
    SealUnitsQuiet(cfg, d, order, r);
    assert forall w :: w in whole[..n] ==> w in whole;
    NoUnitsChange(cfg, d, whole[..n]);
    SaltedSealsSame(cfg, d, crashed, order, r, s);
    PartAgrees(cfg, d, whole[..n], whole);
    AgreeInTheEnd(cfg, d, crashed, whole);
    AgreeIsEqual(ApplyAll(cfg, d, whole), ApplyAll(cfg, crashed, whole));
  }

  // ---------------------------------------------------------------- the end of an adjudication

  /** What an adjudication writes after its loop. */
  function Closing(cfg: Config, d: Disk, order: seq<string>, r: string -> string, text: string): seq<Write>
    requires d.core.manifest.Some?
  {
    var index := d.core.manifest.value;
    TipWrites(cfg, TipRecord(AdjudicationTip, Some(index.tip), multiset(Sealed(cfg, d, order, r)), text), Adjudication, index.chain) +
    [OtherFile("adjudication")]
  }

  lemma {:induction false} OthersDoNothing(cfg: Config, d: Disk, ws: seq<Write>)
    requires forall w :: w in ws ==> w.OtherFile?
    ensures ApplyAll(cfg, d, ws) == d
    decreases |ws|
  {
    if ws != [] {
      assert ws[0] in ws && forall w :: w in ws[1..] ==> w in ws;
      OthersDoNothing(cfg, d, ws[1..]);
    }
  }

  lemma TipWritten(cfg: Config, e: Disk, record: TipRecord, index: Index)
    ensures var f := Apply(cfg, Apply(cfg, e, CoreFile(PutTip(record))), CoreFile(Manifest(index)));
      && f == e.(core := f.core) && f.core.frozen == e.core.frozen && f.core.released == e.core.released
      && f.core.manifest == Some(index)
  {
  }

  lemma CutTip(cfg: Config, e: Disk, record: TipRecord, index: Index, ws: seq<Write>)
    requires |ws| >= 2 && ws[0] == CoreFile(PutTip(record)) && ws[1] == CoreFile(Manifest(index))
    requires forall w :: w in ws[2..] ==> w.OtherFile?
    ensures ApplyAll(cfg, e, ws) == Apply(cfg, Apply(cfg, e, CoreFile(PutTip(record))), CoreFile(Manifest(index)))
  {
    assert ws == [ws[0], ws[1]] + ws[2..];
    TwoWrites(cfg, e, ws[0], ws[1]);
    ApplyConcat(cfg, e, [ws[0], ws[1]], ws[2..]);
    OthersDoNothing(cfg, ApplyAll(cfg, e, [ws[0], ws[1]]), ws[2..]);
  }

  lemma CutAfterTip(cfg: Config, e: Disk, record: TipRecord, index: Index, ws: seq<Write>, k: nat)
    requires |ws| >= 2 && ws[0] == CoreFile(PutTip(record)) && ws[1] == CoreFile(Manifest(index)) && k > 1
    requires forall w :: w in ws[2..] ==> w.OtherFile?
    ensures var f := ApplyAll(cfg, e, FirstN(ws, k));
      && f == e.(core := f.core) && f.core.frozen == e.core.frozen && f.core.released == e.core.released
      && f.core.manifest == Some(index)
  {
    var part := FirstN(ws, k);
    assert forall w :: w in part[2..] ==> w in ws[2..];
    CutTip(cfg, e, record, index, part);
    TipWritten(cfg, e, record, index);
  }

  /** Cut after k of its closing writes, an adjudication has changed the core only, and
      from its second closing write on the run is adjudicated. */
  lemma CutClosing(cfg: Config, d: Disk, order: seq<string>, r: string -> string, text: string, e: Disk, k: nat)
    requires d.core.manifest.Some?
    ensures var f := ApplyAll(cfg, e, FirstN(Closing(cfg, d, order, r, text), k));
      && f == e.(core := f.core) && f.core.frozen == e.core.frozen && f.core.released == e.core.released
      && (k <= 1 ==> f.core.manifest == e.core.manifest)
      && (k > 1 ==> f.core.manifest.Some? && f.core.manifest.value.lifecycle == Adjudication)
  {
    var c := Closing(cfg, d, order, r, text);
    if k == 1 {
      assert FirstN(c, k) == [c[0]];
      OneWrite(cfg, e, c[0]);
    } else if k > 1 {
      CutAfterTip(cfg, e, c[0].write.tip, c[1].write.index, c, k);
    }
  }

  /** An adjudication cut after n writes: the cut loop, then the cut closing. */
  lemma CutAdjudication(cfg: Config, d: Disk, order: seq<string>, r: string -> string, text: string, n: nat)
    requires AdjudicatePlan(cfg, d, order, r, text).raised.None?
    ensures var loop := SealUnits(cfg, d, order, r);
      Perform(cfg, d, Attempt(AdjudicateRun(order, r, text), n)) ==
        if n <= |loop| then ApplyAll(cfg, d, loop[..n])
        else ApplyAll(cfg, ApplyAll(cfg, d, loop), FirstN(Closing(cfg, d, order, r, text), n - |loop|))
  {
    var loop, c := SealUnits(cfg, d, order, r), Closing(cfg, d, order, r, text);
    assert AdjudicatePlan(cfg, d, order, r, text).writes == loop + c;
    FirstNOfTwo(loop, c, n);
    if n <= |loop| {
      assert FirstN(loop, n) == loop[..n];
    } else {
      ApplyConcat(cfg, d, loop, FirstN(c, n - |loop|));
    }
  }

  lemma LoopKeeps(cfg: Config, d: Disk, order: seq<string>, r: string -> string, n: nat)
    requires n <= |SealUnits(cfg, d, order, r)|
    ensures var e := ApplyAll(cfg, d, SealUnits(cfg, d, order, r)[..n]);
      e.core == d.core && e.workUnits == d.workUnits
  {
    var loop := SealUnits(cfg, d, order, r);
    SealUnitsQuiet(cfg, d, order, r);
    SealingWritesNoUnits(cfg, d, order, r);
    assert forall w :: w in loop[..n] ==> w in loop;
    QuietKeepsCore(cfg, d, loop[..n]);
    NoUnitsChange(cfg, d, loop[..n]);
  }

  /** Run to the end, an adjudication leaves what its loop seals. */
  lemma WholeAdjudication(cfg: Config, d: Disk, order: seq<string>, r: string -> string, text: string, n: nat)
    requires AdjudicatePlan(cfg, d, order, r, text).raised.None? && n >= |SealUnits(cfg, d, order, r)|
    ensures SameVault(Perform(cfg, d, Attempt(AdjudicateRun(order, r, text), n)), ApplyAll(cfg, d, SealUnits(cfg, d, order, r)))
  {
    var loop := SealUnits(cfg, d, order, r);
    CutAdjudication(cfg, d, order, r, text, n);
    assert loop[..|loop|] == loop;
    if n > |loop| {
      CutClosing(cfg, d, order, r, text, ApplyAll(cfg, d, loop), n - |loop|);
    }
  }

  /** The same vault, and the same writes to come. */
  lemma SameVaultStays(cfg: Config, d: Disk, e: Disk, ws: seq<Write>)
    requires SameVault(d, e)
    ensures SameVault(ApplyAll(cfg, d, ws), ApplyAll(cfg, e, ws))
  {
    AgreeInTheEnd(cfg, d, e, ws);
    AgreeIsEqual(ApplyAll(cfg, d, ws), ApplyAll(cfg, e, ws));
  }

  function Writes(cfg: Config, d: Disk, op: Op): nat {
    |Plan(cfg, d, op).writes|
  }

  /** Cut before its manifest: it may run again, and ends as if it had not been cut. */
  lemma EarlyCutRunsAgain(
      cfg: Config, d: Disk, order: seq<string>, r: string -> string, s: string -> string, t: string, u: string, n: nat)
    requires Salted(d, order) && AdjudicatePlan(cfg, d, order, r, t).raised.None? && n <= |SealUnits(cfg, d, order, r)| + 1
    ensures var crashed := Perform(cfg, d, Attempt(AdjudicateRun(order, r, t), n));
      var again := AdjudicateRun(order, s, u);
      && Plan(cfg, crashed, again).raised.None? && Sealed(cfg, crashed, order, s) == Sealed(cfg, d, order, r)
      && SameVault(Perform(cfg, crashed, Attempt(again, Writes(cfg, crashed, again))),
                   ApplyAll(cfg, d, SealUnits(cfg, d, order, r)))
  {
    var loop := SealUnits(cfg, d, order, r);
    var k := if n <= |loop| then n else |loop|;
    var base := ApplyAll(cfg, d, loop[..k]);
    var crashed := Perform(cfg, d, Attempt(AdjudicateRun(order, r, t), n));
    CutAdjudication(cfg, d, order, r, t, n);
    LoopKeeps(cfg, d, order, r, k);
    LoopCutSealsTheSame(cfg, d, order, r, s, k);
    if n > |loop| {
      assert loop[..k] == loop;
      CutClosing(cfg, d, order, r, t, base, 1);
    }
    assert crashed.workUnits == base.workUnits && SameVault(base, crashed);
    assert crashed.core.manifest == d.core.manifest && crashed.freezeFile == base.freezeFile;
    LoopKeepsFreezeFile(cfg, d, order, r, k);
    SaltedSealsSame(cfg, d, crashed, order, r, s);
    SaltedSealsSame(cfg, d, base, order, r, s);
    SameVaultStays(cfg, base, crashed, SealUnits(cfg, crashed, order, s));
    WholeAdjudication(cfg, crashed, order, s, u, Writes(cfg, crashed, AdjudicateRun(order, s, u)));
  }

  lemma LoopKeepsFreezeFile(cfg: Config, d: Disk, order: seq<string>, r: string -> string, n: nat)
    requires n <= |SealUnits(cfg, d, order, r)|
    ensures ApplyAll(cfg, d, SealUnits(cfg, d, order, r)[..n]).freezeFile == d.freezeFile
  {
    var loop := SealUnits(cfg, d, order, r);
    SealingWritesNoFreeze(cfg, d, order, r);
    assert forall w :: w in loop[..n] ==> w in loop;
    NoFreezeFile(cfg, d, loop[..n]);
  }

  lemma {:induction false} SealingWritesNoFreeze(cfg: Config, d: Disk, order: seq<string>, r: string -> string)
    ensures forall w :: w in SealUnits(cfg, d, order, r) ==> !w.FreezeFile?
    decreases |order|
  {
    if order != [] {
      SealingWritesNoFreeze(cfg, d, order[1..], r);
    }
  }

  lemma {:induction false} NoFreezeFile(cfg: Config, d: Disk, ws: seq<Write>)
    requires forall w :: w in ws ==> !w.FreezeFile?
    ensures ApplyAll(cfg, d, ws).freezeFile == d.freezeFile
    decreases |ws|
  {
    if ws != [] {
      assert ws[0] in ws && forall w :: w in ws[1..] ==> w in ws;
      OneKeepsInputs(cfg, d, ws[0]);
      NoFreezeFile(cfg, Apply(cfg, d, ws[0]), ws[1..]);
    }
  }

  /** Cut from its manifest on: it is refused, and has sealed everything already. */
  lemma LateCutIsRefused(
      cfg: Config, d: Disk, order: seq<string>, r: string -> string, s: string -> string, t: string, u: string, n: nat)
    requires AdjudicatePlan(cfg, d, order, r, t).raised.None? && n > |SealUnits(cfg, d, order, r)| + 1
    ensures var crashed := Perform(cfg, d, Attempt(AdjudicateRun(order, r, t), n));
      && Plan(cfg, crashed, AdjudicateRun(order, s, u)) == Planned([], Some(IllegalTransition))
      && SameVault(crashed, ApplyAll(cfg, d, SealUnits(cfg, d, order, r)))
  {
    var loop := SealUnits(cfg, d, order, r);
    WholeAdjudication(cfg, d, order, r, t, n);
    CutAdjudication(cfg, d, order, r, t, n);
    CutClosing(cfg, d, order, r, t, ApplyAll(cfg, d, loop), n - |loop|);
  }

  /** An adjudication cut after any n writes and run again with other random draws. Up to
      the stored tip it seals the same commitments and leaves the same vault and side
      files as if it had not been cut; from its manifest on it is refused, and what the
      whole run would have sealed is already there. */
  lemma CrashedAdjudicationSealsTheSame(
      cfg: Config, d: Disk, order: seq<string>, r: string -> string, s: string -> string, t: string, u: string, n: nat)
    requires Salted(d, order) && AdjudicatePlan(cfg, d, order, r, t).raised.None?
    ensures var crashed := Perform(cfg, d, Attempt(AdjudicateRun(order, r, t), n));
      var again := AdjudicateRun(order, s, u);
      var end := Perform(cfg, crashed, Attempt(again, Writes(cfg, crashed, again)));
      && SameVault(end, Perform(cfg, d, Attempt(AdjudicateRun(order, r, t), Writes(cfg, d, AdjudicateRun(order, r, t)))))
      && (if n <= |SealUnits(cfg, d, order, r)| + 1
          then Plan(cfg, crashed, again).raised.None? && Sealed(cfg, crashed, order, s) == Sealed(cfg, d, order, r)
          else Plan(cfg, crashed, again) == Planned([], Some(IllegalTransition)))
  {
    var loop := SealUnits(cfg, d, order, r);
    WholeAdjudication(cfg, d, order, r, t, Writes(cfg, d, AdjudicateRun(order, r, t)));
    if n <= |loop| + 1 {
      EarlyCutRunsAgain(cfg, d, order, r, s, t, u, n);
    } else {
      LateCutIsRefused(cfg, d, order, r, s, t, u, n);
    }
  }

  // ---------------------------------------------------------------- the window of a freeze

  lemma SealedByOne(cfg: Config, d: Disk, w: Write)
    ensures Apply(cfg, d, w).core.sealed <==> d.core.sealed || w == CoreFile(SealedRun)
  {
  }

  lemma {:induction false} SealedByPrefix(cfg: Config, d: Disk, ws: seq<Write>)
    ensures ApplyAll(cfg, d, ws).core.sealed <==> d.core.sealed || CoreFile(SealedRun) in ws
    decreases |ws|
  {
    if ws != [] {
      SealedByOne(cfg, d, ws[0]);
      SealedByPrefix(cfg, Apply(cfg, d, ws[0]), ws[1..]);
      InTail(ws, CoreFile(SealedRun));
    }
  }

  lemma InTail<T>(ws: seq<T>, w: T)
    requires ws != []
    ensures w in ws <==> w == ws[0] || w in ws[1..]
  {
  }

  ghost predicate OnlyManifest(ws: seq<Write>, index: Index) {
    forall w :: w in ws && w.CoreFile? && w.write.Manifest? ==> w.write.index == index
  }

  lemma ManifestByOne(cfg: Config, d: Disk, w: Write, index: Index)
    requires w.CoreFile? && w.write.Manifest? ==> w.write.index == index
    ensures Apply(cfg, d, w).core.manifest == if w == CoreFile(Manifest(index)) then Some(index) else d.core.manifest
  {
  }

  lemma {:induction false} ManifestByPrefix(cfg: Config, d: Disk, ws: seq<Write>, index: Index)
    requires OnlyManifest(ws, index)
    ensures ApplyAll(cfg, d, ws).core.manifest ==
            if CoreFile(Manifest(index)) in ws then Some(index) else d.core.manifest
    decreases |ws|
  {
    if ws != [] {
      assert ws[0] in ws;
      ManifestByOne(cfg, d, ws[0], index);
      OnlyManifestTail(ws, index);
      ManifestByPrefix(cfg, Apply(cfg, d, ws[0]), ws[1..], index);
      InTail(ws, CoreFile(Manifest(index)));
    }
  }

  lemma OnlyManifestTail(ws: seq<Write>, index: Index)
    requires ws != [] && OnlyManifest(ws, index)
    ensures OnlyManifest(ws[1..], index)
  {
    assert forall w :: w in ws[1..] ==> w in ws;
  }

  lemma InPrefix<T>(ws: seq<T>, i: nat, n: nat)
    requires i < |ws| && n <= |ws| && forall j :: 0 <= j < |ws| && j != i ==> ws[j] != ws[i]
    ensures ws[i] in ws[..n] <==> i < n
  {
    if i < n {
      assert ws[..n][i] == ws[i];
    }
  }

  /** Where in a freeze's writes the manifest and the seal stand. */
  lemma FreezeLayout(cfg: Config, d: Disk, record: TipRecord, chain: seq<Digest>)
    ensures var v := |VaultFreeze(d)|;
      var ws := VaultFreeze(d) + TipWrites(cfg, record, Freeze, chain) + SealWrites(cfg, d);
      var next := Index(Freeze, cfg.digest(record), record.kind, ChainWith(chain, cfg.digest(record)));
      && |ws| == v + 8
      && (forall j :: 0 <= j < |ws| ==> (ws[j] == CoreFile(SealedRun) <==> j == v + 6))
      && (forall j :: 0 <= j < |ws| ==> (ws[j] == CoreFile(Manifest(next)) <==> j == v + 1))
      && OnlyManifest(ws, next)
  {
    var v := |VaultFreeze(d)|;
    var ws := VaultFreeze(d) + TipWrites(cfg, record, Freeze, chain) + SealWrites(cfg, d);
    assert forall j :: 0 <= j < v ==> ws[j] == VaultFreeze(d)[j];
    assert forall j :: 0 <= j < 3 ==> ws[v + j] == TipWrites(cfg, record, Freeze, chain)[j];
    assert forall j :: 0 <= j < 5 ==> ws[v + 3 + j] == SealWrites(cfg, d)[j];
  }

  /** A freeze of an attacked run, stopped after n writes, is stranded exactly between the
      write of its manifest and the write of its seal. */
  lemma FreezeLostExactly(cfg: Config, d: Disk, text: string, n: nat)
    requires d.core.manifest.Some? && d.core.manifest.value.lifecycle == Attack && !d.core.sealed
    ensures var v := |VaultFreeze(d)|;
      Stranded(Perform(cfg, d, Attempt(FreezeRun(text), n))) <==> v + 2 <= n < v + 7
  {
    var v := |VaultFreeze(d)|;
    var index := d.core.manifest.value;
    var record := TipRecord(FreezeTip, Some(index.tip), multiset(d.commitments.Keys), text);
    var next := Index(Freeze, cfg.digest(record), FreezeTip, ChainWith(index.chain, cfg.digest(record)));
    var ws := FreezePlan(cfg, d, text).writes;
    FreezeLayout(cfg, d, record, index.chain);
    FreezePrefix(cfg, d, ws, next, v, n);
  }

  lemma FreezePrefix(cfg: Config, d: Disk, ws: seq<Write>, next: Index, v: nat, n: nat)
    requires |ws| == v + 8 && OnlyManifest(ws, next) && next.lifecycle == Freeze
    requires forall j :: 0 <= j < |ws| ==> (ws[j] == CoreFile(SealedRun) <==> j == v + 6)
    requires forall j :: 0 <= j < |ws| ==> (ws[j] == CoreFile(Manifest(next)) <==> j == v + 1)
    requires CoreRank(d.core) < Rank(Freeze) && !d.core.sealed
    ensures Stranded(ApplyAll(cfg, d, FirstN(ws, n))) <==> v + 2 <= n < v + 7
  {
    var part := FirstN(ws, n);
    assert part == ws[..|part|];
    assert forall w :: w in part ==> w in ws;
    ManifestByPrefix(cfg, d, part, next);
    SealedByPrefix(cfg, d, part);
    InPrefix(ws, v + 1, |part|);
    InPrefix(ws, v + 6, |part|);
  }
}
