/**
 What the ledger keeps over every sequence of calls: its log always explains its
 counters, the disk mirrors it, nothing is refunded, merges add up whatever the
 batching, and STOP stops.
 */
module LedgerLaws {
  import opened Prelude
  import opened Ledger

  datatype Op =
    | AddOp(d: Dimension, amount: real)
    | MergeOp(batch: seq<Event>, release: Option<int>)
    | ReserveOp(requested: int, pendingWorkers: int)
    | ReleaseOp(n: int)
    | RecordOp(e: Event)

  function Apply(b: Budget, s: State, op: Op): Outcome {
    match op
    case AddOp(d, amount) => AddOutcome(b, s, d, amount)
    case MergeOp(batch, release) => MergeOutcome(b, s, batch, release)
    case ReserveOp(requested, pendingWorkers) => ReserveOutcome(b, s, requested, pendingWorkers)
    case ReleaseOp(n) => ReleaseOutcome(s, n)
    case RecordOp(e) => RecordOutcome(s, e)
  }

  /** A run of calls; a call that raises is caught by its caller and the run goes on. */
  function Run(b: Budget, s: State, ops: seq<Op>): Outcome {
    if ops == [] then Outcome(s, [], None)
    else
      var before := Run(b, s, ops[..|ops| - 1]);
      var last := Apply(b, before.after, ops[|ops| - 1]);
      Outcome(last.after, before.writes + last.writes, last.raised)
  }

  // ---------------------------------------------------------------- totals

  lemma TotalAppend(a: seq<Event>, e: Event, d: Dimension)
    ensures Total(a + [e], d) == Total(a, d) + Weight(e, d)
  {
    assert (a + [e])[..|a|] == a;
  }

  lemma {:induction false} TotalConcat(a: seq<Event>, c: seq<Event>, d: Dimension)
    ensures Total(a + c, d) == Total(a, d) + Total(c, d)
  {
    if c == [] {
      assert a + c == a;
    } else {
      var front, last := c[..|c| - 1], c[|c| - 1];
      assert a + c == (a + front) + [last];
      TotalAppend(a + front, last, d);
      TotalConcat(a, front, d);
    }
  }

  lemma TotalWithout(c: seq<Event>, i: nat, d: Dimension)
    requires i < |c|
    ensures Total(c, d) == Total(c[..i] + c[i + 1..], d) + Weight(c[i], d)
  {
    assert c == (c[..i] + [c[i]]) + c[i + 1..];
    TotalConcat(c[..i] + [c[i]], c[i + 1..], d);
    TotalAppend(c[..i], c[i], d);
    TotalConcat(c[..i], c[i + 1..], d);
  }

  lemma MultisetWithout<T>(c: seq<T>, i: nat)
    requires i < |c|
    ensures multiset(c[..i] + c[i + 1..]) == multiset(c) - multiset{c[i]}
  {
    assert c == c[..i] + ([c[i]] + c[i + 1..]);
  }

  /** A total does not see the order of the events. */
  lemma {:induction false} TotalPermutation(a: seq<Event>, c: seq<Event>, d: Dimension)
    requires multiset(a) == multiset(c)
    ensures Total(a, d) == Total(c, d)
  {
    if a == [] {
      assert |c| == |multiset(c)| == |multiset(a)| == 0;
    } else {
      var n := |a| - 1;
      assert a[n] in multiset(c);
      var i :| 0 <= i < |c| && c[i] == a[n];
      MultisetWithout(c, i);
      MultisetWithout(a, n);
      assert a[..n] + a[n + 1..] == a[..n];
      TotalPermutation(a[..n], c[..i] + c[i + 1..], d);
      TotalWithout(c, i, d);
    }
  }

  lemma {:induction false} NoSpendTotal(events: seq<Event>, d: Dimension)
    requires forall e :: e in events ==> !e.Spend?
    ensures Total(events, d) == 0.0
  {
    if events != [] {
      NoSpendTotal(events[..|events| - 1], d);
    }
  }

  // ---------------------------------------------------------------- reconciliation

  /** By how much the log overstates a counter. */
  function Drift(s: State, d: Dimension): real {
    Total(s.events, d) - s.meters.Get(d)
  }

  /** A drift the self-check reports. */
  predicate Off(drift: real, d: Dimension) {
    if IsWhole(d) then drift != 0.0 else drift > 0.000000001 || drift < -0.000000001
  }

  lemma ConsistentByDrift(s: State)
    ensures Consistent(s) <==> forall d: Dimension :: !Off(Drift(s, d), d)
  {
    forall d: Dimension
      ensures Drifts(Total(s.events, d), s.meters.Get(d), d) <==> Off(Drift(s, d), d)
    {
    }
  }

  lemma ReconcilesByDrift(s: State)
    ensures Reconciles(s) <==> forall d: Dimension :: Drift(s, d) == 0.0
  {
    forall d: Dimension
      ensures Total(s.events, d) == s.meters.Get(d) <==> Drift(s, d) == 0.0
    {
    }
  }

  lemma ChargeKeepsDrift(s: State, d: Dimension, amount: real, e: Dimension)
    ensures Drift(ChargeState(s, d, amount), e) == Drift(s, e)
  {
    var m := s.meters.Charge(d, amount);
    var row := Spend(d, Charged(d, amount), m.Get(d));
    assert ChargeState(s, d, amount).events == s.events + [row];
    TotalAppend(s.events, row, e);
    ChargeGet(s.meters, d, amount, e);
    ChargedTwice(d, amount);
    assert Weight(row, e) == if e == d then Charged(d, amount) else 0.0;
  }

  /** The row logs what was charged, so charging it again drops no fraction. */
  lemma ChargedTwice(d: Dimension, amount: real)
    ensures Charged(d, Charged(d, amount)) == Charged(d, amount)
  {
  }

  lemma QuietKeepsDrift(s: State, extra: seq<Event>, after: State, d: Dimension)
    requires after.meters == s.meters && after.events == s.events + extra
    requires forall e :: e in extra ==> !e.Spend?
    ensures Drift(after, d) == Drift(s, d)
  {
    TotalConcat(s.events, extra, d);
    NoSpendTotal(extra, d);
  }

  lemma {:induction false} BatchKeepsDrift(s: State, batch: seq<Event>, d: Dimension)
    ensures Drift(ApplyBatch(s, batch), d) == Drift(s, d)
  {
    if batch != [] {
      BatchKeepsDrift(s, batch[..|batch| - 1], d);
      var mid, e := ApplyBatch(s, batch[..|batch| - 1]), batch[|batch| - 1];
      if e.Spend? {
        ChargeKeepsDrift(mid, e.d, e.amount, d);
      } else if e.Overrun? || e.Provenance? {
        QuietKeepsDrift(mid, [e], ApplyEvent(mid, e), d);
      }
    }
  }

  /** What a row written by hand claims was charged. */
  function Claimed(op: Op, d: Dimension): real {
    if op.RecordOp? then Weight(op.e, d) else 0.0
  }

  function AllClaimed(ops: seq<Op>, d: Dimension): real {
    if ops == [] then 0.0 else AllClaimed(ops[..|ops| - 1], d) + Claimed(ops[|ops| - 1], d)
  }

  /** In memory and in each of its snapshots a state drifts from s by `more`. */
  ghost predicate DriftsBy(s: State, o: Outcome, d: Dimension, more: real) {
    Drift(o.after, d) == Drift(s, d) + more && forall w :: w in o.writes ==> Drift(w, d) == Drift(s, d) + more
  }

  lemma NotedKeepsDrift(s: State, r: OverrunRecord, stopped: bool, d: Dimension)
    ensures Drift(Noted(s, r).(stopped := stopped), d) == Drift(s, d)
  {
    QuietKeepsDrift(s, [Overrun(r)], Noted(s, r).(stopped := stopped), d);
  }

  lemma AddKeepsDrift(b: Budget, s: State, d: Dimension, amount: real, e: Dimension)
    ensures DriftsBy(s, AddOutcome(b, s, d, amount), e, 0.0)
  {
    if AtLimit(b, s.meters, d) {
      RefusedKeepsDrift(b, s, d, e);
    } else {
      ChargedKeepsDrift(b, s, d, amount, e);
    }
  }

  lemma RefusedKeepsDrift(b: Budget, s: State, d: Dimension, e: Dimension)
    requires AtLimit(b, s.meters, d)
    ensures DriftsBy(s, RefuseOutcome(b, s, d), e, 0.0)
  {
    var r := RecordOf(b, s.meters, d);
    NotedKeepsDrift(s, r, true, e);
    OneWriteDrifts(s, Noted(s, r).(stopped := true), r, e);
  }

  lemma OneWriteDrifts(s: State, s1: State, r: OverrunRecord, d: Dimension)
    requires Drift(s1, d) == Drift(s, d)
    ensures DriftsBy(s, Outcome(s1, [s1], Some(r)), d, 0.0)
  {
  }

  lemma ChargedKeepsDrift(b: Budget, s: State, d: Dimension, amount: real, e: Dimension)
    requires !AtLimit(b, s.meters, d)
    ensures DriftsBy(s, AddOutcome(b, s, d, amount), e, 0.0)
  {
    var s1 := ChargeState(s, d, amount);
    ChargeKeepsDrift(s, d, amount, e);
    CheckKeepsDrift(b, s1, d, e);
    DriftsAfter(s, s1, CheckOutcome(b, s1, d), e);
  }

  lemma DriftsAfter(s: State, s1: State, o: Outcome, d: Dimension)
    requires Drift(s1, d) == Drift(s, d) && DriftsBy(s1, o, d, 0.0)
    ensures DriftsBy(s, o, d, 0.0)
  {
  }

  lemma CheckKeepsDrift(b: Budget, s1: State, d: Dimension, e: Dimension)
    ensures DriftsBy(s1, CheckOutcome(b, s1, d), e, 0.0)
  {
    if Exceeds(b, s1.meters, d) {
      NotedKeepsDrift(s1, RecordOf(b, s1.meters, d), s1.stopped, e);
      NotedKeepsDrift(s1, RecordOf(b, s1.meters, d), true, e);
    }
  }

  lemma MergeKeepsDrift(b: Budget, s: State, batch: seq<Event>, release: Option<int>, d: Dimension)
    ensures DriftsBy(s, MergeOutcome(b, s, batch, release), d, 0.0)
  {
    var s1, s2 := ApplyBatch(s, batch), Settled(s, batch, release);
    BatchKeepsDrift(s, batch, d);
    if release.Some? {
      QuietKeepsDrift(s1, s2.events[|s1.events|..], s2, d);
    }
    QuietKeepsDrift(s2, AsEvents(OverrunsOf(b, s2.meters, CHECK_ORDER)), CheckedAfterMerge(b, s2), d);
  }

  lemma ApplyDrifts(b: Budget, s: State, op: Op, d: Dimension)
    ensures DriftsBy(s, Apply(b, s, op), d, Claimed(op, d))
  {
    match op
    case AddOp(e, amount) => AddKeepsDrift(b, s, e, amount, d);
    case MergeOp(batch, release) => MergeKeepsDrift(b, s, batch, release, d);
    case ReserveOp(requested, pendingWorkers) =>
      var after := ReserveOutcome(b, s, requested, pendingWorkers).after;
      QuietKeepsDrift(s, [after.events[|s.events|]], after, d);
    case ReleaseOp(n) =>
      var after := ReleaseOutcome(s, n).after;
      QuietKeepsDrift(s, [after.events[|s.events|]], after, d);
    case RecordOp(e) =>
      TotalAppend(s.events, e, d);
  }

  /** Only rows written by hand move the log away from the counters: over every run of
      calls, raising ones included, each dimension drifts by exactly what those rows
      claim, and no counter moves without its row. */
  lemma {:induction false} RunDrifts(b: Budget, s: State, ops: seq<Op>, d: Dimension)
    ensures Drift(Run(b, s, ops).after, d) == Drift(s, d) + AllClaimed(ops, d)
  {
    if ops != [] {
      RunDrifts(b, s, ops[..|ops| - 1], d);
      ApplyDrifts(b, Run(b, s, ops[..|ops| - 1]).after, ops[|ops| - 1], d);
    }
  }

  /** So the self-check passes after a run exactly when, in every dimension, the drift
      it began with and the hand-written claims cancel to within the tolerance. */
  lemma RunConsistentExactly(b: Budget, s: State, ops: seq<Op>)
    ensures Consistent(Run(b, s, ops).after) <==>
            forall d: Dimension :: !Off(Drift(s, d) + AllClaimed(ops, d), d)
  {
    ConsistentByDrift(Run(b, s, ops).after);
    forall d: Dimension
      ensures Drift(Run(b, s, ops).after, d) == Drift(s, d) + AllClaimed(ops, d)
    {
      RunDrifts(b, s, ops, d);
    }
  }

  /** One row written by hand into a ledger that passes the self-check: it still passes
      exactly when the row charges nothing, or a float small enough for the tolerance. */
  lemma RecordConsistentExactly(s: State, e: Event)
    requires Consistent(s)
    ensures Consistent(RecordOutcome(s, e).after) <==>
            (e.Spend? ==> !Off(Drift(s, e.d) + Charged(e.d, e.amount), e.d))
    ensures Reconciles(s) && e.Spend? ==>
            (Consistent(RecordOutcome(s, e).after) <==> !Off(Charged(e.d, e.amount), e.d))
  {
    var after := RecordOutcome(s, e).after;
    ConsistentByDrift(s);
    ConsistentByDrift(after);
    ReconcilesByDrift(s);
    forall d: Dimension
      ensures Drift(after, d) == Drift(s, d) + Weight(e, d)
    {
      TotalAppend(s.events, e, d);
    }
    if e.Spend? {
      assert Drift(after, e.d) == Drift(s, e.d) + Charged(e.d, e.amount);
    }
  }

  ghost predicate HonestOp(op: Op) {
    op.RecordOp? && op.e.Spend? ==> Charged(op.e.d, op.e.amount) == 0.0
  }

  lemma QuietReconciles(s: State, extra: seq<Event>, after: State)
    requires Reconciles(s) && after.meters == s.meters && after.events == s.events + extra
    requires forall e :: e in extra ==> !e.Spend?
    ensures Reconciles(after)
  {
    ReconcilesByDrift(s);
    ReconcilesByDrift(after);
    forall d: Dimension
      ensures Drift(after, d) == 0.0
    {
      QuietKeepsDrift(s, extra, after, d);
    }
  }

  lemma ApplyReconciles(b: Budget, s: State, op: Op)
    requires Reconciles(s) && HonestOp(op)
    ensures Reconciles(Apply(b, s, op).after)
    ensures forall w :: w in Apply(b, s, op).writes ==> Reconciles(w)
  {
    var o := Apply(b, s, op);
    ReconcilesByDrift(s);
    forall w | w == o.after || w in o.writes
      ensures Reconciles(w)
    {
      ReconcilesByDrift(w);
      forall d: Dimension
        ensures Drift(w, d) == 0.0
      {
        ApplyDrifts(b, s, op, d);
      }
    }
  }

  /** Over every run of calls that records no charge by hand, raising calls included,
      the log explains the counters in memory and in every snapshot that ever reached
      the disk, to the last digit. */
  lemma {:induction false} RunReconciles(b: Budget, s: State, ops: seq<Op>)
    requires Reconciles(s)
    requires forall op :: op in ops ==> HonestOp(op)
    ensures Reconciles(Run(b, s, ops).after)
    ensures forall w :: w in Run(b, s, ops).writes ==> Reconciles(w)
  {
    if ops != [] {
      RunReconciles(b, s, ops[..|ops| - 1]);
      ApplyReconciles(b, Run(b, s, ops[..|ops| - 1]).after, ops[|ops| - 1]);
    }
  }

  /** restore_spend with counters and no events: the log explains none of what it
      restored, so the self-check passes exactly when no whole counter was restored and
      the two float counters are within its tolerance of zero. */
  lemma RestoredSpendReconciles(m: Meters, reserved: int)
    ensures Consistent(State(m, reserved, [], [], false)) <==>
            && m.queries == 0 && m.steps == 0 && m.tokens == 0 && m.candidates == 0
            && !Off(m.costUsd, CostUsd) && !Off(m.computeUnits, ComputeUnits)
  {
    var s := State(m, reserved, [], [], false);
    ConsistentByDrift(s);
    assert Off(Drift(s, Queries), Queries) <==> m.queries != 0;
    assert Off(Drift(s, Steps), Steps) <==> m.steps != 0;
    assert Off(Drift(s, Tokens), Tokens) <==> m.tokens != 0;
    assert Off(Drift(s, CostUsd), CostUsd) <==> Off(m.costUsd, CostUsd);
    assert Off(Drift(s, Candidates), Candidates) <==> m.candidates != 0;
    assert Off(Drift(s, ComputeUnits), ComputeUnits) <==> Off(m.computeUnits, ComputeUnits);
  }

  // ---------------------------------------------------------------- disk mirror, no refund

  ghost predicate Mirrors(disk: State, memory: State) {
    disk == memory.(stopped := disk.stopped)
  }

  ghost predicate Leq(m: Meters, m': Meters) {
    forall d: Dimension :: m.Get(d) <= m'.Get(d)
  }

  ghost predicate Spends(op: Op) {
    match op
    case AddOp(d, amount) => amount >= 0.0
    case MergeOp(batch, _) => forall e: Event :: e in batch && e.Spend? ==> e.amount >= 0.0
    case _ => true
  }

  /** The snapshots climb: none shows a counter below the one before it. */
  ghost predicate Climbs(from: Meters, writes: seq<State>, to: Meters)
  {
    && Leq(from, to)
    && (forall i :: 0 <= i < |writes| ==> Leq(from, writes[i].meters) && Leq(writes[i].meters, to))
    && (forall i, j :: 0 <= i < j < |writes| ==> Leq(writes[i].meters, writes[j].meters))
  }

  lemma LeqTransitive(a: Meters, m: Meters, c: Meters)
    requires Leq(a, m) && Leq(m, c)
    ensures Leq(a, c)
  {
    forall d: Dimension
      ensures a.Get(d) <= c.Get(d)
    {
      assert a.Get(d) <= m.Get(d) && m.Get(d) <= c.Get(d);
    }
  }

  lemma ClimbsJoin(from: Meters, first: seq<State>, mid: Meters, second: seq<State>, to: Meters)
    requires Climbs(from, first, mid) && Climbs(mid, second, to)
    ensures Climbs(from, first + second, to)
  {
    var all := first + second;
    LeqTransitive(from, mid, to);
    forall i | 0 <= i < |all|
      ensures Leq(from, all[i].meters) && Leq(all[i].meters, to)
    {
      if i < |first| {
        LeqTransitive(first[i].meters, mid, to);
      } else {
        LeqTransitive(from, mid, second[i - |first|].meters);
      }
    }
    forall i, j | 0 <= i < j < |all|
      ensures Leq(all[i].meters, all[j].meters)
    {
      if i < |first| <= j {
        LeqTransitive(first[i].meters, mid, second[j - |first|].meters);
      }
    }
  }

  lemma ChargeClimbs(s: State, d: Dimension, amount: real)
    requires amount >= 0.0
    ensures Leq(s.meters, ChargeState(s, d, amount).meters)
  {
    forall e: Dimension
      ensures s.meters.Get(e) <= ChargeState(s, d, amount).meters.Get(e)
    {
      ChargeGet(s.meters, d, amount, e);
    }
  }

  lemma {:induction false} BatchClimbs(s: State, batch: seq<Event>)
    requires forall e: Event :: e in batch && e.Spend? ==> e.amount >= 0.0
    ensures Leq(s.meters, ApplyBatch(s, batch).meters)
  {
    if batch != [] {
      BatchClimbs(s, batch[..|batch| - 1]);
      var mid, e := ApplyBatch(s, batch[..|batch| - 1]), batch[|batch| - 1];
      if e.Spend? {
        ChargeClimbs(mid, e.d, e.amount);
        LeqTransitive(s.meters, mid.meters, ApplyEvent(mid, e).meters);
      }
    }
  }

  lemma ApplyClimbs(b: Budget, s: State, op: Op)
    requires Spends(op)
    ensures Climbs(s.meters, Apply(b, s, op).writes, Apply(b, s, op).after.meters)
    ensures Apply(b, s, op).writes != []
    ensures Mirrors(Apply(b, s, op).writes[|Apply(b, s, op).writes| - 1], Apply(b, s, op).after)
  {
    match op
    case AddOp(d, amount) => ChargeClimbs(s, d, amount);
    case MergeOp(batch, release) => BatchClimbs(s, batch);
    case ReserveOp(_, _) =>
    case ReleaseOp(_) =>
    case RecordOp(_) =>
  }

  /** No crash refunds: the snapshots of any run climb, and the last of them shows
      the counters, the reservations and the whole log of the memory it mirrors
      (all but the `stopped` flag, which an add_* sets after its write). */
  lemma {:induction false} RunNeverRefunds(b: Budget, s: State, ops: seq<Op>)
    requires forall op :: op in ops ==> Spends(op)
    ensures Climbs(s.meters, Run(b, s, ops).writes, Run(b, s, ops).after.meters)
    ensures ops != [] ==>
      var r := Run(b, s, ops); r.writes != [] && Mirrors(r.writes[|r.writes| - 1], r.after)
  {
    if ops != [] {
      var before := Run(b, s, ops[..|ops| - 1]);
      var last := Apply(b, before.after, ops[|ops| - 1]);
      RunNeverRefunds(b, s, ops[..|ops| - 1]);
      ApplyClimbs(b, before.after, ops[|ops| - 1]);
      ClimbsJoin(s.meters, before.writes, before.after.meters, last.writes, last.after.meters);
    }
  }

  ghost predicate NeverNegative(batch: seq<Event>) {
    forall d: Dimension :: Total(batch, d) >= 0.0
  }

  /** The merge refuses `refund=True` but not a negative amount: a batch leaves no
      counter lower exactly when its amounts add up to at least zero everywhere. */
  lemma MergeRefundsNothing(b: Budget, s: State, batch: seq<Event>, release: Option<int>)
    ensures Leq(s.meters, MergeOutcome(b, s, batch, release).after.meters) <==> NeverNegative(batch)
  {
    var after := ApplyBatch(s, batch).meters;
    assert MergeOutcome(b, s, batch, release).after.meters == after;
    forall d: Dimension
      ensures s.meters.Get(d) <= after.Get(d) <==> Total(batch, d) >= 0.0
    {
      BatchTotals(s, batch, d);
    }
    assert Leq(s.meters, after) <==> NeverNegative(batch);
  }

  lemma NegativeAmountRefunds()
    ensures var b := Budget(Some(10), None, None, None, None, None, Stop);
      var spent := FRESH.(meters := ZERO_METERS.(queries := 4));
      MergeOutcome(b, spent, [Spend(Queries, -3.0, 0.0)], None).after.meters.queries == 1
  {
    var batch := [Spend(Queries, -3.0, 0.0)];
    assert batch[..0] == [];
    assert ApplyBatch(FRESH.(meters := ZERO_METERS.(queries := 4)), batch).meters.queries == 1;
  }

  // ---------------------------------------------------------------- merges add up

  lemma {:induction false} BatchTotals(s: State, batch: seq<Event>, d: Dimension)
    ensures ApplyBatch(s, batch).meters.Get(d) == s.meters.Get(d) + Total(batch, d)
  {
    if batch != [] {
      BatchTotals(s, batch[..|batch| - 1], d);
      var mid, e := ApplyBatch(s, batch[..|batch| - 1]), batch[|batch| - 1];
      if e.Spend? {
        ChargeGet(mid.meters, e.d, e.amount, d);
      }
    }
  }

  function Flatten(batches: seq<seq<Event>>): seq<Event> {
    if batches == [] then [] else Flatten(batches[..|batches| - 1]) + batches[|batches| - 1]
  }

  /** Merges that may each release a voucher and may each raise. */
  function MergeAll(b: Budget, s: State, batches: seq<seq<Event>>, releases: seq<Option<int>>): State
    requires |releases| == |batches|
  {
    if batches == [] then s
    else
      var n := |batches| - 1;
      MergeOutcome(b, MergeAll(b, s, batches[..n], releases[..n]), batches[n], releases[n]).after
  }

  lemma {:induction false} MergeAllTotals(
      b: Budget, s: State, batches: seq<seq<Event>>, releases: seq<Option<int>>, d: Dimension)
    requires |releases| == |batches|
    ensures MergeAll(b, s, batches, releases).meters.Get(d) ==
            s.meters.Get(d) + Total(Flatten(batches), d)
  {
    if batches != [] {
      var n := |batches| - 1;
      MergeAllTotals(b, s, batches[..n], releases[..n], d);
      BatchTotals(MergeAll(b, s, batches[..n], releases[..n]), batches[n], d);
      TotalConcat(Flatten(batches[..n]), batches[n], d);
    }
  }

  /** Merging is a homomorphism: cut the same worker events into any batches, in any
      order, with any releases and however many merges raise, and every counter ends
      the same. */
  lemma MergeOrderIrrelevant(
      b: Budget, s: State, d: Dimension,
      batches: seq<seq<Event>>, releases: seq<Option<int>>,
      batches': seq<seq<Event>>, releases': seq<Option<int>>)
    requires |releases| == |batches| && |releases'| == |batches'|
    requires multiset(Flatten(batches)) == multiset(Flatten(batches'))
    ensures MergeAll(b, s, batches, releases).meters.Get(d) ==
            MergeAll(b, s, batches', releases').meters.Get(d)
  {
    MergeAllTotals(b, s, batches, releases, d);
    MergeAllTotals(b, s, batches', releases', d);
    TotalPermutation(Flatten(batches), Flatten(batches'), d);
  }

  // ---------------------------------------------------------------- STOP

  function DimensionsOf(rs: seq<OverrunRecord>): seq<Dimension> {
    seq(|rs|, i requires 0 <= i < |rs| => rs[i].dimension)
  }

  lemma {:induction false} OverrunRecords(b: Budget, m: Meters, order: seq<Dimension>)
    ensures forall r :: r in OverrunsOf(b, m, order) ==>
              Exceeds(b, m, r.dimension) && r == RecordOf(b, m, r.dimension)
  {
    if order != [] {
      OverrunRecords(b, m, order[..|order| - 1]);
    }
  }

  lemma DimensionsAppend(rs: seq<OverrunRecord>, r: OverrunRecord)
    ensures DimensionsOf(rs + [r]) == DimensionsOf(rs) + [r.dimension]
  {
  }

  lemma {:induction false} OverrunCount(b: Budget, m: Meters, order: seq<Dimension>, d: Dimension)
    ensures multiset(DimensionsOf(OverrunsOf(b, m, order)))[d] ==
            if Exceeds(b, m, d) then multiset(order)[d] else 0
  {
    if order != [] {
      var front, last := order[..|order| - 1], order[|order| - 1];
      OverrunCount(b, m, front, d);
      assert order == front + [last];
      if Exceeds(b, m, last) {
        DimensionsAppend(OverrunsOf(b, m, front), RecordOf(b, m, last));
      } else {
        assert OverrunsOf(b, m, order) == OverrunsOf(b, m, front);
      }
    }
  }

  /** One merge: the whole batch is charged in every dimension even when it raises,
      every exceeded limit gets exactly one record, and it raises exactly when the
      policy is STOP and some limit is exceeded. */
  lemma MergeChargesAllThenStops(b: Budget, s: State, batch: seq<Event>, release: Option<int>)
    ensures var o := MergeOutcome(b, s, batch, release);
      && (forall d: Dimension :: o.after.meters.Get(d) == s.meters.Get(d) + Total(batch, d))
      && |s.overruns| <= |o.after.overruns| && o.after.overruns[..|s.overruns|] == s.overruns
      && (forall d: Dimension ::
            multiset(DimensionsOf(o.after.overruns[|s.overruns|..]))[d] ==
            if Exceeds(b, o.after.meters, d) then 1 else 0)
      && (o.raised.Some? <==> b.policy == Stop && exists d: Dimension :: Exceeds(b, o.after.meters, d))
      && (o.raised.Some? ==> o.after.stopped && Exceeds(b, o.after.meters, o.raised.value.dimension))
  {
    var s2 := Settled(s, batch, release);
    var rs := OverrunsOf(b, s2.meters, CHECK_ORDER);
    BatchKeepsOverruns(s, batch);
    var after := MergeOutcome(b, s, batch, release).after;
    assert after.overruns[|s.overruns|..] == rs;
    forall d: Dimension
      ensures after.meters.Get(d) == s.meters.Get(d) + Total(batch, d)
      ensures multiset(DimensionsOf(rs))[d] == if Exceeds(b, after.meters, d) then 1 else 0
    {
      BatchTotals(s, batch, d);
      OverrunCount(b, s2.meters, CHECK_ORDER, d);
      EachOnce(d);
    }
    if rs != [] {
      OverrunRecords(b, s2.meters, CHECK_ORDER);
      assert rs[0] in rs;
    } else {
      forall d: Dimension
        ensures !Exceeds(b, after.meters, d)
      {
        assert multiset(DimensionsOf(rs))[d] == 0;
      }
    }
  }

  lemma EachOnce(d: Dimension)
    ensures multiset(CHECK_ORDER)[d] == 1
  {
    assert CHECK_ORDER == [Queries, Steps, Tokens, CostUsd, Candidates, ComputeUnits];
  }

  lemma {:induction false} BatchKeepsOverruns(s: State, batch: seq<Event>)
    ensures ApplyBatch(s, batch).overruns == s.overruns
    ensures ApplyBatch(s, batch).reserved == s.reserved
    ensures ApplyBatch(s, batch).stopped == s.stopped
  {
    if batch != [] {
      BatchKeepsOverruns(s, batch[..|batch| - 1]);
    }
  }

  /** The state after a run of add_* calls on one dimension, raising ones caught. */
  function AddAll(b: Budget, s: State, d: Dimension, amounts: seq<real>): State {
    if amounts == [] then s
    else AddOutcome(b, AddAll(b, s, d, amounts[..|amounts| - 1]), d, amounts[|amounts| - 1]).after
  }

  /** Under STOP an add charges its whole amount below the limit and nothing at it. */
  lemma StopStep(b: Budget, s: State, d: Dimension, x: real)
    requires b.policy == Stop && b.Limit(d).Some? && Charged(d, x) == x
    ensures AddOutcome(b, s, d, x).after.meters.Get(d) ==
            s.meters.Get(d) + (if s.meters.Get(d) < b.Limit(d).value then x else 0.0)
  {
    ChargeGet(s.meters, d, x, d);
  }

  ghost predicate SteppedOver(b: Budget, s: State, d: Dimension, amounts: seq<real>, k: int, last: real)
    requires b.Limit(d).Some?
  {
    0 <= k < |amounts| &&
    var below := AddAll(b, s, d, amounts[..k]).meters.Get(d);
    below < b.Limit(d).value && last == below + amounts[k]
  }

  /** Under STOP a run of adds overshoots a limit at most once: if the counter ends
      above it, one add of the run, the k-th, stepped over it from strictly below, so
      by less than its own amount, and no later add changed the counter. */
  lemma {:induction false} StopOvershootsOnce(b: Budget, s: State, d: Dimension, amounts: seq<real>)
    requires b.policy == Stop && b.Limit(d).Some? && s.meters.Get(d) <= b.Limit(d).value
    requires forall x :: x in amounts ==> x >= 0.0 && Charged(d, x) == x
    ensures var last := AddAll(b, s, d, amounts).meters.Get(d);
      last > b.Limit(d).value ==> exists k :: SteppedOver(b, s, d, amounts, k, last)
  {
    if amounts != [] {
      var n := |amounts| - 1;
      var front := amounts[..n];
      var mid := AddAll(b, s, d, front).meters.Get(d);
      assert forall x :: x in front ==> x in amounts;
      StopOvershootsOnce(b, s, d, front);
      assert amounts[n] in amounts;
      StopStep(b, AddAll(b, s, d, front), d, amounts[n]);
      if mid > b.Limit(d).value {
        var k :| SteppedOver(b, s, d, front, k, mid);
        SteppedOverEarlier(b, s, d, amounts, k, mid);
      } else if mid < b.Limit(d).value {
        assert SteppedOver(b, s, d, amounts, n, mid + amounts[n]);
      }
    }
  }

  lemma SteppedOverEarlier(b: Budget, s: State, d: Dimension, amounts: seq<real>, k: int, mid: real)
    requires b.Limit(d).Some? && amounts != []
    requires SteppedOver(b, s, d, amounts[..|amounts| - 1], k, mid)
    ensures SteppedOver(b, s, d, amounts, k, mid)
  {
    assert amounts[..|amounts| - 1][..k] == amounts[..k];
  }

  lemma UnitStep(b: Budget, m: Meters, d: Dimension)
    requires b.Limit(d).Some? && IsWhole(d) && m.Get(d) < b.Limit(d).value
    ensures m.Get(d) + 1.0 <= b.Limit(d).value
  {
    match d
    case Queries => assert m.queries < b.maxQueries.value;
    case Steps => assert m.steps < b.maxSteps.value;
    case Tokens => assert m.tokens < b.maxTokens.value;
    case Candidates => assert m.candidates < b.maxCandidates.value;
  }

  /** Unit adds never pass a whole limit. */
  lemma {:induction false} UnitAddsStayWithin(b: Budget, s: State, d: Dimension, amounts: seq<real>)
    requires b.policy == Stop && b.Limit(d).Some? && IsWhole(d)
    requires s.meters.Get(d) <= b.Limit(d).value
    requires forall x :: x in amounts ==> x == 1.0
    ensures AddAll(b, s, d, amounts).meters.Get(d) <= b.Limit(d).value
  {
    if amounts != [] {
      var n := |amounts| - 1;
      assert forall x :: x in amounts[..n] ==> x in amounts;
      UnitAddsStayWithin(b, s, d, amounts[..n]);
      assert amounts[n] in amounts;
      var mid := AddAll(b, s, d, amounts[..n]);
      StopStep(b, mid, d, 1.0);
      if mid.meters.Get(d) < b.Limit(d).value {
        UnitStep(b, mid.meters, d);
      }
    }
  }
}
