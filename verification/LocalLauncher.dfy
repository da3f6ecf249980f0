/**
 The launcher object: its methods are the segments of `Launcher`, carried out call
 by call on the ledger object and on the launcher's own fields.
 */
module LocalLauncher {
  import opened Prelude
  import opened Ledger
  import opened LedgerLaws
  import opened Launcher
  import opened LauncherLaws

  lemma WholeReal(n: int)
    ensures Truncate(n as real) as real == n as real
  {
    assert (n as real).Floor == n;
    assert -(n as real) == (-n) as real;
    assert ((-n) as real).Floor == -n;
  }

  lemma RunOneMore(b: Budget, s: State, done: seq<Op>, op: Op)
    requires RunUntilRaise(b, s, done).raised.None?
    ensures var before := RunUntilRaise(b, s, done);
      var o := Apply(b, before.after, op);
      RunUntilRaise(b, s, done + [op]) == Outcome(o.after, before.writes + o.writes, o.raised)
  {
    RunConcat(b, s, done, [op]);
    var before := RunUntilRaise(b, s, done);
    var o := Apply(b, before.after, op);
    assert RunUntilRaise(b, before.after, [op]) == Outcome(o.after, o.writes, o.raised) by {
      assert [op][1..] == [];
      assert o.writes + [] == o.writes;
    }
  }

  lemma RunStops(b: Budget, s: State, done: seq<Op>, all: seq<Op>)
    requires RunUntilRaise(b, s, done).raised.Some? && done <= all
    ensures RunUntilRaise(b, s, all) == RunUntilRaise(b, s, done)
  {
    RunConcat(b, s, done, all[|done|..]);
    assert all == done + all[|done|..];
  }

  /** The groups of calls the fallback makes up to its release, one after the other. */
  lemma RebuildPlan(r: WorkerResult, release: int) returns (p: seq<seq<Op>>)
    requires r.events == []
    ensures |p| == 6 && p[0] == []
    ensures p[1] == p[0] + Maybe(QueryCount(r) as real != 0.0, AddOp(Queries, QueryCount(r) as real))
    ensures p[2] == p[1] + Invocations(r.invocations)
    ensures p[3] == p[2] + Maybe(r.stepCount as real != 0.0, AddOp(Steps, r.stepCount as real))
    ensures p[4] == p[3] + Maybe(r.candidates as real != 0.0, AddOp(Candidates, r.candidates as real))
    ensures p[5] == p[4] + Maybe(r.computeUnits != 0.0, AddOp(ComputeUnits, r.computeUnits))
    ensures p[1] <= p[3] <= p[4] <= p[5] <= SettleOps(r, release)
    ensures SettleOps(r, release) == p[5] + Maybe(release != 0, ReleaseOp(release))
  {
    var a := Maybe(QueryCount(r) != 0, AddOp(Queries, QueryCount(r) as real));
    var i := Invocations(r.invocations);
    var s := Maybe(r.stepCount != 0, AddOp(Steps, r.stepCount as real));
    var c := Maybe(r.candidates != 0, AddOp(Candidates, r.candidates as real));
    var u := Maybe(r.computeUnits != 0.0, AddOp(ComputeUnits, r.computeUnits));
    p := [[], [] + a, [] + a + i, [] + a + i + s, [] + a + i + s + c, [] + a + i + s + c + u];
    assert Rest(r) == i + s + c + u;
    assert a + (i + s + c + u) == p[5];
  }

  lemma BeginRefused(b: Budget, m: Memory, files: seq<UnitFile>, i: nat)
    requires i < |m.units| && Reserves(b, m, files, i) && Probe(b, m.ledger).raised.Some?
    ensures Begin(b, m, files, i) ==
      SegmentOutcome(Abort(m, i, Probe(b, m.ledger).after), LedgerWrites(Probe(b, m.ledger).writes))
  {
  }

  lemma BeginHeld(b: Budget, m: Memory, files: seq<UnitFile>, i: nat, pending: int)
    requires i < |m.units| && Reserves(b, m, files, i) && Probe(b, m.ledger).raised.None?
    requires pending == AtLeast(PendingLeft(m.units[i := Unit(m.units[i].id, RunningUnit, NotStarted)]), 1)
    ensures var probe := Probe(b, m.ledger);
      var o := ReserveOutcome(b, probe.after, Available(b, m.ledger), pending);
      var voucher := Grant(b, probe.after, Available(b, m.ledger), pending);
      Begin(b, m, files, i) ==
        SegmentOutcome(m.(ledger := o.after, units := m.units[i := Unit(m.units[i].id, RunningUnit, InFlight(voucher))]),
                       LedgerWrites(probe.writes + o.writes))
  {
  }

  class LocalLauncher {
    const budget: Budget
    const ledger: ProvenanceLedger
    var units: seq<Unit>
    var cancelRequested: bool
    var aborted: bool
    var files: seq<UnitFile>

    ghost predicate Valid()
      reads this, ledger
    {
      ledger.Valid() && ledger.persistent && ledger.budget == budget
    }

    ghost function Mem(): Memory
      reads this, ledger
    {
      Memory(ledger.Abs(), units, cancelRequested, aborted)
    }

    ghost function Disk(): Store
      reads this, ledger
    {
      Store(ledger.disk, files)
    }

    constructor (budget: Budget, work: seq<Handle>)
      ensures Valid() && fresh(ledger) && this.budget == budget
      ensures Mem() == Memory(FRESH, Fresh(work), false, false) && Disk() == Store(None, [])
    {
      this.budget := budget;
      ledger := new ProvenanceLedger(budget, true);
      units := seq(|work|, i requires 0 <= i < |work| => Unit(work[i], PendingUnit, NotStarted));
      cancelRequested, aborted := false, false;
      files := [];
    }

    /** What the calls made since `start` have done, as a run of ledger operations. */
    ghost predicate Ran(start: State, journal: seq<State>, done: seq<Op>, raised: Option<OverrunRecord>)
      reads this, ledger
    {
      && |journal| <= |ledger.journal| && ledger.journal[..|journal|] == journal
      && RunUntilRaise(budget, start, done) == Outcome(ledger.Abs(), ledger.journal[|journal|..], raised)
    }

    lemma Advance(start: State, journal: seq<State>, done: seq<Op>, op: Op, before: State, written: seq<State>,
                  raised: Option<OverrunRecord>)
      requires Valid()
      requires |journal| <= |written| && written[..|journal|] == journal
      requires RunUntilRaise(budget, start, done) == Outcome(before, written[|journal|..], None)
      requires ledger.Abs() == Apply(budget, before, op).after && raised == Apply(budget, before, op).raised
      requires ledger.journal == written + Apply(budget, before, op).writes
      ensures Ran(start, journal, done + [op], raised)
    {
      RunOneMore(budget, start, done, op);
      assert ledger.journal[|journal|..] == written[|journal|..] + Apply(budget, before, op).writes;
    }

    /** One optional meter of the fallback path. */
    method AddIf(d: Dimension, amount: real, ghost start: State, ghost journal: seq<State>, ghost done: seq<Op>)
      returns (raised: Option<OverrunRecord>)
      requires Valid() && Ran(start, journal, done, None)
      requires IsWhole(d) ==> amount == Truncate(amount) as real
      modifies ledger
      ensures Valid() && Ran(start, journal, done + Maybe(amount != 0.0, AddOp(d, amount)), raised)
    {
      raised := None;
      if amount != 0.0 {
        ghost var before, written := ledger.Abs(), ledger.journal;
        raised := ledger.Add(d, amount);
        Advance(start, journal, done, AddOp(d, amount), before, written, raised);
      } else {
        assert done + [] == done;
      }
    }

    method RecordInvocations(payloads: seq<string>, ghost start: State, ghost journal: seq<State>, ghost done: seq<Op>)
      requires Valid() && Ran(start, journal, done, None)
      modifies ledger
      ensures Valid() && Ran(start, journal, done + Invocations(payloads), None)
    {
      var i := 0;
      assert done + Invocations(payloads)[..0] == done;
      while i < |payloads|
        invariant 0 <= i <= |payloads|
        invariant Valid() && Ran(start, journal, done + Invocations(payloads)[..i], None)
      {
        ghost var before, written := ledger.Abs(), ledger.journal;
        ledger.RecordEvent(Provenance("verifier_query", payloads[i]));
        ghost var op := RecordOp(Provenance("verifier_query", payloads[i]));
        Advance(start, journal, done + Invocations(payloads)[..i], op, before, written, None);
        assert done + Invocations(payloads)[..i] + [op] == done + Invocations(payloads)[..i + 1];
        i := i + 1;
      }
      assert Invocations(payloads)[..|payloads|] == Invocations(payloads);
    }

    method SeesSteps(events: seq<Event>) returns (seen: bool)
      ensures seen == MentionsSteps(events)
    {
      var i := 0;
      while i < |events|
        invariant 0 <= i <= |events|
        invariant forall k :: 0 <= k < i ==> !(events[k].Spend? && events[k].d == Steps)
      {
        if events[i].Spend? && events[i].d == Steps {
          return true;
        }
        i := i + 1;
      }
      seen := false;
    }

    /** Settle a voucher: merge the worker's events, then meter the steps it did not see. */
    method MergeVoucher(r: WorkerResult, release: int) returns (raised: Option<OverrunRecord>)
      requires Valid() && r.events != []
      modifies ledger
      ensures Valid() && Ran(old(ledger.Abs()), old(ledger.journal), SettleOps(r, release), raised)
    {
      ghost var start, journal := ledger.Abs(), ledger.journal;
      var rel := if release != 0 then Some(release) else None;
      ghost var done := [MergeOp(r.events, rel)];
      raised := ledger.Merge(r.events, rel);
      Advance(start, journal, [], MergeOp(r.events, rel), start, journal, raised);
      assert [] + [MergeOp(r.events, rel)] == done;
      if raised.Some? {
        RunStops(budget, start, done, SettleOps(r, release));
        return;
      }
      var seen := SeesSteps(r.events);
      var steps := if seen then 0 else r.stepCount;
      WholeReal(steps);
      raised := AddIf(Steps, steps as real, start, journal, done);
      assert SettleOps(r, release) == done + Maybe(steps as real != 0.0, AddOp(Steps, steps as real));
    }

    /** Settle without events, first part: queries, invocations, steps. */
    method RebuildUse(r: WorkerResult, ghost all: seq<Op>, ghost p: seq<seq<Op>>)
      returns (raised: Option<OverrunRecord>)
      requires Valid() && |p| == 6 && p[0] == [] && p[1] <= p[3] <= all
      requires p[1] == p[0] + Maybe(QueryCount(r) as real != 0.0, AddOp(Queries, QueryCount(r) as real))
      requires p[2] == p[1] + Invocations(r.invocations)
      requires p[3] == p[2] + Maybe(r.stepCount as real != 0.0, AddOp(Steps, r.stepCount as real))
      modifies ledger
      ensures Valid()
      ensures Ran(old(ledger.Abs()), old(ledger.journal), if raised.Some? then all else p[3], raised)
    {
      ghost var start, journal := ledger.Abs(), ledger.journal;
      var count := if r.queryCount != 0 then r.queryCount else |r.invocations|;
      WholeReal(count);
      WholeReal(r.stepCount);
      raised := AddIf(Queries, count as real, start, journal, p[0]);
      if raised.Some? {
        RunStops(budget, start, p[1], all);
        return;
      }
      RecordInvocations(r.invocations, start, journal, p[1]);
      raised := AddIf(Steps, r.stepCount as real, start, journal, p[2]);
      if raised.Some? {
        RunStops(budget, start, p[3], all);
      }
    }

    /** Second part: candidates and compute units. */
    method RebuildSearch(r: WorkerResult, ghost start: State, ghost journal: seq<State>,
                         ghost all: seq<Op>, ghost p: seq<seq<Op>>)
      returns (raised: Option<OverrunRecord>)
      requires Valid() && |p| == 6 && p[4] <= p[5] <= all && Ran(start, journal, p[3], None)
      requires p[4] == p[3] + Maybe(r.candidates as real != 0.0, AddOp(Candidates, r.candidates as real))
      requires p[5] == p[4] + Maybe(r.computeUnits != 0.0, AddOp(ComputeUnits, r.computeUnits))
      modifies ledger
      ensures Valid()
      ensures Ran(start, journal, if raised.Some? then all else p[5], raised)
    {
      WholeReal(r.candidates);
      raised := AddIf(Candidates, r.candidates as real, start, journal, p[3]);
      if raised.Some? {
        RunStops(budget, start, p[4], all);
        return;
      }
      raised := AddIf(ComputeUnits, r.computeUnits, start, journal, p[4]);
      if raised.Some? {
        RunStops(budget, start, p[5], all);
      }
    }

    /** Last part: the voucher goes back. */
    method ReturnVoucher(release: int, ghost start: State, ghost journal: seq<State>, ghost done: seq<Op>)
      requires Valid() && Ran(start, journal, done, None)
      modifies ledger
      ensures Valid() && Ran(start, journal, done + Maybe(release != 0, ReleaseOp(release)), None)
    {
      if release != 0 {
        ghost var before, written := ledger.Abs(), ledger.journal;
        ledger.Release(release);
        Advance(start, journal, done, ReleaseOp(release), before, written, None);
      } else {
        assert done + [] == done;
      }
    }

    /** Settle without events: rebuild every meter, release the voucher last. */
    method RebuildMeters(r: WorkerResult, release: int) returns (raised: Option<OverrunRecord>)
      requires Valid() && r.events == []
      modifies ledger
      ensures Valid() && Ran(old(ledger.Abs()), old(ledger.journal), SettleOps(r, release), raised)
    {
      ghost var start, journal := ledger.Abs(), ledger.journal;
      ghost var all := SettleOps(r, release);
      ghost var p := RebuildPlan(r, release);
      raised := RebuildUse(r, all, p);
      if raised.None? {
        raised := RebuildSearch(r, start, journal, all, p);
        if raised.None? {
          ReturnVoucher(release, start, journal, p[5]);
        }
      }
    }

    /** The disk shows the last snapshot written since `journal`. */
    lemma DiskBooks(journal: seq<State>, disk: Option<State>, ws: seq<State>, before: seq<UnitFile>)
      requires Valid() && ledger.journal == journal + ws
      requires disk == if journal == [] then None else Some(journal[|journal| - 1])
      ensures Persisted(Store(disk, before), LedgerWrites(ws)) == Store(ledger.disk, before)
    {
      PersistedLedger(Store(disk, before), ws);
    }

    /** And a unit file after them. */
    lemma DiskFile(journal: seq<State>, disk: Option<State>, ws: seq<State>, before: seq<UnitFile>, f: UnitFile)
      requires Valid() && ledger.journal == journal + ws
      requires disk == if journal == [] then None else Some(journal[|journal| - 1])
      ensures Persisted(Store(disk, before), LedgerWrites(ws) + [UnitWrite(f)]) == Store(ledger.disk, before + [f])
    {
      PersistedUnit(Store(disk, before), ws, f);
    }

    method FindFile(id: Handle) returns (found: bool)
      ensures found == HasFile(files, id)
    {
      var i := 0;
      while i < |files|
        invariant 0 <= i <= |files|
        invariant forall k :: 0 <= k < i ==> files[k].id != id
      {
        if files[i].id == id {
          return true;
        }
        i := i + 1;
      }
      found := false;
    }

    method CountPending() returns (n: nat)
      ensures n == PendingLeft(units)
    {
      n := 0;
      var i := 0;
      while i < |units|
        invariant 0 <= i <= |units|
        invariant n == PendingLeft(units[..i])
      {
        assert units[..i + 1][..i] == units[..i];
        if units[i].status == PendingUnit || units[i].status == RunningUnit {
          n := n + 1;
        }
        i := i + 1;
      }
      assert units[..|units|] == units;
    }

    /** cancel(): flag the run and every unit that is pending or running, or just one. */
    method Cancel(who: Option<nat>)
      requires who.Some? ==> who.value < |units|
      modifies `units, `cancelRequested
      ensures cancelRequested
      ensures units == if who.None? then CancelAll(old(units))
                       else old(units)[who.value := CancelOne(old(units)[who.value])]
    {
      cancelRequested := true;
      if who.Some? {
        var u := units[who.value];
        if u.status == PendingUnit || u.status == RunningUnit {
          units := units[who.value := u.(status := CancelledUnit)];
        }
        return;
      }
      var i := 0;
      while i < |units|
        invariant 0 <= i <= |units| == |old(units)| && cancelRequested
        invariant forall k :: 0 <= k < i ==> units[k] == CancelOne(old(units)[k])
        invariant forall k :: i <= k < |units| ==> units[k] == old(units)[k]
      {
        var u := units[i];
        if u.status == PendingUnit || u.status == RunningUnit {
          units := units[i := u.(status := CancelledUnit)];
        }
        i := i + 1;
      }
    }

    method Close(i: nat, status: Status)
      requires i < |units|
      modifies `units
      ensures units == old(units)[i := Unit(old(units)[i].id, status, Finished)]
    {
      units := units[i := Unit(units[i].id, status, Finished)];
    }

    method Abandon(i: nat)
      requires Valid() && i < |units|
      modifies `units, `cancelRequested, `aborted
      ensures Mem() == Abort(old(Mem()), i, ledger.Abs())
    {
      Close(i, CancelledUnit);
      Cancel(None);
      aborted := true;
    }

    /** First segment of a task. */
    method BeginUnit(i: nat)
      requires Valid() && Enabled(Mem(), BeginSegment(i))
      modifies this, ledger
      ensures Valid()
      ensures var o := Begin(budget, old(Mem()), old(files), i);
        Mem() == o.mem && Disk() == Persisted(old(Disk()), o.durable)
    {
      ghost var journal, disk := ledger.journal, ledger.disk;
      DiskBooks(journal, disk, [], files);
      if cancelRequested {
        Close(i, CancelledUnit);
        return;
      }
      var found := FindFile(units[i].id);
      if found {
        Close(i, DoneUnit);
        return;
      }
      var id := units[i].id;
      if budget.maxQueries.None? {
        units := units[i := Unit(id, RunningUnit, InFlight(0))];
        return;
      }
      ReserveFor(i);
    }

    /** With nothing left under STOP, one query is charged to force the raise. */
    method ChargeProbe(remaining: int) returns (raised: Option<OverrunRecord>)
      requires Valid() && budget.maxQueries.Some? && remaining == Available(budget, ledger.Abs())
      modifies ledger
      ensures Valid()
      ensures var o := Probe(budget, old(ledger.Abs()));
        ledger.Abs() == o.after && raised == o.raised && ledger.journal == old(ledger.journal) + ledger.Durable(o.writes)
    {
      raised := None;
      if remaining <= 0 && budget.policy == Stop {
        raised := ledger.Add(Queries, 1.0);
      }
    }

    /** Reserve a voucher and hand the unit to a worker. */
    method HoldVoucher(i: nat, remaining: int, pending: int)
      requires Valid() && i < |units|
      modifies `units, ledger
      ensures Valid()
      ensures var o := ReserveOutcome(budget, old(ledger.Abs()), remaining, pending);
        ledger.Abs() == o.after && ledger.journal == old(ledger.journal) + o.writes
      ensures var granted := Grant(budget, old(ledger.Abs()), remaining, pending);
        units == old(units)[i := Unit(old(units)[i].id, RunningUnit, InFlight(granted))]
    {
      var granted := ledger.Reserve(remaining, pending);
      units := units[i := Unit(units[i].id, RunningUnit, InFlight(granted))];
    }

    /** Count the units still waiting, this one among them, and probe the ledger. */
    method ProbeFor(i: nat) returns (remaining: int, pending: int, raised: Option<OverrunRecord>)
      requires Valid() && i < |units| && budget.maxQueries.Some?
      modifies `units, ledger
      ensures Valid() && remaining == Available(budget, old(ledger.Abs()))
      ensures units == old(units)[i := Unit(old(units)[i].id, RunningUnit, NotStarted)]
      ensures pending == AtLeast(PendingLeft(units), 1)
      ensures var o := Probe(budget, old(ledger.Abs()));
        ledger.Abs() == o.after && raised == o.raised && ledger.journal == old(ledger.journal) + o.writes
    {
      units := units[i := Unit(units[i].id, RunningUnit, NotStarted)];
      var waiting := CountPending();
      pending := if waiting > 1 then waiting else 1;
      var free := budget.maxQueries.value - ledger.meters.queries - ledger.reserved;
      remaining := if free > 0 then free else 0;
      raised := ChargeProbe(remaining);
    }

    /** The reserving half of the first segment. */
    method ReserveFor(i: nat)
      requires Valid() && Enabled(Mem(), BeginSegment(i)) && Reserves(budget, Mem(), files, i)
      modifies this, ledger
      ensures Valid()
      ensures var o := Begin(budget, old(Mem()), old(files), i);
        Mem() == o.mem && Disk() == Persisted(old(Disk()), o.durable)
    {
      ghost var journal, disk := ledger.journal, ledger.disk;
      ghost var m, probe := Mem(), Probe(budget, ledger.Abs());
      var remaining, pending, raised := ProbeFor(i);
      if raised.Some? {
        BeginRefused(budget, m, files, i);
        DiskBooks(journal, disk, probe.writes, files);
        Abandon(i);
      } else {
        BeginHeld(budget, m, files, i, pending);
        HoldVoucher(i, remaining, pending);
        DiskBooks(journal, disk, probe.writes + ReserveOutcome(budget, probe.after, remaining, pending).writes, files);
      }
    }

    /** Second segment after a worker failure. */
    method FailUnit(i: nat)
      requires Valid() && Enabled(Mem(), FailSegment(i))
      modifies this, ledger
      ensures Valid()
      ensures var o := Fail(old(Mem()), i);
        Mem() == o.mem && Disk() == Persisted(old(Disk()), o.durable)
    {
      ghost var journal, disk := ledger.journal, ledger.disk;
      var voucher := units[i].task.voucher;
      if voucher != 0 {
        ledger.Release(voucher);
      }
      DiskFile(journal, disk, ledger.journal[|journal|..], files, UnitFile(units[i].id, FailedBody));
      files := files + [UnitFile(units[i].id, FailedBody)];
      Close(i, FailedUnit);
    }

    method SettleLedger(r: WorkerResult, release: int) returns (raised: Option<OverrunRecord>)
      requires Valid()
      modifies ledger
      ensures Valid()
      ensures var o := RunUntilRaise(budget, old(ledger.Abs()), SettleOps(r, release));
        ledger.Abs() == o.after && raised == o.raised && ledger.journal == old(ledger.journal) + o.writes
    {
      if r.events != [] {
        raised := MergeVoucher(r, release);
      } else {
        raised := RebuildMeters(r, release);
      }
    }

    /** The handler of BudgetExceeded. */
    method StopRun(i: nat, voucher: int)
      requires Valid() && i < |units|
      modifies this, ledger
      ensures Valid() && files == old(files)
      ensures var leak := Leak(old(ledger.Abs()), voucher);
        Mem() == Abort(old(Mem()), i, leak.after) && ledger.journal == old(ledger.journal) + leak.writes
    {
      if voucher != 0 && ledger.reserved > 0 {
        ledger.Release(voucher);
      }
      Abandon(i);
    }

    /** Flush the ledger, check it against its log, then write the unit file. */
    method BookResult(i: nat, r: WorkerResult)
      requires Valid() && i < |units|
      modifies this, ledger
      ensures Valid() && ledger.journal == old(ledger.journal) + [old(ledger.Abs())]
      ensures var s := old(ledger.Abs());
        var u := old(units)[i];
        if !Consistent(s) then
          && Mem() == old(Mem()).(units := old(units)[i := Unit(u.id, FailedUnit, Finished)])
          && files == old(files) + [UnitFile(u.id, FailedBody)]
        else if r.budgetStopped then
          var limit := if budget.maxQueries.Some? then budget.maxQueries.value else 0;
          var record := OverrunRecord(Queries, limit as real, s.meters.queries as real, budget.policy, true);
          && Mem() == Abort(old(Mem()), i, s.(overruns := s.overruns + [record]))
          && files == old(files) + [UnitFile(u.id, Completed(r))]
        else
          && Mem() == old(Mem()).(units := old(units)[i := Unit(u.id, DoneUnit, Finished)])
          && files == old(files) + [UnitFile(u.id, Completed(r))]
    {
      ledger.Persist();
      var mismatches := ledger.Reconcile();
      if mismatches != [] {
        files := files + [UnitFile(units[i].id, FailedBody)];
        Close(i, FailedUnit);
        return;
      }
      files := files + [UnitFile(units[i].id, Completed(r))];
      if r.budgetStopped {
        var limit := if budget.maxQueries.Some? then budget.maxQueries.value else 0;
        ledger.overruns := ledger.overruns +
          [OverrunRecord(Queries, limit as real, ledger.meters.queries as real, budget.policy, true)];
        Abandon(i);
        return;
      }
      Close(i, DoneUnit);
    }

    /** Second segment after a result: settle, write the spend, then the unit file. */
    method SettleUnit(i: nat, r: WorkerResult)
      requires Valid() && Enabled(Mem(), SettleSegment(i, r))
      modifies this, ledger
      ensures Valid()
      ensures var o := Settle(budget, old(Mem()), i, r);
        Mem() == o.mem && Disk() == Persisted(old(Disk()), o.durable)
    {
      ghost var journal, disk, start, before := ledger.journal, ledger.disk, ledger.Abs(), files;
      var voucher := units[i].task.voucher;
      var release := if r.reportedVoucher != 0 then r.reportedVoucher else voucher;
      ghost var o := RunUntilRaise(budget, start, SettleOps(r, release));
      var raised := SettleLedger(r, release);
      if raised.Some? {
        StopRun(i, voucher);
        assert ledger.journal == journal + (o.writes + Leak(o.after, voucher).writes);
        DiskBooks(journal, disk, o.writes + Leak(o.after, voucher).writes, before);
      } else {
        ghost var id := units[i].id;
        BookResult(i, r);
        assert ledger.journal == journal + (o.writes + [o.after]);
        DiskFile(journal, disk, o.writes + [o.after], before,
                 UnitFile(id, if Consistent(o.after) then Completed(r) else FailedBody));
      }
    }
  }
}
