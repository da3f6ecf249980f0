/**
 Query capacity across crashes: what a crash inside a segment can do to the capacity the
 next coordinator sees, and when spent plus reserved queries stay within the limit on the
 disk as well as in memory.
 */
module LauncherCapacity {
  import opened Prelude
  import opened Ledger
  import opened LedgerLaws
  import opened Launcher
  import opened LauncherLaws
  import opened LauncherCrash

  /** Queries spent or held back. */
  function Load(s: State): int {
    s.meters.queries + s.reserved
  }

  ghost predicate WithinLimit(b: Budget, s: State) {
    b.maxQueries.Some? ==> Load(s) <= b.maxQueries.value
  }

  ghost predicate SameLoad(s: State, w: State) {
    s.meters.queries == w.meters.queries && s.reserved == w.reserved
  }

  // ---------------------------------------------------------------- the snapshots of a settlement

  ghost predicate AllSame(s: State, o: Outcome) {
    SameLoad(s, o.after) && forall w :: w in o.writes ==> SameLoad(s, w)
  }

  lemma IdleApply(b: Budget, s: State, op: Op)
    requires LeavesReservations(op) && Charge(op, Queries) == 0.0
    ensures AllSame(s, Apply(b, s, op))
  {
    if op.AddOp? {
      ChargeGet(s.meters, op.d, op.amount, Queries);
    }
  }

  lemma {:induction false} IdleRun(b: Budget, s: State, ops: seq<Op>)
    requires forall op :: op in ops ==> LeavesReservations(op) && Charge(op, Queries) == 0.0
    ensures AllSame(s, RunUntilRaise(b, s, ops))
    decreases ops
  {
    if ops != [] {
      IdleApply(b, s, ops[0]);
      IdleRun(b, Apply(b, s, ops[0]).after, ops[1..]);
    }
  }

  /** A merge charges and releases in one write: all its snapshots hold what it ends with. */
  lemma MergedSame(b: Budget, s: State, r: WorkerResult, release: int)
    requires r.events != []
    ensures var o := RunUntilRaise(b, s, SettleOps(r, release)); AllSame(o.after, o)
  {
    var ops := SettleOps(r, release);
    var first := Apply(b, s, ops[0]);
    assert AllSame(first.after, first);
    assert forall op :: op in ops[1..] ==> LeavesReservations(op) && Charge(op, Queries) == 0.0;
    if first.raised.None? {
      IdleRun(b, first.after, ops[1..]);
    }
  }

  /** The rebuilt meters before the release: the queries first, then calls that do not
      touch them. */
  function Rebuild(r: WorkerResult): seq<Op> {
    Maybe(QueryCount(r) != 0, AddOp(Queries, QueryCount(r) as real)) + Rest(r)
  }

  /** Whether the queries of a rebuild are charged at all. */
  predicate Charges(b: Budget, s: State, r: WorkerResult) {
    QueryCount(r) != 0 && !AtLimit(b, s.meters, Queries)
  }

  function Rebuilt(b: Budget, s: State, r: WorkerResult): int {
    s.meters.queries + if Charges(b, s, r) then QueryCount(r) else 0
  }

  /** Every snapshot has the charge in it, and the whole voucher still reserved. */
  ghost predicate AllRebuilt(b: Budget, s: State, r: WorkerResult, o: Outcome) {
    && o.after.meters.queries == Rebuilt(b, s, r) && o.after.reserved == s.reserved
    && forall w :: w in o.writes ==> w.meters.queries == Rebuilt(b, s, r) && w.reserved == s.reserved
  }

  lemma CountApply(b: Budget, s: State, r: WorkerResult)
    requires QueryCount(r) != 0
    ensures AllRebuilt(b, s, r, Apply(b, s, AddOp(Queries, QueryCount(r) as real)))
  {
    WholeCount(QueryCount(r));
  }

  lemma RebuildSnapshots(b: Budget, s: State, r: WorkerResult)
    ensures AllRebuilt(b, s, r, RunUntilRaise(b, s, Rebuild(r)))
    ensures Charges(b, s, r) ==> exists w :: w in RunUntilRaise(b, s, Rebuild(r)).writes
  {
    RestIsQuiet(r);
    if QueryCount(r) == 0 {
      assert Rebuild(r) == Rest(r);
      IdleRun(b, s, Rest(r));
    } else {
      var op := AddOp(Queries, QueryCount(r) as real);
      var first := Apply(b, s, op);
      assert Rebuild(r)[0] == op && Rebuild(r)[1..] == Rest(r);
      CountApply(b, s, r);
      assert first.writes[0] in first.writes;
      if first.raised.None? {
        IdleRun(b, first.after, Rest(r));
        assert first.writes[0] in RunUntilRaise(b, s, Rebuild(r)).writes;
      }
    }
  }

  /** Without events: the rebuild, then the release if the rebuild raised nothing. */
  lemma RebuildThenRelease(b: Budget, s: State, r: WorkerResult, release: int)
    requires r.events == []
    ensures var first := RunUntilRaise(b, s, Rebuild(r));
      var o := RunUntilRaise(b, s, SettleOps(r, release));
      if first.raised.Some? || release == 0 then o == first
      else
        var last := ReleaseState(first.after, release);
        o == Outcome(last, first.writes + [last], None)
  {
    var tail := Maybe(release != 0, ReleaseOp(release));
    RunConcat(b, s, Rebuild(r), tail);
    var first := RunUntilRaise(b, s, Rebuild(r));
    assert SettleOps(r, release) == Rebuild(r) + tail;
    if release != 0 {
      assert tail[1..] == [];
      assert RunUntilRaise(b, first.after, tail).writes == [ReleaseState(first.after, release)];
    } else {
      assert first.writes + [] == first.writes;
    }
  }

  lemma MergedSnapshotsWithin(b: Budget, s: State, r: WorkerResult, v: nat)
    requires r.events != [] && NonNegative(r) && Spent(r, Queries) <= v as real
    requires WithinLimit(b, s) && (b.maxQueries.Some? ==> s.meters.queries + v <= b.maxQueries.value)
    ensures forall w :: w in RunUntilRaise(b, s, SettleOps(r, v)).writes ==> WithinLimit(b, w)
    ensures WithinLimit(b, RunUntilRaise(b, s, SettleOps(r, v)).after)
  {
    MergedSame(b, s, r, v);
    SpentWithin(b, s, r, v, v);
    SettleReserved(b, s, r, v);
  }

  /** A worker that sent no events is charged first and released last. Every snapshot of
      its settlement is within the limit exactly when its queries are refused at the
      limit, or fit beside every voucher, its own included. */
  lemma RebuiltSnapshotsExactly(b: Budget, s: State, r: WorkerResult, v: nat)
    requires r.events == [] && NonNegative(r) && b.maxQueries.Some? && WithinLimit(b, s) && s.reserved >= 0
    ensures (forall w :: w in RunUntilRaise(b, s, SettleOps(r, v)).writes ==> WithinLimit(b, w)) <==>
            AtLimit(b, s.meters, Queries) || QueryCount(r) <= b.maxQueries.value - s.meters.queries - s.reserved
  {
    var first := RunUntilRaise(b, s, Rebuild(r));
    var o := RunUntilRaise(b, s, SettleOps(r, v));
    RebuildSnapshots(b, s, r);
    RebuildThenRelease(b, s, r, v);
    assert forall w :: w in first.writes ==> w in o.writes;
    assert forall w :: w in o.writes ==> w in first.writes || w == ReleaseState(first.after, v);
    if Charges(b, s, r) {
      var w :| w in first.writes;
      assert w in o.writes;
    }
  }

  // ---------------------------------------------------------------- a crash inside a segment

  ghost predicate NoFreer(before: State, w: State, after: State) {
    Load(w) >= Load(before) || Load(w) >= Load(after)
  }

  lemma LessRoom(b: Budget, s: State, w: State)
    requires b.maxQueries.Some? && Load(w) >= Load(s)
    ensures Available(b, w) <= Available(b, s)
  {
  }

  lemma SettleNoFreer(b: Budget, s: State, r: WorkerResult, release: int, w: State)
    requires NonNegative(r) && w in RunUntilRaise(b, s, SettleOps(r, release)).writes
    ensures NoFreer(s, w, RunUntilRaise(b, s, SettleOps(r, release)).after)
  {
    if r.events != [] {
      MergedSame(b, s, r, release);
    } else {
      RebuildSnapshots(b, s, r);
      RebuildThenRelease(b, s, r, release);
    }
  }

  /** Every snapshot among some writes leaves no more capacity than before or than after. */
  ghost predicate NoneFreer(before: State, ds: seq<Durable>, after: State) {
    forall w :: LedgerWrite(w) in ds ==> NoFreer(before, w, after)
  }

  lemma WritesIn(ws: seq<State>, tail: seq<Durable>, w: State)
    requires LedgerWrite(w) in LedgerWrites(ws) + tail && forall d :: d in tail ==> d.UnitWrite?
    ensures w in ws
  {
    var k :| 0 <= k < |LedgerWrites(ws) + tail| && (LedgerWrites(ws) + tail)[k] == LedgerWrite(w);
    if k < |ws| {
      assert ws[k] == w;
    } else {
      assert tail[k - |ws|] in tail;
    }
  }

  lemma SettleSegmentNoneFreer(b: Budget, m: Memory, i: nat, r: WorkerResult)
    requires i < |m.units| && m.units[i].task.InFlight? && NonNegative(r)
    ensures NoneFreer(m.ledger, Settle(b, m, i, r).durable, Settle(b, m, i, r).mem.ledger)
  {
    var v := m.units[i].task.voucher;
    var release := if r.reportedVoucher != 0 then r.reportedVoucher else v;
    var o := RunUntilRaise(b, m.ledger, SettleOps(r, release));
    var after := Settle(b, m, i, r).mem.ledger;
    forall w | LedgerWrite(w) in Settle(b, m, i, r).durable
      ensures NoFreer(m.ledger, w, after)
    {
      if o.raised.Some? {
        var leak := Leak(o.after, v);
        assert LedgerWrites(o.writes + leak.writes) == LedgerWrites(o.writes + leak.writes) + [];
        WritesIn(o.writes + leak.writes, [], w);
        assert Load(leak.after) <= Load(o.after) && after == leak.after;
        assert w in o.writes || w == leak.after;
      } else {
        var unit := if Consistent(o.after) then Completed(r) else FailedBody;
        WritesIn(o.writes + [o.after], [UnitWrite(UnitFile(m.units[i].id, unit))], w);
        assert w in o.writes || w == o.after;
        assert Load(after) == Load(o.after);
      }
      if w in o.writes {
        SettleNoFreer(b, m.ledger, r, release, w);
      }
    }
  }

  lemma BeginNoneFreer(b: Budget, m: Memory, files: seq<UnitFile>, i: nat)
    requires i < |m.units|
    ensures NoneFreer(m.ledger, Begin(b, m, files, i).durable, Begin(b, m, files, i).mem.ledger)
  {
    var o := Begin(b, m, files, i);
    if Reserves(b, m, files, i) {
      var probe := Probe(b, m.ledger);
      var pending := AtLeast(PendingLeft(m.units[i := Unit(m.units[i].id, RunningUnit, NotStarted)]), 1);
      var held := ReserveOutcome(b, probe.after, Available(b, m.ledger), pending);
      forall w | LedgerWrite(w) in o.durable
        ensures NoFreer(m.ledger, w, o.mem.ledger)
      {
        var ws := if probe.raised.Some? then probe.writes else probe.writes + held.writes;
        assert o.durable == LedgerWrites(ws) + [];
        WritesIn(ws, [], w);
      }
    }
  }

  lemma FailNoneFreer(m: Memory, i: nat)
    requires i < |m.units| && m.units[i].task.InFlight?
    ensures NoneFreer(m.ledger, Fail(m, i).durable, Fail(m, i).mem.ledger)
  {
    var ws := if m.units[i].task.voucher != 0 then [Fail(m, i).mem.ledger] else [];
    var tail := [UnitWrite(UnitFile(m.units[i].id, FailedBody))];
    assert Fail(m, i).durable == LedgerWrites(ws) + tail;
    forall w | LedgerWrite(w) in Fail(m, i).durable
      ensures w == Fail(m, i).mem.ledger
    {
      WritesIn(ws, tail, w);
    }
  }

  lemma SegmentNoneFreer(b: Budget, y: System, g: Segment)
    requires Enabled(y.mem, g) && NonNegativeSegment(g)
    ensures NoneFreer(y.mem.ledger, Perform(b, y, g).durable, Perform(b, y, g).mem.ledger)
  {
    match g
    case BeginSegment(i) => BeginNoneFreer(b, y.mem, y.store.files, i);
    case SettleSegment(i, r) => SettleSegmentNoneFreer(b, y.mem, i, r);
    case FailSegment(i) => FailNoneFreer(y.mem, i);
  }

  function Larger(x: int, z: int): int {
    if x > z then x else z
  }

  /** A crash with the restart that follows it never enlarges the available capacity.
      Over every run with crashes: whichever segment the next crash interrupts, and after
      whichever of its writes, the restarted ledger has at most the capacity there was
      before the segment, or at most what the whole segment would have left. */
  lemma CrashFreesNothing(
      b: Budget, y: System, ls: seq<Label>, g: Segment, kept: nat, work: seq<Handle>)
    requires Coherent(y) && b.maxQueries.Some?
    requires forall l :: l in ls ==> NonNegativeLabel(l)
    requires NonNegativeSegment(g) && Distinct(work) && Enabled(Exec(b, y, ls).mem, g)
    ensures var e := Exec(b, y, ls);
      Available(b, Step(b, e, Crash(Some(g), kept, work)).mem.ledger) <=
      Larger(Available(b, e.mem.ledger), Available(b, Perform(b, e, g).mem.ledger))
  {
    var e := Exec(b, y, ls);
    CrashNeverRefunds(b, y, ls);
    var before, o := e.mem.ledger, Perform(b, e, g);
    var s := Step(b, e, Crash(Some(g), kept, work)).mem.ledger;
    CrashCoherent(b, e, Crash(Some(g), kept, work));
    SegmentNoneFreer(b, e, g);
    assert Survives(before, o, s);
    if Load(s) >= Load(before) {
      LessRoom(b, before, s);
    } else {
      LessRoom(b, o.mem.ledger, s);
    }
  }

  // ---------------------------------------------------------------- within the limit across crashes

  ghost predicate Fine(b: Budget, s: State) {
    s.reserved >= 0 && WithinLimit(b, s)
  }

  /** The rebuild of a worker that sent no events is not the one that over-commits. */
  predicate Fits(b: Budget, m: Memory, g: Segment) {
    g.SettleSegment? && g.result.events == [] && b.maxQueries.Some? ==>
      AtLimit(b, m.ledger.meters, Queries) || Load(m.ledger) + QueryCount(g.result) <= b.maxQueries.value
  }

  /** The assumptions of NeverOverCommits, for crashes too: an interrupted worker is
      disciplined and its rebuild fits, and a restart finds room or records overruns. */
  ghost predicate Careful(b: Budget, y: System, l: Label) {
    && NonNegativeLabel(l)
    && match l
       case Do(_) => Disciplined(y.mem, l)
       case CancelCall(_) => true
       case Crash(during, _, work) =>
         && (during.Some? ==> Disciplined(y.mem, Do(during.value)) && Fits(b, y.mem, during.value))
         && (Distinct(work) ==> Capacity(b, Step(b, y, l)))
  }

  ghost predicate CarefulRun(b: Budget, y: System, ls: seq<Label>) {
    ls == [] || (CarefulRun(b, y, ls[..|ls| - 1]) && Careful(b, Exec(b, y, ls[..|ls| - 1]), ls[|ls| - 1]))
  }

  /** What is reserved without a voucher in flight: a restart finds all of it on the disk. */
  function BaseAfter(b: Budget, y: System, base: int, ls: seq<Label>): int {
    if ls == [] then base
    else if ls[|ls| - 1].Crash? && Distinct(ls[|ls| - 1].work) then Exec(b, y, ls).mem.ledger.reserved
    else BaseAfter(b, y, base, ls[..|ls| - 1])
  }

  lemma SettledFine(b: Budget, base: int, m: Memory, i: nat, r: WorkerResult, w: State)
    requires Committed(b, base, m) && i < |m.units| && m.units[i].task.InFlight?
    requires Disciplined(m, Do(SettleSegment(i, r))) && Fits(b, m, SettleSegment(i, r))
    requires var o := RunUntilRaise(b, m.ledger, SettleOps(r, m.units[i].task.voucher));
      w == o.after || w in o.writes
    ensures Fine(b, w)
  {
    var v := m.units[i].task.voucher;
    assert m.units[i] in m.units;
    assert Voucher(m.units[i]) == v;
    OutstandingAtLeast(m.units, i);
    if r.events != [] {
      MergedSame(b, m.ledger, r, v);
      MergedSnapshotsWithin(b, m.ledger, r, v);
      SettleReserved(b, m.ledger, r, v);
    } else {
      RebuildSnapshots(b, m.ledger, r);
      RebuildThenRelease(b, m.ledger, r, v);
    }
  }

  lemma SettleSnapshotFine(b: Budget, base: int, m: Memory, i: nat, r: WorkerResult, w: State)
    requires Committed(b, base, m) && i < |m.units| && m.units[i].task.InFlight?
    requires Disciplined(m, Do(SettleSegment(i, r))) && Fits(b, m, SettleSegment(i, r))
    requires LedgerWrite(w) in Settle(b, m, i, r).durable
    ensures Fine(b, w)
  {
    var v := m.units[i].task.voucher;
    assert m.units[i] in m.units;
    assert (if r.reportedVoucher != 0 then r.reportedVoucher else v) == v;
    var o := RunUntilRaise(b, m.ledger, SettleOps(r, v));
    SettleWrites(b, m, i, r, w);
    if w in o.writes || w == o.after {
      SettledFine(b, base, m, i, r, w);
    } else {
      SettledFine(b, base, m, i, r, o.after);
    }
  }

  /** A snapshot of a settlement is one of its calls', the books after them, or the
      handler's second release. */
  lemma SettleWrites(b: Budget, m: Memory, i: nat, r: WorkerResult, w: State)
    requires i < |m.units| && m.units[i].task.InFlight?
    requires LedgerWrite(w) in Settle(b, m, i, r).durable
    ensures var v := m.units[i].task.voucher;
      var o := RunUntilRaise(b, m.ledger, SettleOps(r, if r.reportedVoucher != 0 then r.reportedVoucher else v));
      w in o.writes || w == o.after || w == ReleaseState(o.after, v)
  {
    var v := m.units[i].task.voucher;
    var o := RunUntilRaise(b, m.ledger, SettleOps(r, if r.reportedVoucher != 0 then r.reportedVoucher else v));
    if o.raised.Some? {
      var leak := Leak(o.after, v);
      assert LedgerWrites(o.writes + leak.writes) == LedgerWrites(o.writes + leak.writes) + [];
      WritesIn(o.writes + leak.writes, [], w);
    } else {
      var unit := if Consistent(o.after) then Completed(r) else FailedBody;
      WritesIn(o.writes + [o.after], [UnitWrite(UnitFile(m.units[i].id, unit))], w);
    }
  }

  lemma BeginSnapshotFine(b: Budget, base: int, y: System, i: nat, w: State)
    requires Sound(b, base, y) && Enabled(y.mem, BeginSegment(i))
    requires LedgerWrite(w) in Perform(b, y, BeginSegment(i)).durable
    ensures Fine(b, w)
  {
    var m, files := y.mem, y.store.files;
    BeginSound(b, base, y, i);
    VouchersNonNegative(Step(b, y, Do(BeginSegment(i))).mem.units);
    NoProbe(b, m, files, i);
    var pending := AtLeast(PendingLeft(m.units[i := Unit(m.units[i].id, RunningUnit, NotStarted)]), 1);
    var held := ReserveOutcome(b, m.ledger, Available(b, m.ledger), pending);
    assert Perform(b, y, BeginSegment(i)).durable == LedgerWrites(held.writes) + [];
    WritesIn(held.writes, [], w);
  }

  lemma FailSnapshotFine(b: Budget, base: int, m: Memory, i: nat, w: State)
    requires Committed(b, base, m) && i < |m.units| && m.units[i].task.InFlight?
    requires LedgerWrite(w) in Fail(m, i).durable
    ensures Fine(b, w)
  {
    var ws := if m.units[i].task.voucher != 0 then [Fail(m, i).mem.ledger] else [];
    var tail := [UnitWrite(UnitFile(m.units[i].id, FailedBody))];
    assert Fail(m, i).durable == LedgerWrites(ws) + tail;
    WritesIn(ws, tail, w);
    VouchersNonNegative(m.units);
  }

  lemma SnapshotFine(b: Budget, base: int, y: System, g: Segment, w: State)
    requires Sound(b, base, y) && Enabled(y.mem, g) && Disciplined(y.mem, Do(g)) && Fits(b, y.mem, g)
    requires LedgerWrite(w) in Perform(b, y, g).durable
    ensures Fine(b, w)
  {
    match g
    case BeginSegment(i) => BeginSnapshotFine(b, base, y, i, w);
    case SettleSegment(i, r) => SettleSnapshotFine(b, base, y.mem, i, r, w);
    case FailSegment(i) => FailSnapshotFine(b, base, y.mem, i, w);
  }

  lemma CommittedFine(b: Budget, base: int, m: Memory)
    requires Committed(b, base, m)
    ensures Fine(b, m.ledger)
  {
  }

  lemma RestartCommits(b: Budget, m: Memory, work: seq<Handle>)
    requires m.units == Fresh(work) && !m.aborted && Fine(b, m.ledger)
    ensures Committed(b, m.ledger.reserved, m)
  {
    IdleOutstanding(m.units);
  }

  lemma CrashFine(b: Budget, base: int, y: System, l: Label)
    requires Coherent(y) && Sound(b, base, y) && Careful(b, y, l) && l.Crash? && Distinct(l.work)
    ensures Fine(b, Step(b, y, l).mem.ledger)
  {
    CommittedFine(b, base, y.mem);
    if l.during.None? || !Enabled(y.mem, l.during.value) {
      RestartCoherent(y, y.store, l.work, y.mem.ledger);
    } else {
      var g, s := l.during.value, Step(b, y, l).mem.ledger;
      var o := Perform(b, y, g);
      CrashCoherent(b, y, l);
      StepSound(b, base, y, Do(g));
      CommittedFine(b, base, o.mem);
      if !SameBooks(s, y.mem.ledger) && !SameBooks(s, o.mem.ledger) {
        var w :| LedgerWrite(w) in o.durable && SameBooks(s, w);
        SnapshotFine(b, base, y, g, w);
      }
    }
  }

  /** NeverOverCommits with crashes. Over every run of segments, cancellations and
      crashes, inside a segment or between two, spent plus reserved queries stay within
      the limit in memory and on the disk; and up to the first BudgetExceeded of each
      coordinator its reservations are what it found on the disk plus its vouchers. */
  lemma {:induction false} NeverOverCommitsAcrossCrashes(b: Budget, y: System, base: int, ls: seq<Label>)
    requires Coherent(y) && Sound(b, base, y) && CarefulRun(b, y, ls)
    ensures var e := Exec(b, y, ls);
      && Coherent(e) && Sound(b, BaseAfter(b, y, base, ls), e)
      && WithinLimit(b, e.mem.ledger)
      && (e.store.disk.Some? ==> WithinLimit(b, e.store.disk.value))
      && (!e.mem.aborted ==> e.mem.ledger.reserved == BaseAfter(b, y, base, ls) + Outstanding(e.mem.units))
  {
    if ls != [] {
      var front, l := ls[..|ls| - 1], ls[|ls| - 1];
      var before, held := Exec(b, y, front), BaseAfter(b, y, base, front);
      NeverOverCommitsAcrossCrashes(b, y, base, front);
      StepCoherent(b, before, l);
      if !l.Crash? {
        StepSound(b, held, before, l);
      } else if Distinct(l.work) {
        CrashFine(b, held, before, l);
        RestartCommits(b, Step(b, before, l).mem, l.work);
      }
    }
    CommittedFine(b, BaseAfter(b, y, base, ls), Exec(b, y, ls).mem);
  }

  // ---------------------------------------------------------------- capacity lost to crashes

  /** The voucher of the unit a crash interrupts; it may or may not be back. */
  function Interrupted(m: Memory, during: Option<Segment>): int {
    if during.Some? && Enabled(m, during.value) then Voucher(m.units[during.value.i]) else 0
  }

  /** What a crash leaves reserved although nobody works on it: every other voucher. */
  function LostAt(m: Memory, l: Label): int {
    if l.Crash? && Distinct(l.work) then Outstanding(m.units) - Interrupted(m, l.during) else 0
  }

  function Lost(b: Budget, y: System, ls: seq<Label>): int {
    if ls == [] then 0
    else Lost(b, y, ls[..|ls| - 1]) + LostAt(Exec(b, y, ls[..|ls| - 1]).mem, ls[|ls| - 1])
  }

  /** No BudgetExceeded has been raised, nor was about to be: its handler may release
      what is not its own, as AbortReleasesOnceExactly says. */
  ghost predicate Calm(b: Budget, y: System, l: Label) {
    && !y.mem.aborted
    && (l.Crash? && l.during.Some? && Enabled(y.mem, l.during.value) ==> !Perform(b, y, l.during.value).mem.aborted)
  }

  ghost predicate CalmRun(b: Budget, y: System, ls: seq<Label>) {
    ls == [] || (CalmRun(b, y, ls[..|ls| - 1]) && Calm(b, Exec(b, y, ls[..|ls| - 1]), ls[|ls| - 1]))
  }

  predicate BetweenSegments(l: Label) {
    l.Crash? ==> l.during.None?
  }

  lemma SettledReserves(b: Budget, s: State, r: WorkerResult, v: nat, w: State)
    requires var o := RunUntilRaise(b, s, SettleOps(r, v)); w == o.after || w in o.writes
    ensures w.reserved >= s.reserved - v
  {
    if r.events != [] {
      MergedSame(b, s, r, v);
      SettleReserved(b, s, r, v);
    } else {
      RebuildSnapshots(b, s, r);
      RebuildThenRelease(b, s, r, v);
    }
  }

  lemma SettleSnapshotReserves(b: Budget, base: int, m: Memory, i: nat, r: WorkerResult, w: State)
    requires Committed(b, base, m) && i < |m.units| && m.units[i].task.InFlight?
    requires Disciplined(m, Do(SettleSegment(i, r))) && !m.aborted && !Settle(b, m, i, r).mem.aborted
    requires LedgerWrite(w) in Settle(b, m, i, r).durable
    ensures w.reserved >= base + Outstanding(m.units) - Voucher(m.units[i])
  {
    var v := m.units[i].task.voucher;
    assert m.units[i] in m.units && Voucher(m.units[i]) == v;
    assert (if r.reportedVoucher != 0 then r.reportedVoucher else v) == v;
    var o := RunUntilRaise(b, m.ledger, SettleOps(r, v));
    assert o.raised.None?;
    var unit := if Consistent(o.after) then Completed(r) else FailedBody;
    WritesIn(o.writes + [o.after], [UnitWrite(UnitFile(m.units[i].id, unit))], w);
    SettledReserves(b, m.ledger, r, v, w);
  }

  lemma BeginSnapshotIsLast(b: Budget, y: System, i: nat, w: State)
    requires Enabled(y.mem, BeginSegment(i)) && Capacity(b, y)
    requires LedgerWrite(w) in Perform(b, y, BeginSegment(i)).durable
    ensures w == Perform(b, y, BeginSegment(i)).mem.ledger
  {
    var m, files := y.mem, y.store.files;
    NoProbe(b, m, files, i);
    var pending := AtLeast(PendingLeft(m.units[i := Unit(m.units[i].id, RunningUnit, NotStarted)]), 1);
    var held := ReserveOutcome(b, m.ledger, Available(b, m.ledger), pending);
    assert Perform(b, y, BeginSegment(i)).durable == LedgerWrites(held.writes) + [];
    WritesIn(held.writes, [], w);
  }

  lemma FailSnapshotIsLast(m: Memory, i: nat, w: State)
    requires i < |m.units| && m.units[i].task.InFlight? && LedgerWrite(w) in Fail(m, i).durable
    ensures w == Fail(m, i).mem.ledger
  {
    var ws := if m.units[i].task.voucher != 0 then [Fail(m, i).mem.ledger] else [];
    var tail := [UnitWrite(UnitFile(m.units[i].id, FailedBody))];
    assert Fail(m, i).durable == LedgerWrites(ws) + tail;
    WritesIn(ws, tail, w);
  }

  /** The whole segment gives back its own voucher and no other. */
  lemma WholeSegmentReserves(b: Budget, base: int, y: System, g: Segment)
    requires Sound(b, base, y) && Enabled(y.mem, g) && Disciplined(y.mem, Do(g))
    requires !y.mem.aborted && !Perform(b, y, g).mem.aborted
    ensures Perform(b, y, g).mem.ledger.reserved >= base + Outstanding(y.mem.units) - Voucher(y.mem.units[g.i])
  {
    var m, m' := y.mem, Perform(b, y, g).mem;
    StepSound(b, base, y, Do(g));
    assert m'.units[g.i] in m'.units;
    SegmentReplaces(b, y, g);
    UpdateSums(m.units, g.i, m'.units[g.i], []);
  }

  lemma SegmentReplaces(b: Budget, y: System, g: Segment)
    requires Enabled(y.mem, g) && !y.mem.aborted && !Perform(b, y, g).mem.aborted
    ensures var m' := Perform(b, y, g).mem;
      |m'.units| == |y.mem.units| && m'.units == y.mem.units[g.i := m'.units[g.i]]
  {
  }

  lemma SnapshotReserves(b: Budget, base: int, y: System, g: Segment, w: State)
    requires Sound(b, base, y) && Enabled(y.mem, g) && Disciplined(y.mem, Do(g))
    requires !y.mem.aborted && !Perform(b, y, g).mem.aborted
    requires LedgerWrite(w) in Perform(b, y, g).durable
    ensures w.reserved >= base + Outstanding(y.mem.units) - Voucher(y.mem.units[g.i])
  {
    WholeSegmentReserves(b, base, y, g);
    match g
    case BeginSegment(i) => BeginSnapshotIsLast(b, y, i, w);
    case SettleSegment(i, r) => SettleSnapshotReserves(b, base, y.mem, i, r, w);
    case FailSegment(i) => FailSnapshotIsLast(y.mem, i, w);
  }

  /** One crash: all vouchers in flight stay reserved, but for the interrupted one. */
  lemma CrashLoses(b: Budget, base: int, y: System, l: Label)
    requires Coherent(y) && Sound(b, base, y) && Careful(b, y, l) && Calm(b, y, l) && l.Crash? && Distinct(l.work)
    ensures Step(b, y, l).mem.ledger.reserved >= base + LostAt(y.mem, l)
    ensures l.during.None? ==> Step(b, y, l).mem.ledger.reserved == base + LostAt(y.mem, l)
  {
    var s := Step(b, y, l).mem.ledger;
    if l.during.None? || !Enabled(y.mem, l.during.value) {
      RestartCoherent(y, y.store, l.work, y.mem.ledger);
    } else {
      var g := l.during.value;
      var o := Perform(b, y, g);
      assert y.mem.units[g.i] in y.mem.units;
      CrashCoherent(b, y, l);
      WholeSegmentReserves(b, base, y, g);
      if !SameBooks(s, y.mem.ledger) && !SameBooks(s, o.mem.ledger) {
        var w :| LedgerWrite(w) in o.durable && SameBooks(s, w);
        SnapshotReserves(b, base, y, g, w);
      }
    }
  }

  /** Over every run of careful segments, cancellations and crashes in which no
      BudgetExceeded is raised, whatever was in flight at a crash stays reserved through
      all later work and all later crashes: each one takes at least the vouchers of the
      units it does not interrupt, and exactly the vouchers in flight if it falls between
      segments. */
  lemma {:induction false} VouchersLost(b: Budget, y: System, base: int, ls: seq<Label>)
    requires Coherent(y) && Sound(b, base, y) && CarefulRun(b, y, ls) && CalmRun(b, y, ls)
    ensures BaseAfter(b, y, base, ls) >= base + Lost(b, y, ls)
    ensures (forall l :: l in ls ==> BetweenSegments(l)) ==> BaseAfter(b, y, base, ls) == base + Lost(b, y, ls)
  {
    if ls != [] {
      var front, l := ls[..|ls| - 1], ls[|ls| - 1];
      assert l in ls && forall k :: k in front ==> k in ls;
      VouchersLost(b, y, base, front);
      LastLoses(b, y, base, ls);
    }
  }

  lemma LastLoses(b: Budget, y: System, base: int, ls: seq<Label>)
    requires ls != [] && Coherent(y) && Sound(b, base, y) && CarefulRun(b, y, ls) && CalmRun(b, y, ls)
    ensures var front, l := ls[..|ls| - 1], ls[|ls| - 1];
      var loss := LostAt(Exec(b, y, front).mem, l);
      && BaseAfter(b, y, base, ls) >= BaseAfter(b, y, base, front) + loss
      && (BetweenSegments(l) ==> BaseAfter(b, y, base, ls) == BaseAfter(b, y, base, front) + loss)
  {
    var front, l := ls[..|ls| - 1], ls[|ls| - 1];
    NeverOverCommitsAcrossCrashes(b, y, base, front);
    if l.Crash? && Distinct(l.work) {
      CrashLoses(b, BaseAfter(b, y, base, front), Exec(b, y, front), l);
    }
  }

  /** So the capacity lost to crashes is lost for good. */
  lemma LostForGood(b: Budget, y: System, base: int, ls: seq<Label>)
    requires Coherent(y) && Sound(b, base, y) && CarefulRun(b, y, ls) && CalmRun(b, y, ls)
    requires !Exec(b, y, ls).mem.aborted
    ensures HoldsBack(b, Exec(b, y, ls).mem.ledger, base + Lost(b, y, ls))
  {
    CommittedLoss(b, y, base, ls);
    HeldBack(b, BaseAfter(b, y, base, ls), Exec(b, y, ls).mem, base + Lost(b, y, ls));
  }

  /** At least `held` queries are reserved, and not available. */
  ghost predicate HoldsBack(b: Budget, s: State, held: int) {
    && s.reserved >= held
    && (b.maxQueries.Some? ==> Available(b, s) <= Larger(0, b.maxQueries.value - s.meters.queries - held))
  }

  lemma CommittedLoss(b: Budget, y: System, base: int, ls: seq<Label>)
    requires Coherent(y) && Sound(b, base, y) && CarefulRun(b, y, ls) && CalmRun(b, y, ls)
    ensures Committed(b, BaseAfter(b, y, base, ls), Exec(b, y, ls).mem)
    ensures BaseAfter(b, y, base, ls) >= base + Lost(b, y, ls)
  {
    NeverOverCommitsAcrossCrashes(b, y, base, ls);
    VouchersLost(b, y, base, ls);
  }

  lemma HeldBack(b: Budget, base: int, m: Memory, held: int)
    requires Committed(b, base, m) && !m.aborted && base >= held
    ensures HoldsBack(b, m.ledger, held)
  {
    VouchersNonNegative(m.units);
  }

  // ---------------------------------------------------------------- runs that pass the limit

  lemma ExecTwo(b: Budget, y: System, l: Label, k: Label)
    ensures Exec(b, y, [l, k]) == Step(b, Step(b, y, l), k)
  {
    assert [l, k][..1] == [l] && [l][..0] == [];
    assert Exec(b, y, [l]) == Step(b, y, l);
  }

  lemma ExecThree(b: Budget, y: System, l: Label, k: Label, h: Label)
    ensures Exec(b, y, [l, k, h]) == Step(b, Step(b, Step(b, y, l), k), h)
  {
    assert [l, k, h][..2] == [l, k];
    ExecTwo(b, y, l, k);
  }

  lemma {:induction false} AllWaiting(units: seq<Unit>)
    requires forall u :: u in units ==> u.status == PendingUnit || u.status == RunningUnit
    ensures PendingLeft(units) == |units|
  {
    if units != [] {
      assert units[|units| - 1] in units;
      AllWaiting(units[..|units| - 1]);
    }
  }

  /** While there is a query left, but no more than one for each unit, a voucher is worth
      exactly one. */
  lemma BeginTakesOne(b: Budget, m: Memory, i: nat)
    requires i < |m.units| && m.units[i].task.NotStarted? && !m.cancelRequested
    requires forall u :: u in m.units ==> u.status == PendingUnit || u.status == RunningUnit
    requires b.maxQueries.Some? && 1 <= Available(b, m.ledger) <= |m.units|
    ensures var o := Begin(b, m, [], i);
      && o.mem.ledger.meters == m.ledger.meters && o.mem.ledger.reserved == m.ledger.reserved + 1
      && o.mem == m.(ledger := o.mem.ledger, units := m.units[i := Unit(m.units[i].id, RunningUnit, InFlight(1))])
      && o.durable == LedgerWrites([o.mem.ledger])
  {
    var waiting := m.units[i := Unit(m.units[i].id, RunningUnit, NotStarted)];
    AllWaiting(waiting);
    var probe := Probe(b, m.ledger);
    assert probe == Outcome(m.ledger, [], None);
    ShareOfOne(Available(b, m.ledger), |m.units|);
    assert Grant(b, m.ledger, Available(b, m.ledger), |m.units|) == 1;
  }

  lemma ShareOfOne(avail: int, pending: int)
    requires 1 <= avail <= pending
    ensures AtMost(AtMost(avail, AtLeast(avail / pending, 1)), avail) == 1
  {
    if avail < pending {
      assert avail / pending == 0;
    } else {
      assert avail / pending == 1;
    }
  }

  const TWO_QUERIES := Budget(Some(2), None, None, None, None, None, Stop)

  function Started(work: seq<Handle>): System {
    System(Memory(FRESH, Fresh(work), false, false), Store(None, []), [])
  }

  /** After the first two of some units have begun under a limit of two queries. */
  ghost predicate TwoBegun(y: System, work: seq<Handle>)
    requires |work| >= 2
  {
    && y.mem.ledger.meters == ZERO_METERS && y.mem.ledger.reserved == 2
    && !y.mem.cancelRequested && !y.mem.aborted
    && y.mem.units == Fresh(work)[0 := Unit(work[0], RunningUnit, InFlight(1))][1 := Unit(work[1], RunningUnit, InFlight(1))]
    && y.store.files == []
  }

  lemma BeginTwo(work: seq<Handle>)
    requires |work| >= 2
    ensures TwoBegun(Exec(TWO_QUERIES, Started(work), [Do(BeginSegment(0)), Do(BeginSegment(1))]), work)
  {
    var b, y := TWO_QUERIES, Started(work);
    ExecTwo(b, y, Do(BeginSegment(0)), Do(BeginSegment(1)));
    BeginTakesOne(b, y.mem, 0);
    var y1 := Step(b, y, Do(BeginSegment(0)));
    PersistedLedger(y.store, [y1.mem.ledger]);
    BeginTakesOne(b, y1.mem, 1);
    PersistedLedger(y1.store, [Begin(b, y1.mem, [], 1).mem.ledger]);
  }

  /** ReservationOvercommitsExactly at work: of three units on a limit of two queries the
      third begins while the others hold both, and spent plus reserved is three. */
  lemma ForcedQueryPassesTheLimit(work: seq<Handle>)
    requires |work| == 3
    ensures var e := Exec(TWO_QUERIES, Started(work), [Do(BeginSegment(0)), Do(BeginSegment(1)), Do(BeginSegment(2))]);
      e.mem.ledger.meters.queries == 1 && e.mem.ledger.reserved == 2 && !WithinLimit(TWO_QUERIES, e.mem.ledger)
  {
    var b, y := TWO_QUERIES, Started(work);
    ExecTwo(b, y, Do(BeginSegment(0)), Do(BeginSegment(1)));
    ExecThree(b, y, Do(BeginSegment(0)), Do(BeginSegment(1)), Do(BeginSegment(2)));
    BeginTwo(work);
    var m := Exec(b, y, [Do(BeginSegment(0)), Do(BeginSegment(1))]).mem;
    ForcedQuery(b, m, 2);
  }

  lemma ForcedQuery(b: Budget, m: Memory, i: nat)
    requires b == TWO_QUERIES && i < |m.units| && m.units[i].task.NotStarted? && !m.cancelRequested
    requires m.ledger.meters == ZERO_METERS && m.ledger.reserved == 2
    ensures var s := Begin(b, m, [], i).mem.ledger; s.meters.queries == 1 && s.reserved == 2
  {
    var probe := Probe(b, m.ledger);
    WholeCount(1);
    assert Available(b, m.ledger) == 0;
    assert probe.raised.None? && probe.after.meters.queries == 1 && probe.after.reserved == 2;
    assert Available(b, probe.after) == 0;
  }

  /** RebuiltSnapshotsExactly at work: two units hold both queries, the first reports one
      query and no events, and a crash after the first write of its settlement leaves
      three queries spent or reserved for the next coordinator to find. */
  lemma InterruptedRebuildPassesTheLimit(work: seq<Handle>, rest: seq<Handle>)
    requires |work| == 2 && Distinct(rest)
    ensures var r := WorkerResult([], 0, 1, [], 0, 0, 0.0, false);
      var e := Exec(TWO_QUERIES, Started(work),
                    [Do(BeginSegment(0)), Do(BeginSegment(1)), Crash(Some(SettleSegment(0, r)), 1, rest)]);
      && e.mem.ledger.meters.queries == 1 && e.mem.ledger.reserved == 2
      && e.store.disk == Some(e.mem.ledger) && !WithinLimit(TWO_QUERIES, e.mem.ledger)
  {
    var b, y := TWO_QUERIES, Started(work);
    var r := WorkerResult([], 0, 1, [], 0, 0, 0.0, false);
    var crash := Crash(Some(SettleSegment(0, r)), 1, rest);
    ExecTwo(b, y, Do(BeginSegment(0)), Do(BeginSegment(1)));
    ExecThree(b, y, Do(BeginSegment(0)), Do(BeginSegment(1)), crash);
    BeginTwo(work);
    var y2 := Exec(b, y, [Do(BeginSegment(0)), Do(BeginSegment(1))]);
    var s := FirstSnapshot(b, y2, r);
    var o := Perform(b, y2, SettleSegment(0, r));
    assert o.durable[..1] == LedgerWrites([s]);
    PersistedLedger(y2.store, [s]);
  }

  lemma FirstSnapshot(b: Budget, y: System, r: WorkerResult) returns (s: State)
    requires b == TWO_QUERIES && y.mem.units != [] && y.mem.units[0].task == InFlight(1)
    requires y.mem.ledger.meters == ZERO_METERS && y.mem.ledger.reserved == 2
    requires r == WorkerResult([], 0, 1, [], 0, 0, 0.0, false)
    ensures var o := Settle(b, y.mem, 0, r); o.durable != [] && o.durable[0] == LedgerWrite(s)
    ensures s.meters.queries == 1 && s.reserved == 2
  {
    RebuildThenRelease(b, y.mem.ledger, r, 1);
    RebuildSnapshots(b, y.mem.ledger, r);
    var first := RunUntilRaise(b, y.mem.ledger, Rebuild(r));
    s := first.writes[0];
    assert s in first.writes;
  }
}
