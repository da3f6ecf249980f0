/**
 The local launcher of src/verifierlab/execution/local.py as a step relation.

 `run_all` interleaves one task per work unit. Between its awaits a task is two
 atomic segments: `Begin` (reserve a voucher and hand the unit to a worker) and
 `Settle` or `Fail` (merge the result and write the unit file). A segment returns
 the memory it leaves and, in order, the durable writes it makes; a crash keeps a
 prefix of them and restarts from the disk.
 */
module Launcher {
  import opened Prelude
  import opened Ledger
  import opened LedgerLaws

  type Handle = string

  datatype Status = PendingUnit | RunningUnit | DoneUnit | CancelledUnit | FailedUnit

  /** Where the coroutine of a unit stands; `InFlight` is the await on the worker. */
  datatype Task = NotStarted | InFlight(voucher: int) | Finished

  datatype Unit = Unit(id: Handle, status: Status, task: Task)

  /** What a worker sends back; a zero field stands for an absent one. */
  datatype WorkerResult = WorkerResult(
    events: seq<Event>,
    reportedVoucher: int,
    queryCount: int,
    invocations: seq<string>,
    stepCount: nat,
    candidates: int,
    computeUnits: real,
    budgetStopped: bool)

  datatype FileBody = Completed(result: WorkerResult) | FailedBody

  datatype UnitFile = UnitFile(id: Handle, body: FileBody)

  /** The coordinator's memory. `aborted`: a BudgetExceeded has left its task. The
      task group then cancels the other tasks, but one that is already scheduled
      may still run its next segment. */
  datatype Memory = Memory(ledger: State, units: seq<Unit>, cancelRequested: bool, aborted: bool)

  /** The run directory: budget_spend.json and the unit files, in writing order. */
  datatype Store = Store(disk: Option<State>, files: seq<UnitFile>)

  datatype Durable = LedgerWrite(snapshot: State) | UnitWrite(file: UnitFile)

  datatype SegmentOutcome = SegmentOutcome(mem: Memory, durable: seq<Durable>)

  // ---------------------------------------------------------------- small readings

  predicate HasFile(files: seq<UnitFile>, id: Handle) {
    exists i :: 0 <= i < |files| && files[i].id == id
  }

  /** The units counted as pending_left: neither done nor cancelled nor failed. */
  function PendingLeft(units: seq<Unit>): nat {
    if units == [] then 0
    else
      var u := units[|units| - 1];
      PendingLeft(units[..|units| - 1]) +
      (if u.status == PendingUnit || u.status == RunningUnit then 1 else 0)
  }

  function CancelAll(units: seq<Unit>): seq<Unit> {
    seq(|units|, i requires 0 <= i < |units| => CancelOne(units[i]))
  }

  function CancelOne(u: Unit): Unit {
    if u.status == PendingUnit || u.status == RunningUnit then u.(status := CancelledUnit) else u
  }

  function QueryCount(r: WorkerResult): int {
    if r.queryCount != 0 then r.queryCount else |r.invocations|
  }

  function LedgerWrites(ws: seq<State>): seq<Durable> {
    seq(|ws|, i requires 0 <= i < |ws| => LedgerWrite(ws[i]))
  }

  // ---------------------------------------------------------------- begin

  /** The first segment of a task: nothing to do, or reserve and dispatch. */
  function Begin(b: Budget, m: Memory, files: seq<UnitFile>, i: nat): SegmentOutcome
    requires i < |m.units|
  {
    var u := m.units[i];
    if m.cancelRequested then
      SegmentOutcome(m.(units := m.units[i := Unit(u.id, CancelledUnit, Finished)]), [])
    else if HasFile(files, u.id) then
      SegmentOutcome(m.(units := m.units[i := Unit(u.id, DoneUnit, Finished)]), [])
    else if b.maxQueries.None? then
      SegmentOutcome(m.(units := m.units[i := Unit(u.id, RunningUnit, InFlight(0))]), [])
    else
      var probe := Probe(b, m.ledger);
      if probe.raised.Some? then
        SegmentOutcome(Abort(m, i, probe.after), LedgerWrites(probe.writes))
      else
        var requested := Available(b, m.ledger);
        var pending := AtLeast(PendingLeft(m.units[i := Unit(u.id, RunningUnit, NotStarted)]), 1);
        var o := ReserveOutcome(b, probe.after, requested, pending);
        var n := Grant(b, probe.after, requested, pending);
        SegmentOutcome(m.(ledger := o.after, units := m.units[i := Unit(u.id, RunningUnit, InFlight(n))]),
                       LedgerWrites(probe.writes + o.writes))
  }

  /** With no capacity left and STOP, a unit first charges one query to force the raise. */
  function Probe(b: Budget, s: State): Outcome
    requires b.maxQueries.Some?
  {
    if Available(b, s) <= 0 && b.policy == Stop then AddOutcome(b, s, Queries, 1.0)
    else Outcome(s, [], None)
  }

  function Abort(m: Memory, i: nat, ledger: State): Memory
    requires i < |m.units|
  {
    m.(ledger := ledger, units := CancelAll(m.units[i := Unit(m.units[i].id, CancelledUnit, Finished)]),
       cancelRequested := true, aborted := true)
  }

  // ---------------------------------------------------------------- settle

  function Maybe(present: bool, op: Op): seq<Op> {
    if present then [op] else []
  }

  function Invocations(payloads: seq<string>): seq<Op> {
    seq(|payloads|, i requires 0 <= i < |payloads| => RecordOp(Provenance("verifier_query", payloads[i])))
  }

  predicate MentionsSteps(events: seq<Event>) {
    exists i :: 0 <= i < |events| && events[i].Spend? && events[i].d == Steps
  }

  /** The ledger calls of the second segment: one merge of the voucher's events, or,
      when the worker sent none, the meters rebuilt one by one. */
  function SettleOps(r: WorkerResult, release: int): seq<Op> {
    if r.events != [] then
      [MergeOp(r.events, if release != 0 then Some(release) else None)] +
      Maybe(!MentionsSteps(r.events) && r.stepCount != 0, AddOp(Steps, r.stepCount as real))
    else
      Maybe(QueryCount(r) != 0, AddOp(Queries, QueryCount(r) as real)) +
      Rest(r) + Maybe(release != 0, ReleaseOp(release))
  }

  function Rest(r: WorkerResult): seq<Op> {
    Invocations(r.invocations) +
    Maybe(r.stepCount != 0, AddOp(Steps, r.stepCount as real)) +
    Maybe(r.candidates != 0, AddOp(Candidates, r.candidates as real)) +
    Maybe(r.computeUnits != 0.0, AddOp(ComputeUnits, r.computeUnits))
  }

  /** Calls in order, up to and including the first that raises. */
  function RunUntilRaise(b: Budget, s: State, ops: seq<Op>): Outcome
    decreases ops
  {
    if ops == [] then Outcome(s, [], None)
    else
      var first := Apply(b, s, ops[0]);
      if first.raised.Some? then first
      else
        var rest := RunUntilRaise(b, first.after, ops[1..]);
        Outcome(rest.after, first.writes + rest.writes, rest.raised)
  }

  function Settle(b: Budget, m: Memory, i: nat, r: WorkerResult): SegmentOutcome
    requires i < |m.units| && m.units[i].task.InFlight?
  {
    var u := m.units[i];
    var v := u.task.voucher;
    var o := RunUntilRaise(b, m.ledger, SettleOps(r, if r.reportedVoucher != 0 then r.reportedVoucher else v));
    if o.raised.Some? then
      var leak := Leak(o.after, v);
      SegmentOutcome(Abort(m, i, leak.after), LedgerWrites(o.writes + leak.writes))
    else if !Consistent(o.after) then
      SegmentOutcome(m.(ledger := o.after, units := m.units[i := Unit(u.id, FailedUnit, Finished)]),
                     LedgerWrites(o.writes + [o.after]) + [UnitWrite(UnitFile(u.id, FailedBody))])
    else
      var durable := LedgerWrites(o.writes + [o.after]) + [UnitWrite(UnitFile(u.id, Completed(r)))];
      if r.budgetStopped then
        var limit := if b.maxQueries.Some? then b.maxQueries.value else 0;
        var record := OverrunRecord(Queries, limit as real, o.after.meters.queries as real, b.policy, true);
        SegmentOutcome(Abort(m, i, o.after.(overruns := o.after.overruns + [record])), durable)
      else
        SegmentOutcome(m.(ledger := o.after, units := m.units[i := Unit(u.id, DoneUnit, Finished)]), durable)
  }

  /** The handler of BudgetExceeded releases the voucher whether or not the merge did. */
  function Leak(s: State, v: int): Outcome {
    if v != 0 && s.reserved > 0 then ReleaseOutcome(s, v) else Outcome(s, [], None)
  }

  /** The worker raised: release the voucher, write a failure file, go on. */
  function Fail(m: Memory, i: nat): SegmentOutcome
    requires i < |m.units| && m.units[i].task.InFlight?
  {
    var u := m.units[i];
    var o := if u.task.voucher != 0 then ReleaseOutcome(m.ledger, u.task.voucher)
             else Outcome(m.ledger, [], None);
    SegmentOutcome(m.(ledger := o.after, units := m.units[i := Unit(u.id, FailedUnit, Finished)]),
                   LedgerWrites(o.writes) + [UnitWrite(UnitFile(u.id, FailedBody))])
  }

  // ---------------------------------------------------------------- the system

  /** `dispatched` logs every hand-over of a unit to a worker, over all restarts. */
  datatype System = System(mem: Memory, store: Store, dispatched: seq<Handle>)

  datatype Segment = BeginSegment(i: nat) | SettleSegment(i: nat, result: WorkerResult) | FailSegment(i: nat)

  /** One scheduling choice. `Crash` may hit between segments or inside one, after
      `kept` of its durable writes; the next coordinator is given `work`. */
  datatype Label =
    | Do(segment: Segment)
    | CancelCall(who: Option<nat>)
    | Crash(during: Option<Segment>, kept: nat, work: seq<Handle>)

  predicate Enabled(m: Memory, g: Segment) {
    g.i < |m.units| &&
    match g
    case BeginSegment(i) => m.units[i].task.NotStarted?
    case SettleSegment(i, _) => m.units[i].task.InFlight?
    case FailSegment(i) => m.units[i].task.InFlight?
  }

  function Perform(b: Budget, y: System, g: Segment): SegmentOutcome
    requires Enabled(y.mem, g)
  {
    match g
    case BeginSegment(i) => Begin(b, y.mem, y.store.files, i)
    case SettleSegment(i, r) => Settle(b, y.mem, i, r)
    case FailSegment(i) => Fail(y.mem, i)
  }

  function Persisted(store: Store, ds: seq<Durable>): Store {
    if ds == [] then store
    else
      var before := Persisted(store, ds[..|ds| - 1]);
      match ds[|ds| - 1]
      case LedgerWrite(s) => before.(disk := Some(s))
      case UnitWrite(f) => before.(files := before.files + [f])
  }

  function Fresh(work: seq<Handle>): seq<Unit> {
    seq(|work|, i requires 0 <= i < |work| => Unit(work[i], PendingUnit, NotStarted))
  }

  /** The meters of the unit files, used when budget_spend.json is missing. */
  function MetersOf(files: seq<UnitFile>): Meters {
    if files == [] then ZERO_METERS
    else
      var m := MetersOf(files[..|files| - 1]);
      match files[|files| - 1].body
      case FailedBody => m
      case Completed(r) =>
        m.(queries := m.queries + r.queryCount, steps := m.steps + r.stepCount,
           candidates := m.candidates + r.candidates, computeUnits := m.computeUnits + r.computeUnits)
  }

  function Rehydrated(store: Store): State {
    if store.disk.Some? then store.disk.value
    else if MetersOf(store.files) == ZERO_METERS then FRESH
    else State(MetersOf(store.files), 0, [], [], false)
  }

  function Restart(y: System, store: Store, work: seq<Handle>): System {
    var s := Rehydrated(store);
    var disk := if store.disk.None? && s != FRESH then Some(s) else store.disk;
    System(Memory(s, Fresh(work), false, false), store.(disk := disk), y.dispatched)
  }

  predicate Distinct(ids: seq<Handle>) {
    forall i, j :: 0 <= i < j < |ids| ==> ids[i] != ids[j]
  }

  /** A label that is not enabled leaves the system as it is. */
  function Step(b: Budget, y: System, l: Label): System {
    match l
    case Do(g) =>
      if !Enabled(y.mem, g) then y
      else
        var o := Perform(b, y, g);
        System(o.mem, Persisted(y.store, o.durable), y.dispatched + Dispatch(y.mem, o.mem, g))
    case CancelCall(who) =>
      if who.None? then y.(mem := y.mem.(units := CancelAll(y.mem.units), cancelRequested := true))
      else if who.value < |y.mem.units| then
        y.(mem := y.mem.(units := y.mem.units[who.value := CancelOne(y.mem.units[who.value])],
                         cancelRequested := true))
      else y
    case Crash(during, kept, work) =>
      if !Distinct(work) then y
      else if during.None? || !Enabled(y.mem, during.value) then Restart(y, y.store, work)
      else
        var o := Perform(b, y, during.value);
        Restart(y.(dispatched := y.dispatched + Dispatch(y.mem, o.mem, during.value)),
                Persisted(y.store, o.durable[..if kept < |o.durable| then kept else |o.durable|]), work)
  }

  function Dispatch(before: Memory, after: Memory, g: Segment): seq<Handle>
    requires g.i < |before.units|
  {
    if g.BeginSegment? && g.i < |after.units| && after.units[g.i].task.InFlight? then [before.units[g.i].id]
    else []
  }

  function Exec(b: Budget, y: System, ls: seq<Label>): System {
    if ls == [] then y else Step(b, Exec(b, y, ls[..|ls| - 1]), ls[|ls| - 1])
  }
}
