/**
 Safety of the launcher over every interleaving of its segments: vouchers never
 over-commit the query budget, the reservation counter is the sum of the vouchers
 in flight, and no unit is starved.
 */
module LauncherLaws {
  import opened Prelude
  import opened Ledger
  import opened LedgerLaws
  import opened Launcher

  // ---------------------------------------------------------------- what one settlement does

  /** What a worker's result claims of each dimension: the total of its events, with the
      steps of its trajectory where no event counts steps; without events the fields. */
  function Spent(r: WorkerResult, d: Dimension): real {
    if r.events != [] then
      Total(r.events, d) + (if d == Steps && !MentionsSteps(r.events) then r.stepCount as real else 0.0)
    else
      match d
      case Queries => QueryCount(r) as real
      case Steps => r.stepCount as real
      case Candidates => r.candidates as real
      case ComputeUnits => r.computeUnits
      case Tokens => 0.0
      case CostUsd => 0.0
  }

  /** A worker that reports only non-negative amounts. */
  ghost predicate NonNegative(r: WorkerResult) {
    && (forall e: Event :: e in r.events && e.Spend? ==> e.amount >= 0.0)
    && r.queryCount >= 0 && r.candidates >= 0 && r.computeUnits >= 0.0
  }

  function Charge(op: Op, d: Dimension): real {
    match op
    case AddOp(e, amount) => if e == d then Charged(d, amount) else 0.0
    case MergeOp(batch, _) => Total(batch, d)
    case _ => 0.0
  }

  function ChargeSum(ops: seq<Op>, d: Dimension): real {
    if ops == [] then 0.0 else Charge(ops[0], d) + ChargeSum(ops[1..], d)
  }

  lemma {:induction false} ChargeSumConcat(xs: seq<Op>, ys: seq<Op>, d: Dimension)
    ensures ChargeSum(xs + ys, d) == ChargeSum(xs, d) + ChargeSum(ys, d)
  {
    if xs == [] {
      assert xs + ys == ys;
    } else {
      assert (xs + ys)[1..] == xs[1..] + ys;
      ChargeSumConcat(xs[1..], ys, d);
    }
  }

  lemma {:induction false} ChargeSumZero(ops: seq<Op>, d: Dimension)
    requires forall op :: op in ops ==> Charge(op, d) == 0.0
    ensures ChargeSum(ops, d) == 0.0
  {
    if ops != [] {
      ChargeSumZero(ops[1..], d);
    }
  }

  ghost predicate Gentle(op: Op) {
    HonestOp(op) && Spends(op)
  }

  lemma ApplyCharges(b: Budget, s: State, op: Op, d: Dimension)
    requires Gentle(op)
    ensures var after := Apply(b, s, op).after.meters.Get(d);
      s.meters.Get(d) <= after <= s.meters.Get(d) + Charge(op, d)
    ensures Apply(b, s, op).raised.None? ==>
      Apply(b, s, op).after.meters.Get(d) == s.meters.Get(d) + Charge(op, d)
  {
    match op
    case AddOp(e, amount) => ChargeGet(s.meters, e, amount, d);
    case MergeOp(batch, _) =>
      BatchTotals(s, batch, d);
      BatchClimbs(s, batch);
      assert s.meters.Get(d) <= ApplyBatch(s, batch).meters.Get(d);
    case _ =>
  }

  /** In every dimension a settlement charges at most what its calls name, and all of it
      if none raises. */
  lemma {:induction false} RunCharges(b: Budget, s: State, ops: seq<Op>, d: Dimension)
    requires forall op :: op in ops ==> Gentle(op)
    ensures var after := RunUntilRaise(b, s, ops).after.meters.Get(d);
      s.meters.Get(d) <= after <= s.meters.Get(d) + ChargeSum(ops, d)
    ensures RunUntilRaise(b, s, ops).raised.None? ==>
      RunUntilRaise(b, s, ops).after.meters.Get(d) == s.meters.Get(d) + ChargeSum(ops, d)
    decreases ops
  {
    if ops != [] {
      ApplyCharges(b, s, ops[0], d);
      RunCharges(b, Apply(b, s, ops[0]).after, ops[1..], d);
      ChargesNonNegative(b, ops[1..], d);
    }
  }

  lemma {:induction false} ChargesNonNegative(b: Budget, ops: seq<Op>, d: Dimension)
    requires forall op :: op in ops ==> Gentle(op)
    ensures ChargeSum(ops, d) >= 0.0
  {
    if ops != [] {
      ApplyCharges(b, FRESH, ops[0], d);
      ChargesNonNegative(b, ops[1..], d);
    }
  }

  lemma {:induction false} RunConcat(b: Budget, s: State, xs: seq<Op>, ys: seq<Op>)
    ensures var first := RunUntilRaise(b, s, xs);
      var all := RunUntilRaise(b, s, xs + ys);
      if first.raised.Some? then all == first
      else
        var second := RunUntilRaise(b, first.after, ys);
        all == Outcome(second.after, first.writes + second.writes, second.raised)
    decreases xs
  {
    if xs == [] {
      assert xs + ys == ys;
      var second := RunUntilRaise(b, s, ys);
      assert [] + second.writes == second.writes;
    } else {
      assert (xs + ys)[1..] == xs[1..] + ys;
      var o := Apply(b, s, xs[0]);
      RunConcat(b, o.after, xs[1..], ys);
      if o.raised.None? && RunUntilRaise(b, o.after, xs[1..]).raised.None? {
        var first := RunUntilRaise(b, o.after, xs[1..]);
        var second := RunUntilRaise(b, first.after, ys);
        assert o.writes + (first.writes + second.writes) == (o.writes + first.writes) + second.writes;
      }
    }
  }

  predicate LeavesReservations(op: Op) {
    op.AddOp? || op.RecordOp?
  }

  lemma {:induction false} RunKeepsReserved(b: Budget, s: State, ops: seq<Op>)
    requires forall op :: op in ops ==> LeavesReservations(op)
    ensures RunUntilRaise(b, s, ops).after.reserved == s.reserved
    decreases ops
  {
    if ops != [] {
      assert LeavesReservations(ops[0]);
      RunKeepsReserved(b, Apply(b, s, ops[0]).after, ops[1..]);
    }
  }

  lemma RestIsQuiet(r: WorkerResult)
    ensures forall op :: op in Rest(r) ==> LeavesReservations(op) && Charge(op, Queries) == 0.0
    ensures NonNegative(r) ==> forall op :: op in Rest(r) ==> Gentle(op)
  {
  }

  lemma SettleOpsGentle(r: WorkerResult, release: int)
    requires NonNegative(r)
    ensures forall op :: op in SettleOps(r, release) ==> Gentle(op)
  {
    RestIsQuiet(r);
  }

  /** The charge of a whole count, made only when there is something to charge. */
  lemma CountCharge(d: Dimension, n: int, e: Dimension)
    requires IsWhole(d)
    ensures ChargeSum(Maybe(n != 0, AddOp(d, n as real)), e) == if e == d then n as real else 0.0
  {
    var op := AddOp(d, n as real);
    WholeCount(n);
    assert ChargeSum([op], e) == Charge(op, e) + ChargeSum([op][1..], e);
  }

  lemma ComputeCharge(x: real, e: Dimension)
    ensures ChargeSum(Maybe(x != 0.0, AddOp(ComputeUnits, x)), e) == if e == ComputeUnits then x else 0.0
  {
    var op := AddOp(ComputeUnits, x);
    assert ChargeSum([op], e) == Charge(op, e) + ChargeSum([op][1..], e);
  }

  lemma RestCharges(r: WorkerResult, d: Dimension)
    requires r.events == []
    ensures ChargeSum(Rest(r), d) == if d == Queries then 0.0 else Spent(r, d)
  {
    var steps := Maybe(r.stepCount != 0, AddOp(Steps, r.stepCount as real));
    var candidates := Maybe(r.candidates != 0, AddOp(Candidates, r.candidates as real));
    var compute := Maybe(r.computeUnits != 0.0, AddOp(ComputeUnits, r.computeUnits));
    ChargeSumZero(Invocations(r.invocations), d);
    CountCharge(Steps, r.stepCount, d);
    CountCharge(Candidates, r.candidates, d);
    ComputeCharge(r.computeUnits, d);
    ChargeSumConcat(Invocations(r.invocations) + steps + candidates, compute, d);
    ChargeSumConcat(Invocations(r.invocations) + steps, candidates, d);
    ChargeSumConcat(Invocations(r.invocations), steps, d);
  }

  /** The calls of a settlement charge what the result claims, in every dimension. */
  lemma SettleCharges(r: WorkerResult, release: int, d: Dimension)
    ensures ChargeSum(SettleOps(r, release), d) == Spent(r, d)
  {
    if r.events != [] {
      var op := MergeOp(r.events, if release != 0 then Some(release) else None);
      var tail := Maybe(!MentionsSteps(r.events) && r.stepCount != 0, AddOp(Steps, r.stepCount as real));
      CountCharge(Steps, if MentionsSteps(r.events) then 0 else r.stepCount, d);
      assert SettleOps(r, release)[1..] == tail;
      assert ChargeSum(SettleOps(r, release), d) == Charge(op, d) + ChargeSum(tail, d);
    } else {
      var head := Maybe(QueryCount(r) != 0, AddOp(Queries, QueryCount(r) as real));
      var tail := Maybe(release != 0, ReleaseOp(release));
      CountCharge(Queries, QueryCount(r), d);
      RestCharges(r, d);
      ChargeSumZero(tail, d);
      ChargeSumConcat(head + Rest(r), tail, d);
      ChargeSumConcat(head, Rest(r), d);
    }
  }

  lemma WholeCount(n: int)
    ensures Truncate(n as real) == n
  {
  }

  /** Which reservation a settlement leaves: the merge releases even when it raises,
      the rebuilt meters release last and so not when one of them raises. */
  lemma SettleReserved(b: Budget, s: State, r: WorkerResult, release: nat)
    ensures var o := RunUntilRaise(b, s, SettleOps(r, release));
      o.after.reserved ==
        if r.events != [] || o.raised.None? then Released(s.reserved, release) else s.reserved
  {
    RestIsQuiet(r);
    if r.events != [] {
      var ops := SettleOps(r, release);
      BatchKeepsOverruns(s, r.events);
      RunKeepsReserved(b, Apply(b, s, ops[0]).after, ops[1..]);
    } else {
      var head := Maybe(QueryCount(r) != 0, AddOp(Queries, QueryCount(r) as real)) + Rest(r);
      var tail := Maybe(release != 0, ReleaseOp(release));
      RunConcat(b, s, head, tail);
      RunKeepsReserved(b, s, head);
    }
  }

  function Released(reserved: int, n: nat): int {
    if n == 0 then reserved else if reserved > n then reserved - n else 0
  }

  // ---------------------------------------------------------------- sums over the units

  function Voucher(u: Unit): int {
    if u.task.InFlight? then u.task.voucher else 0
  }

  function Outstanding(units: seq<Unit>): int {
    if units == [] then 0
    else Outstanding(units[..|units| - 1]) + Voucher(units[|units| - 1])
  }

  predicate MustReserve(u: Unit, files: seq<UnitFile>) {
    u.task.NotStarted? && !HasFile(files, u.id)
  }

  /** The units that still have to reserve. */
  function ToReserve(units: seq<Unit>, files: seq<UnitFile>): nat {
    if units == [] then 0
    else
      ToReserve(units[..|units| - 1], files) +
      (if MustReserve(units[|units| - 1], files) then 1 else 0)
  }

  lemma {:induction false} UpdateSums(units: seq<Unit>, i: nat, u: Unit, files: seq<UnitFile>)
    requires i < |units|
    ensures Outstanding(units[i := u]) == Outstanding(units) - Voucher(units[i]) + Voucher(u)
    ensures ToReserve(units[i := u], files) ==
            ToReserve(units, files) - (if MustReserve(units[i], files) then 1 else 0)
                                    + (if MustReserve(u, files) then 1 else 0)
  {
    var n := |units| - 1;
    if i < n {
      assert units[i := u][..n] == units[..n][i := u];
      UpdateSums(units[..n], i, u, files);
    } else {
      assert units[i := u][..n] == units[..n];
    }
  }

  lemma {:induction false} CancelAllSums(units: seq<Unit>, files: seq<UnitFile>)
    ensures Outstanding(CancelAll(units)) == Outstanding(units)
    ensures ToReserve(CancelAll(units), files) == ToReserve(units, files)
  {
    if units != [] {
      var n := |units| - 1;
      assert CancelAll(units)[..n] == CancelAll(units[..n]);
      CancelAllSums(units[..n], files);
    }
  }

  lemma {:induction false} MoreFilesFewerToReserve(units: seq<Unit>, files: seq<UnitFile>, f: UnitFile)
    ensures ToReserve(units, files + [f]) <= ToReserve(units, files)
  {
    if units != [] {
      MoreFilesFewerToReserve(units[..|units| - 1], files, f);
      var u := units[|units| - 1];
      if HasFile(files, u.id) {
        var k :| 0 <= k < |files| && files[k].id == u.id;
        assert (files + [f])[k].id == u.id;
      }
    }
  }

  lemma {:induction false} OutstandingAtLeast(units: seq<Unit>, i: nat)
    requires i < |units| && forall u :: u in units ==> Voucher(u) >= 0
    ensures 0 <= Voucher(units[i]) <= Outstanding(units)
  {
    var n := |units| - 1;
    VouchersNonNegative(units[..n]);
    if i < n {
      OutstandingAtLeast(units[..n], i);
    }
  }

  lemma {:induction false} VouchersNonNegative(units: seq<Unit>)
    requires forall u :: u in units ==> Voucher(u) >= 0
    ensures Outstanding(units) >= 0
  {
    if units != [] {
      VouchersNonNegative(units[..|units| - 1]);
    }
  }

  /** pending_left counts every unit that still has to reserve, and more. */
  lemma {:induction false} PendingCoversToReserve(units: seq<Unit>, files: seq<UnitFile>)
    requires forall u :: u in units && u.task.NotStarted? ==> u.status == PendingUnit || u.status == RunningUnit
    ensures ToReserve(units, files) <= PendingLeft(units)
  {
    if units != [] {
      PendingCoversToReserve(units[..|units| - 1], files);
      assert units[|units| - 1] in units;
    }
  }

  // ---------------------------------------------------------------- the reservation invariant

  /** `base` is what earlier crashed coordinators left reserved. */
  ghost predicate Committed(b: Budget, base: int, m: Memory) {
    && base >= 0 && m.ledger.reserved >= 0
    && (m.aborted ==> m.cancelRequested)
    && (forall u :: u in m.units ==> Voucher(u) >= 0)
    && m.ledger.reserved <= base + Outstanding(m.units)
    && (!m.aborted ==> m.ledger.reserved == base + Outstanding(m.units))
    && (b.maxQueries.Some? ==>
          m.ledger.meters.queries + base + Outstanding(m.units) <= b.maxQueries.value)
  }

  /** Room for one query per unit that still has to reserve, so none is starved. */
  ghost predicate Roomy(b: Budget, m: Memory, files: seq<UnitFile>) {
    && (!m.cancelRequested ==>
          forall u :: u in m.units && u.task.NotStarted? ==> u.status == PendingUnit)
    && (!m.cancelRequested && b.maxQueries.Some? ==> ToReserve(m.units, files) <= Available(b, m.ledger))
    && (b.maxQueries.Some? ==> forall u :: u in m.units && u.task.InFlight? ==> u.task.voucher >= 1)
  }

  /** The assumption on workers: non-negative meters, no more queries than the
      voucher, and the voucher reported back as it was given (or not at all). */
  ghost predicate Disciplined(m: Memory, l: Label) {
    match l
    case Do(SettleSegment(i, r)) =>
      Enabled(m, l.segment) ==>
        && NonNegative(r)
        && (r.reportedVoucher == 0 || r.reportedVoucher == m.units[i].task.voucher)
        && Spent(r, Queries) <= m.units[i].task.voucher as real
    case _ => true
  }

  ghost predicate DisciplinedRun(b: Budget, y: System, ls: seq<Label>) {
    ls == [] || (DisciplinedRun(b, y, ls[..|ls| - 1]) &&
                 Disciplined(Exec(b, y, ls[..|ls| - 1]).mem, ls[|ls| - 1]))
  }

  /** Either the policy only records overruns, or there is room for every unit. */
  ghost predicate Capacity(b: Budget, y: System) {
    b.policy == Record || Roomy(b, y.mem, y.store.files)
  }

  lemma ReplacedUnits(units: seq<Unit>, i: nat, u: Unit)
    requires i < |units|
    ensures forall w :: w in units[i := u] ==> w == u || w in units
  {
  }

  predicate Reserves(b: Budget, m: Memory, files: seq<UnitFile>, i: nat)
    requires i < |m.units|
  {
    !m.cancelRequested && !HasFile(files, m.units[i].id) && b.maxQueries.Some?
  }

  /** A task that neither reserves nor runs, or runs without a query limit. */
  lemma BeginIdle(b: Budget, base: int, m: Memory, files: seq<UnitFile>, i: nat)
    requires i < |m.units| && m.units[i].task.NotStarted? && !Reserves(b, m, files, i)
    requires Committed(b, base, m)
    ensures Committed(b, base, Begin(b, m, files, i).mem)
    ensures Roomy(b, m, files) ==> Roomy(b, Begin(b, m, files, i).mem, files)
  {
    var w := Begin(b, m, files, i).mem.units[i];
    UpdateSums(m.units, i, w, files);
    ReplacedUnits(m.units, i, w);
  }

  lemma ReserveBounds(b: Budget, s: State, pending: nat)
    requires b.maxQueries.Some?
    ensures 0 <= Grant(b, s, Available(b, s), pending) <= Available(b, s)
  {
  }

  /** The voucher leaves every other unit its query, and is not empty. */
  lemma ReserveIsFair(b: Budget, m: Memory, files: seq<UnitFile>, i: nat, pending: nat)
    requires i < |m.units| && m.units[i].task.NotStarted?
    requires Roomy(b, m, files) && Reserves(b, m, files, i)
    requires pending == AtLeast(PendingLeft(m.units[i := Unit(m.units[i].id, RunningUnit, NotStarted)]), 1)
    ensures var n := Grant(b, m.ledger, Available(b, m.ledger), pending);
      n >= 1 && Available(b, m.ledger) - n >= ToReserve(m.units, files) - 1
  {
    var waiting := m.units[i := Unit(m.units[i].id, RunningUnit, NotStarted)];
    UpdateSums(m.units, i, waiting[i], files);
    ReplacedUnits(m.units, i, waiting[i]);
    ToReserveAtLeastOne(m.units, i, files);
    PendingCoversToReserve(waiting, files);
    FairShare(Available(b, m.ledger), pending, ToReserve(m.units, files));
  }

  /** With room a unit never takes the path that charges a query to force the raise. */
  lemma NoProbe(b: Budget, m: Memory, files: seq<UnitFile>, i: nat)
    requires i < |m.units| && m.units[i].task.NotStarted? && Reserves(b, m, files, i)
    requires b.policy == Record || Roomy(b, m, files)
    ensures Probe(b, m.ledger) == Outcome(m.ledger, [], None)
  {
    ToReserveAtLeastOne(m.units, i, files);
  }

  lemma BeginReserves(b: Budget, base: int, m: Memory, files: seq<UnitFile>, i: nat)
    requires i < |m.units| && m.units[i].task.NotStarted? && Reserves(b, m, files, i)
    requires Committed(b, base, m) && (b.policy == Record || Roomy(b, m, files))
    ensures Committed(b, base, Begin(b, m, files, i).mem)
  {
    NoProbe(b, m, files, i);
    var o := Begin(b, m, files, i).mem;
    var w := o.units[i];
    var pending := AtLeast(PendingLeft(m.units[i := Unit(m.units[i].id, RunningUnit, NotStarted)]), 1);
    ReserveBounds(b, m.ledger, pending);
    assert w.task == InFlight(Grant(b, m.ledger, Available(b, m.ledger), pending));
    UpdateSums(m.units, i, w, files);
    ReplacedUnits(m.units, i, w);
    VouchersNonNegative(m.units);
  }

  lemma BeginKeepsRoom(b: Budget, m: Memory, files: seq<UnitFile>, i: nat)
    requires i < |m.units| && m.units[i].task.NotStarted? && Reserves(b, m, files, i)
    requires Roomy(b, m, files)
    ensures Roomy(b, Begin(b, m, files, i).mem, files)
  {
    NoProbe(b, m, files, i);
    var o := Begin(b, m, files, i).mem;
    var w := o.units[i];
    var pending := AtLeast(PendingLeft(m.units[i := Unit(m.units[i].id, RunningUnit, NotStarted)]), 1);
    ReserveIsFair(b, m, files, i, pending);
    assert w.task == InFlight(Grant(b, m.ledger, Available(b, m.ledger), pending));
    UpdateSums(m.units, i, w, files);
    ReplacedUnits(m.units, i, w);
  }

  lemma {:induction false} ToReserveAtLeastOne(units: seq<Unit>, i: nat, files: seq<UnitFile>)
    requires i < |units| && MustReserve(units[i], files)
    ensures ToReserve(units, files) >= 1
  {
    if i < |units| - 1 {
      ToReserveAtLeastOne(units[..|units| - 1], i, files);
    }
  }

  /** The share max(1, A / p) of A, with at most p units left to reserve, leaves at
      least one query for each of the others. */
  lemma FairShare(avail: int, pending: int, left: int)
    requires 1 <= left <= avail && left <= pending
    ensures var n := AtMost(AtMost(avail, AtLeast(avail / pending, 1)), avail);
      1 <= n <= avail && avail - n >= left - 1
  {
    var q := avail / pending;
    assert q * pending <= avail;
    if q > 1 {
      SumBelowProduct(q, pending);
    }
  }

  /** A finished unit returns its voucher; what it spent it takes from it. */
  lemma ReturnCommits(b: Budget, base: int, m: Memory, i: nat, ledger: State, w: Unit, aborted: bool)
    requires Committed(b, base, m) && i < |m.units| && m.units[i].task.InFlight? && w.task.Finished?
    requires 0 <= ledger.reserved
    requires ledger.reserved <= Released(m.ledger.reserved, Voucher(m.units[i]))
    requires !aborted && !m.aborted ==> ledger.reserved == Released(m.ledger.reserved, Voucher(m.units[i]))
    requires b.maxQueries.Some? ==> ledger.meters.queries <= m.ledger.meters.queries + Voucher(m.units[i])
    requires aborted ==> m.cancelRequested
    ensures Committed(b, base, m.(ledger := ledger, units := m.units[i := w], aborted := m.aborted || aborted))
  {
    UpdateSums(m.units, i, w, []);
    ReplacedUnits(m.units, i, w);
    OutstandingAtLeast(m.units, i);
    var left := m.units[i := w];
    VouchersNonNegative(left);
  }

  lemma CancelCommits(b: Budget, base: int, m: Memory, files: seq<UnitFile>)
    requires Committed(b, base, m)
    ensures Committed(b, base, m.(units := CancelAll(m.units), cancelRequested := true))
    ensures Roomy(b, m, files) ==> Roomy(b, m.(units := CancelAll(m.units), cancelRequested := true), files)
  {
    CancelAllSums(m.units, []);
    CancelAllSums(m.units, files);
    forall w | w in CancelAll(m.units)
      ensures Voucher(w) >= 0
      ensures exists u :: u in m.units && u.task == w.task
    {
      var k :| 0 <= k < |m.units| && CancelAll(m.units)[k] == w;
      assert m.units[k] in m.units;
      assert Voucher(m.units[k]) >= 0;
    }
  }

  lemma CancelOneCommits(b: Budget, base: int, m: Memory, files: seq<UnitFile>, i: nat)
    requires Committed(b, base, m) && i < |m.units|
    ensures var m' := m.(units := m.units[i := CancelOne(m.units[i])], cancelRequested := true);
      Committed(b, base, m') && (Roomy(b, m, files) ==> Roomy(b, m', files))
  {
    UpdateSums(m.units, i, CancelOne(m.units[i]), []);
    ReplacedUnits(m.units, i, CancelOne(m.units[i]));
  }

  lemma AbortCommits(b: Budget, base: int, m: Memory, i: nat, ledger: State)
    requires Committed(b, base, m) && i < |m.units| && m.units[i].task.InFlight?
    requires 0 <= ledger.reserved <= Released(m.ledger.reserved, Voucher(m.units[i]))
    requires b.maxQueries.Some? ==> ledger.meters.queries <= m.ledger.meters.queries + Voucher(m.units[i])
    ensures Committed(b, base, Abort(m, i, ledger))
  {
    var w := Unit(m.units[i].id, CancelledUnit, Finished);
    var cancelled := m.(cancelRequested := true);
    assert Committed(b, base, cancelled);
    ReturnCommits(b, base, cancelled, i, ledger, w, true);
    CancelCommits(b, base, cancelled.(ledger := ledger, units := m.units[i := w], aborted := true), []);
  }

  lemma SpentWithin(b: Budget, s: State, r: WorkerResult, release: int, v: int)
    requires NonNegative(r) && Spent(r, Queries) <= v as real
    ensures var after := RunUntilRaise(b, s, SettleOps(r, release)).after;
      after.meters.queries <= s.meters.queries + v
  {
    SettleOpsGentle(r, release);
    SettleCharges(r, release, Queries);
    RunCharges(b, s, SettleOps(r, release), Queries);
  }

  lemma SettleCommits(b: Budget, base: int, m: Memory, i: nat, r: WorkerResult)
    requires Committed(b, base, m) && i < |m.units| && m.units[i].task.InFlight?
    requires Disciplined(m, Do(SettleSegment(i, r)))
    ensures Committed(b, base, Settle(b, m, i, r).mem)
  {
    var v := m.units[i].task.voucher;
    assert Voucher(m.units[i]) == v;
    assert m.units[i] in m.units;
    var release := if r.reportedVoucher != 0 then r.reportedVoucher else v;
    assert release == v;
    var o := RunUntilRaise(b, m.ledger, SettleOps(r, release));
    SpentWithin(b, m.ledger, r, release, v);
    SettleReserved(b, m.ledger, r, release);
    if o.raised.Some? {
      AbortCommits(b, base, m, i, Leak(o.after, v).after);
    } else if !Consistent(o.after) {
      ReturnCommits(b, base, m, i, o.after, Unit(m.units[i].id, FailedUnit, Finished), false);
    } else if r.budgetStopped {
      AbortCommits(b, base, m, i, Settle(b, m, i, r).mem.ledger);
    } else {
      ReturnCommits(b, base, m, i, o.after, Unit(m.units[i].id, DoneUnit, Finished), false);
    }
  }

  lemma FailCommits(b: Budget, base: int, m: Memory, i: nat)
    requires Committed(b, base, m) && i < |m.units| && m.units[i].task.InFlight?
    ensures Committed(b, base, Fail(m, i).mem)
  {
    assert m.units[i] in m.units;
    ReturnCommits(b, base, m, i, Fail(m, i).mem.ledger, Fail(m, i).mem.units[i], false);
  }

  // ---------------------------------------------------------------- room

  lemma MoreRoom(b: Budget, m: Memory, files: seq<UnitFile>, files': seq<UnitFile>, i: nat, ledger: State, w: Unit)
    requires Roomy(b, m, files) && i < |m.units| && m.units[i].task.InFlight? && w.task.Finished?
    requires files' == files || (|files'| > 0 && files'[..|files'| - 1] == files)
    requires b.maxQueries.Some? && !m.cancelRequested ==> Available(b, m.ledger) <= Available(b, ledger)
    ensures Roomy(b, m.(ledger := ledger, units := m.units[i := w]), files')
  {
    UpdateSums(m.units, i, w, files');
    ReplacedUnits(m.units, i, w);
    if files' != files {
      var f := files'[|files'| - 1];
      assert files' == files + [f];
      MoreFilesFewerToReserve(m.units, files, f);
    }
  }

  lemma AbortRoom(b: Budget, m: Memory, files: seq<UnitFile>, files': seq<UnitFile>, i: nat, ledger: State)
    requires Roomy(b, m, files) && i < |m.units| && m.units[i].task.InFlight?
    ensures Roomy(b, Abort(m, i, ledger), files')
  {
    var units := m.units[i := Unit(m.units[i].id, CancelledUnit, Finished)];
    ReplacedUnits(m.units, i, units[i]);
    forall w | w in CancelAll(units) && w.task.InFlight?
      ensures b.maxQueries.Some? ==> w.task.voucher >= 1
    {
      var k :| 0 <= k < |units| && CancelAll(units)[k] == w;
      assert units[k] in units;
    }
  }

  lemma PersistedLedger(store: Store, ws: seq<State>)
    ensures Persisted(store, LedgerWrites(ws)) ==
            if ws == [] then store else store.(disk := Some(ws[|ws| - 1]))
  {
    if ws != [] {
      assert LedgerWrites(ws)[..|ws| - 1] == LedgerWrites(ws[..|ws| - 1]);
      PersistedLedger(store, ws[..|ws| - 1]);
    }
  }

  lemma PersistedUnit(store: Store, ws: seq<State>, f: UnitFile)
    ensures Persisted(store, LedgerWrites(ws) + [UnitWrite(f)]).files == store.files + [f]
    ensures Persisted(store, LedgerWrites(ws) + [UnitWrite(f)]).disk ==
            if ws == [] then store.disk else Some(ws[|ws| - 1])
  {
    var ds := LedgerWrites(ws) + [UnitWrite(f)];
    assert ds[..|ds| - 1] == LedgerWrites(ws);
    PersistedLedger(store, ws);
  }

  /** A settlement that raises nothing hands capacity back. */
  lemma SettleFrees(b: Budget, base: int, m: Memory, i: nat, r: WorkerResult, release: int)
    requires Committed(b, base, m) && i < |m.units| && m.units[i].task.InFlight? && !m.aborted
    requires NonNegative(r) && Spent(r, Queries) <= m.units[i].task.voucher as real && release == m.units[i].task.voucher
    requires b.maxQueries.Some?
    ensures var o := RunUntilRaise(b, m.ledger, SettleOps(r, release));
      o.raised.None? ==> Available(b, m.ledger) <= Available(b, o.after)
  {
    assert m.units[i] in m.units;
    assert Voucher(m.units[i]) == release;
    SpentWithin(b, m.ledger, r, release, release);
    SettleReserved(b, m.ledger, r, release);
    OutstandingAtLeast(m.units, i);
  }

  lemma SettleFiles(b: Budget, m: Memory, store: Store, i: nat, r: WorkerResult)
    requires i < |m.units| && m.units[i].task.InFlight?
    ensures var o := Settle(b, m, i, r);
      var files' := Persisted(store, o.durable).files;
      files' == store.files || (|files'| > 0 && files'[..|files'| - 1] == store.files)
  {
    var v := m.units[i].task.voucher;
    var o := RunUntilRaise(b, m.ledger, SettleOps(r, if r.reportedVoucher != 0 then r.reportedVoucher else v));
    if o.raised.Some? {
      PersistedLedger(store, o.writes + Leak(o.after, v).writes);
    } else {
      PersistedUnit(store, o.writes + [o.after], UnitFile(m.units[i].id, Completed(r)));
      PersistedUnit(store, o.writes + [o.after], UnitFile(m.units[i].id, FailedBody));
    }
  }

  lemma SettleRoom(b: Budget, base: int, m: Memory, store: Store, i: nat, r: WorkerResult)
    requires Committed(b, base, m) && Roomy(b, m, store.files)
    requires i < |m.units| && m.units[i].task.InFlight? && Disciplined(m, Do(SettleSegment(i, r)))
    ensures var o := Settle(b, m, i, r); Roomy(b, o.mem, Persisted(store, o.durable).files)
  {
    var d := Settle(b, m, i, r);
    var files' := Persisted(store, d.durable).files;
    SettleFiles(b, m, store, i, r);
    if d.mem.aborted && d.mem == Abort(m, i, d.mem.ledger) {
      AbortRoom(b, m, store.files, files', i, d.mem.ledger);
    } else {
      QuietSettleRoom(b, base, m, store.files, files', i, r);
    }
  }

  /** A settlement that stops nothing. */
  lemma QuietSettleRoom(
      b: Budget, base: int, m: Memory, files: seq<UnitFile>, files': seq<UnitFile>, i: nat, r: WorkerResult)
    requires Committed(b, base, m) && Roomy(b, m, files)
    requires i < |m.units| && m.units[i].task.InFlight? && Disciplined(m, Do(SettleSegment(i, r)))
    requires files' == files || (|files'| > 0 && files'[..|files'| - 1] == files)
    requires var after := Settle(b, m, i, r).mem; !(after.aborted && after == Abort(m, i, after.ledger))
    ensures Roomy(b, Settle(b, m, i, r).mem, files')
  {
    var v := m.units[i].task.voucher;
    var after := Settle(b, m, i, r).mem;
    var o := RunUntilRaise(b, m.ledger, SettleOps(r, v));
    assert (if r.reportedVoucher != 0 then r.reportedVoucher else v) == v;
    assert o.raised.None? && after.ledger == o.after;
    if b.maxQueries.Some? && !m.cancelRequested {
      SettleFrees(b, base, m, i, r, v);
    }
    MoreRoom(b, m, files, files', i, o.after, after.units[i]);
  }

  lemma FailRoom(b: Budget, base: int, m: Memory, store: Store, i: nat)
    requires Committed(b, base, m) && Roomy(b, m, store.files)
    requires i < |m.units| && m.units[i].task.InFlight?
    ensures var o := Fail(m, i); Roomy(b, o.mem, Persisted(store, o.durable).files)
  {
    assert m.units[i] in m.units;
    OutstandingAtLeast(m.units, i);
    var o := Fail(m, i);
    var ws := if m.units[i].task.voucher != 0 then [o.mem.ledger] else [];
    assert o.durable == LedgerWrites(ws) + [UnitWrite(UnitFile(m.units[i].id, FailedBody))];
    PersistedUnit(store, ws, UnitFile(m.units[i].id, FailedBody));
    MoreRoom(b, m, store.files, Persisted(store, o.durable).files, i, o.mem.ledger, o.mem.units[i]);
  }

  // ---------------------------------------------------------------- every interleaving

  ghost predicate Sound(b: Budget, base: int, y: System) {
    Committed(b, base, y.mem) && Capacity(b, y)
  }

  lemma BeginStore(b: Budget, y: System, i: nat)
    requires Enabled(y.mem, BeginSegment(i))
    ensures Step(b, y, Do(BeginSegment(i))).store.files == y.store.files
  {
    var o := Begin(b, y.mem, y.store.files, i);
    var ws := seq(|o.durable|, k requires 0 <= k < |o.durable| =>
      if o.durable[k].LedgerWrite? then o.durable[k].snapshot else FRESH);
    assert o.durable == LedgerWrites(ws);
    PersistedLedger(y.store, ws);
  }

  lemma BeginRoomy(b: Budget, base: int, y: System, i: nat)
    requires Enabled(y.mem, BeginSegment(i))
    requires Committed(b, base, y.mem) && Roomy(b, y.mem, y.store.files)
    ensures Committed(b, base, Step(b, y, Do(BeginSegment(i))).mem)
    ensures Roomy(b, Step(b, y, Do(BeginSegment(i))).mem, Step(b, y, Do(BeginSegment(i))).store.files)
  {
    BeginStore(b, y, i);
    if Reserves(b, y.mem, y.store.files, i) {
      BeginReserves(b, base, y.mem, y.store.files, i);
      BeginKeepsRoom(b, y.mem, y.store.files, i);
    } else {
      BeginIdle(b, base, y.mem, y.store.files, i);
    }
  }

  lemma BeginSound(b: Budget, base: int, y: System, i: nat)
    requires Sound(b, base, y) && Enabled(y.mem, BeginSegment(i))
    ensures Sound(b, base, Step(b, y, Do(BeginSegment(i))))
  {
    if Roomy(b, y.mem, y.store.files) {
      BeginRoomy(b, base, y, i);
    } else if Reserves(b, y.mem, y.store.files, i) {
      BeginReserves(b, base, y.mem, y.store.files, i);
    } else {
      BeginIdle(b, base, y.mem, y.store.files, i);
    }
  }

  lemma StepRoomy(b: Budget, base: int, y: System, l: Label)
    requires Committed(b, base, y.mem) && Roomy(b, y.mem, y.store.files)
    requires !l.Crash? && Disciplined(y.mem, l)
    ensures Committed(b, base, Step(b, y, l).mem)
    ensures Roomy(b, Step(b, y, l).mem, Step(b, y, l).store.files)
  {
    match l
    case Do(g) =>
      if Enabled(y.mem, g) {
        match g
        case BeginSegment(i) => BeginRoomy(b, base, y, i);
        case SettleSegment(i, r) =>
          SettleCommits(b, base, y.mem, i, r);
          SettleRoom(b, base, y.mem, y.store, i, r);
        case FailSegment(i) =>
          FailCommits(b, base, y.mem, i);
          FailRoom(b, base, y.mem, y.store, i);
      }
    case CancelCall(who) =>
      if who.None? {
        CancelCommits(b, base, y.mem, y.store.files);
      } else if who.value < |y.mem.units| {
        CancelOneCommits(b, base, y.mem, y.store.files, who.value);
      }
  }

  lemma StepSound(b: Budget, base: int, y: System, l: Label)
    requires Sound(b, base, y) && !l.Crash? && Disciplined(y.mem, l)
    ensures Sound(b, base, Step(b, y, l))
  {
    if Roomy(b, y.mem, y.store.files) {
      StepRoomy(b, base, y, l);
    } else {
      match l
      case Do(g) =>
        if Enabled(y.mem, g) {
          match g
          case BeginSegment(i) => BeginSound(b, base, y, i);
          case SettleSegment(i, r) => SettleCommits(b, base, y.mem, i, r);
          case FailSegment(i) => FailCommits(b, base, y.mem, i);
        }
      case CancelCall(who) =>
        if who.None? {
          CancelCommits(b, base, y.mem, y.store.files);
        } else if who.value < |y.mem.units| {
          CancelOneCommits(b, base, y.mem, y.store.files, who.value);
        }
    }
  }

  /** The safety theorem. From a start with room for every unit (or under the RECORD
      policy), over every interleaving of reserve, settle, fail and cancel segments
      with disciplined workers: spent plus reserved queries never pass the limit; up
      to the first BudgetExceeded the reservation counter is exactly what was there
      before plus the vouchers in flight; and when no task is in flight it is back at
      its starting value. */
  lemma {:induction false} NeverOverCommits(b: Budget, y: System, base: int, ls: seq<Label>)
    requires Sound(b, base, y)
    requires forall l :: l in ls ==> !l.Crash?
    requires DisciplinedRun(b, y, ls)
    ensures var m := Exec(b, y, ls).mem;
      && (b.maxQueries.Some? ==> m.ledger.meters.queries + m.ledger.reserved <= b.maxQueries.value)
      && (!m.aborted ==> m.ledger.reserved == base + Outstanding(m.units))
      && (!m.aborted && (forall u :: u in m.units ==> !u.task.InFlight?) ==> m.ledger.reserved == base)
    ensures Sound(b, base, Exec(b, y, ls))
  {
    if ls != [] {
      var front := ls[..|ls| - 1];
      NeverOverCommits(b, y, base, front);
      StepSound(b, base, Exec(b, y, front), ls[|ls| - 1]);
    }
    IdleOutstanding(Exec(b, y, ls).mem.units);
  }

  lemma {:induction false} IdleOutstanding(units: seq<Unit>)
    ensures (forall u :: u in units ==> !u.task.InFlight?) ==> Outstanding(units) == 0
  {
    if units != [] {
      IdleOutstanding(units[..|units| - 1]);
      assert units[|units| - 1] in units;
    }
  }

  /** Nobody starves: with room for every unit at the start, whatever the order of
      reservations and settlements, every voucher in flight is worth at least one
      query and the path that charges a query to force a raise is never taken. */
  lemma NobodyStarves(b: Budget, y: System, base: int, ls: seq<Label>)
    requires b.maxQueries.Some? && Committed(b, base, y.mem) && Roomy(b, y.mem, y.store.files)
    requires forall l :: l in ls ==> !l.Crash?
    requires DisciplinedRun(b, y, ls)
    ensures Roomy(b, Exec(b, y, ls).mem, Exec(b, y, ls).store.files)
    ensures var e := Exec(b, y, ls);
      && (forall u :: u in e.mem.units && u.task.InFlight? ==> u.task.voucher >= 1)
      && (forall i :: Enabled(e.mem, BeginSegment(i)) && Reserves(b, e.mem, e.store.files, i) ==>
            Probe(b, e.mem.ledger) == Outcome(e.mem.ledger, [], None))
  {
    StaysRoomy(b, y, base, ls);
    var e := Exec(b, y, ls);
    forall i | Enabled(e.mem, BeginSegment(i)) && Reserves(b, e.mem, e.store.files, i)
      ensures Probe(b, e.mem.ledger) == Outcome(e.mem.ledger, [], None)
    {
      NoProbe(b, e.mem, e.store.files, i);
    }
  }

  lemma {:induction false} StaysRoomy(b: Budget, y: System, base: int, ls: seq<Label>)
    requires Committed(b, base, y.mem) && Roomy(b, y.mem, y.store.files)
    requires forall l :: l in ls ==> !l.Crash?
    requires DisciplinedRun(b, y, ls)
    ensures Committed(b, base, Exec(b, y, ls).mem)
    ensures Roomy(b, Exec(b, y, ls).mem, Exec(b, y, ls).store.files)
  {
    if ls != [] {
      var front := ls[..|ls| - 1];
      StaysRoomy(b, y, base, front);
      StepRoomy(b, base, Exec(b, y, front), ls[|ls| - 1]);
    }
  }

  /** The starting point of a coordinator on a ledger with `base` reserved: room
      means capacity for the units that have no result file yet. */
  lemma FreshStartIsSound(b: Budget, s: State, work: seq<Handle>, store: Store, log: seq<Handle>)
    requires s.reserved >= 0
    requires b.maxQueries.Some? ==>
      && s.meters.queries + s.reserved <= b.maxQueries.value
      && Available(b, s) >= ToReserve(Fresh(work), store.files)
    ensures var y := System(Memory(s, Fresh(work), false, false), store, log);
      Sound(b, s.reserved, y) && Roomy(b, y.mem, store.files)
  {
    IdleOutstanding(Fresh(work));
  }

  // ---------------------------------------------------------------- where it fails, exactly

  /** A unit that reaches the reservation keeps spent plus reserved within the limit
      exactly when it does not find capacity gone under STOP with queries still
      unspent: then the query charged to force the raise is one too many. */
  lemma ReservationOvercommitsExactly(b: Budget, m: Memory, files: seq<UnitFile>, i: nat)
    requires i < |m.units| && m.units[i].task.NotStarted? && Reserves(b, m, files, i)
    requires m.ledger.reserved >= 0
    requires m.ledger.meters.queries + m.ledger.reserved <= b.maxQueries.value
    ensures var s' := Begin(b, m, files, i).mem.ledger;
      s'.meters.queries + s'.reserved <= b.maxQueries.value <==>
      !(b.policy == Stop && Available(b, m.ledger) == 0 && m.ledger.meters.queries < b.maxQueries.value)
  {
    var probe := Probe(b, m.ledger);
    var pending := AtLeast(PendingLeft(m.units[i := Unit(m.units[i].id, RunningUnit, NotStarted)]), 1);
    if Available(b, m.ledger) <= 0 && b.policy == Stop {
      ChargeGet(m.ledger.meters, Queries, 1.0, Queries);
    } else {
      ReserveBounds(b, m.ledger, pending);
    }
  }

  /** The reservation left by a settlement that raises: the merge has already
      released the voucher, so its handler releases it a second time; the counter
      is right exactly when there was no merge, no voucher, or nothing else reserved. */
  lemma AbortReleasesOnceExactly(b: Budget, m: Memory, i: nat, r: WorkerResult)
    requires i < |m.units| && m.units[i].task.InFlight?
    requires 0 <= m.units[i].task.voucher <= m.ledger.reserved
    requires r.reportedVoucher == 0 || r.reportedVoucher == m.units[i].task.voucher
    requires RunUntilRaise(b, m.ledger, SettleOps(r, m.units[i].task.voucher)).raised.Some?
    ensures var v := m.units[i].task.voucher;
      Settle(b, m, i, r).mem.ledger.reserved == m.ledger.reserved - v <==>
      r.events == [] || v == 0 || m.ledger.reserved == v
  {
    SettleReserved(b, m.ledger, r, m.units[i].task.voucher);
  }

  /** Two tasks hold one query each; the first overruns the step limit while merging:
      both reservations are gone although the second task still holds its voucher. */
  lemma DoubleReleaseHappens()
    ensures var b := Budget(Some(2), Some(0), None, None, None, None, Stop);
      var m := Memory(FRESH.(reserved := 2),
                      [Unit("a", RunningUnit, InFlight(1)), Unit("b", RunningUnit, InFlight(1))], false, false);
      var r := WorkerResult([Spend(Steps, 1.0, 1.0)], 1, 0, [], 0, 0, 0.0, false);
      Disciplined(m, Do(SettleSegment(0, r))) && Settle(b, m, 0, r).mem.ledger.reserved == 0
  {
    var b := Budget(Some(2), Some(0), None, None, None, None, Stop);
    var s := FRESH.(reserved := 2);
    var e := Spend(Steps, 1.0, 1.0);
    var r := WorkerResult([e], 1, 0, [], 0, 0, 0.0, false);
    assert [e][..0] == [];
    assert Total([e], Queries) == 0.0;
    assert ApplyBatch(s, [e]) == ChargeState(s, Steps, 1.0);
    var s2 := Settled(s, [e], Some(1));
    assert s2.meters == ZERO_METERS.(steps := 1) && s2.reserved == 1;
    MergeChargesAllThenStops(b, s, [e], Some(1));
    var o := MergeOutcome(b, s, [e], Some(1));
    assert o.after.meters == s2.meters && Exceeds(b, o.after.meters, Steps);
    assert MentionsSteps([e]) by { assert [e][0] == e; }
    assert SettleOps(r, 1) == [MergeOp([e], Some(1))];
    assert RunUntilRaise(b, s, SettleOps(r, 1)) == o;
  }
}
