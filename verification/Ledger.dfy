/**
 The provenance ledger of src/verifierlab/budgets/ledger.py.

 `State` is what the ledger holds and what it writes to `persist_path`; each
 `...Outcome` function says what one call leaves behind, which snapshots it
 renames onto the disk on the way, and which overrun it raises. The class
 `ProvenanceLedger` performs the calls field by field and loop by loop.
 Wall-clock metering is not part of this model; floats are reals.
 */
module Ledger {
  import opened Prelude

  datatype OverrunPolicy = Stop | Record

  datatype Dimension = Queries | Steps | Tokens | CostUsd | Candidates | ComputeUnits

  // The order in which a merge looks for exceeded limits.
  const CHECK_ORDER: seq<Dimension> := [Queries, Steps, Tokens, CostUsd, Candidates, ComputeUnits]

  datatype Budget = Budget(
    maxQueries: Option<nat>,
    maxSteps: Option<nat>,
    maxTokens: Option<nat>,
    maxCostUsd: Option<real>,
    maxCandidates: Option<nat>,
    maxComputeUnits: Option<real>,
    policy: OverrunPolicy)
  {
    function Limit(d: Dimension): Option<real> {
      match d
      case Queries => AsReal(maxQueries)
      case Steps => AsReal(maxSteps)
      case Tokens => AsReal(maxTokens)
      case CostUsd => maxCostUsd
      case Candidates => AsReal(maxCandidates)
      case ComputeUnits => maxComputeUnits
    }
  }

  function AsReal(limit: Option<nat>): Option<real> {
    match limit
    case None => None
    case Some(n) => Some(n as real)
  }

  /** Python's int(x): truncation toward zero. */
  function Truncate(x: real): int {
    if x >= 0.0 then x.Floor else -((-x).Floor)
  }

  predicate IsWhole(d: Dimension) {
    d != CostUsd && d != ComputeUnits
  }

  /** What an amount adds to dimension `d`: whole dimensions drop the fraction. */
  function Charged(d: Dimension, amount: real): real {
    if IsWhole(d) then Truncate(amount) as real else amount
  }

  datatype Meters = Meters(
    queries: int, steps: int, tokens: int, costUsd: real, candidates: int, computeUnits: real)
  {
    function Get(d: Dimension): real {
      match d
      case Queries => queries as real
      case Steps => steps as real
      case Tokens => tokens as real
      case CostUsd => costUsd
      case Candidates => candidates as real
      case ComputeUnits => computeUnits
    }

    function Charge(d: Dimension, amount: real): Meters {
      match d
      case Queries => this.(queries := queries + Truncate(amount))
      case Steps => this.(steps := steps + Truncate(amount))
      case Tokens => this.(tokens := tokens + Truncate(amount))
      case CostUsd => this.(costUsd := costUsd + amount)
      case Candidates => this.(candidates := candidates + Truncate(amount))
      case ComputeUnits => this.(computeUnits := computeUnits + amount)
    }
  }

  lemma ChargeGet(m: Meters, d: Dimension, amount: real, e: Dimension)
    ensures m.Charge(d, amount).Get(e) == m.Get(e) + (if e == d then Charged(d, amount) else 0.0)
  {
  }

  lemma WholeCharge(d: Dimension, amount: real)
    requires IsWhole(d) ==> amount == Truncate(amount) as real
    ensures Charged(d, amount) == amount
  {
  }

  const ZERO_METERS := Meters(0, 0, 0, 0.0, 0, 0.0)

  datatype OverrunRecord = OverrunRecord(
    dimension: Dimension, limit: real, actual: real, policy: OverrunPolicy, stopped: bool)

  /** One row of the event log. `Provenance` is any row that carries no numeric
      amount of a metered kind (verifier_query, a malformed spend row, ...). */
  datatype Event =
    | Spend(d: Dimension, amount: real, total: real)
    | ReserveQueries(granted: int, totalReserved: int, pending: Option<int>)
    | ReleaseQueries(released: int, totalReserved: int)
    | Overrun(record: OverrunRecord)
    | Provenance(kind: string, payload: string)

  datatype State = State(
    meters: Meters, reserved: int, events: seq<Event>, overruns: seq<OverrunRecord>, stopped: bool)

  const FRESH := State(ZERO_METERS, 0, [], [], false)

  datatype Outcome = Outcome(after: State, writes: seq<State>, raised: Option<OverrunRecord>)

  // ---------------------------------------------------------------- event totals

  /** What the event log says was charged to `d`. */
  function Total(events: seq<Event>, d: Dimension): real {
    if events == [] then 0.0
    else Total(events[..|events| - 1], d) + Weight(events[|events| - 1], d)
  }

  function Weight(e: Event, d: Dimension): real {
    if e.Spend? && e.d == d then Charged(d, e.amount) else 0.0
  }

  /** The log explains every counter to the last digit. */
  ghost predicate Reconciles(s: State) {
    forall d: Dimension :: Total(s.events, d) == s.meters.Get(d)
  }

  /** What the self-check compares: whole counters exactly, the two floats to 1e-9. */
  predicate Drifts(fromEvents: real, counter: real, d: Dimension) {
    if IsWhole(d) then fromEvents != counter
    else fromEvents - counter > 0.000000001 || counter - fromEvents > 0.000000001
  }

  /** The self-check finds nothing. */
  predicate Consistent(s: State) {
    forall d: Dimension :: !Drifts(Total(s.events, d), s.meters.Get(d), d)
  }

  // ---------------------------------------------------------------- add_*

  function Available(b: Budget, s: State): int
    requires b.maxQueries.Some?
  {
    var free := b.maxQueries.value - s.meters.queries - s.reserved;
    if free > 0 then free else 0
  }

  predicate AtLimit(b: Budget, m: Meters, d: Dimension) {
    b.policy == Stop && b.Limit(d).Some? && m.Get(d) >= b.Limit(d).value
  }

  predicate Exceeds(b: Budget, m: Meters, d: Dimension) {
    b.Limit(d).Some? && m.Get(d) > b.Limit(d).value
  }

  function RecordOf(b: Budget, m: Meters, d: Dimension): OverrunRecord
    requires b.Limit(d).Some?
  {
    OverrunRecord(d, b.Limit(d).value, m.Get(d), b.policy, b.policy == Stop)
  }

  function Noted(s: State, r: OverrunRecord): State {
    s.(overruns := s.overruns + [r], events := s.events + [Overrun(r)])
  }

  function ChargeState(s: State, d: Dimension, amount: real): State {
    var m := s.meters.Charge(d, amount);
    s.(meters := m, events := s.events + [Spend(d, Charged(d, amount), m.Get(d))])
  }

  /** The check after a charge that left s1, itself written before it. */
  function CheckOutcome(b: Budget, s1: State, d: Dimension): Outcome {
    if Exceeds(b, s1.meters, d) then
      var r := RecordOf(b, s1.meters, d);
      var s2 := Noted(s1, r);
      if b.policy == Stop then Outcome(s2.(stopped := true), [s1, s2], Some(r))
      else Outcome(s2, [s1, s2], None)
    else Outcome(s1, [s1], None)
  }

  /** A call refused at the limit. */
  function RefuseOutcome(b: Budget, s: State, d: Dimension): Outcome
    requires AtLimit(b, s.meters, d)
  {
    var r := RecordOf(b, s.meters, d);
    var s1 := Noted(s, r).(stopped := true);
    Outcome(s1, [s1], Some(r))
  }

  /** One add_* call: refuse at the limit, else charge, write, then check. */
  function AddOutcome(b: Budget, s: State, d: Dimension, amount: real): Outcome {
    if AtLimit(b, s.meters, d) then RefuseOutcome(b, s, d)
    else CheckOutcome(b, ChargeState(s, d, amount), d)
  }

  // ---------------------------------------------------------------- merge_events

  function ApplyEvent(s: State, e: Event): State {
    match e
    case Spend(d, amount, _) => ChargeState(s, d, amount)
    case ReserveQueries(_, _, _) => s
    case ReleaseQueries(_, _) => s
    case Overrun(_) => s.(events := s.events + [e])
    case Provenance(_, _) => s.(events := s.events + [e])
  }

  function ApplyBatch(s: State, batch: seq<Event>): State {
    if batch == [] then s
    else ApplyEvent(ApplyBatch(s, batch[..|batch| - 1]), batch[|batch| - 1])
  }

  function OverrunsOf(b: Budget, m: Meters, order: seq<Dimension>): seq<OverrunRecord> {
    if order == [] then []
    else
      OverrunsOf(b, m, order[..|order| - 1]) +
      (if Exceeds(b, m, order[|order| - 1]) then [RecordOf(b, m, order[|order| - 1])] else [])
  }

  function AsEvents(rs: seq<OverrunRecord>): seq<Event> {
    seq(|rs|, i requires 0 <= i < |rs| => Overrun(rs[i]))
  }

  function ReleaseState(s: State, n: int): State {
    var rel := if n > 0 then n else 0;
    var left := if s.reserved > rel then s.reserved - rel else 0;
    s.(reserved := left, events := s.events + [ReleaseQueries(rel, left)])
  }

  function Settled(s: State, batch: seq<Event>, reserved: Option<int>): State {
    var s1 := ApplyBatch(s, batch);
    match reserved
    case None => s1
    case Some(n) => ReleaseState(s1, n)
  }

  /** The state with the overruns `rs` recorded in both logs. */
  function Flag(b: Budget, s: State, rs: seq<OverrunRecord>): State {
    s.(overruns := s.overruns + rs, events := s.events + AsEvents(rs),
       stopped := s.stopped || (b.policy == Stop && rs != []))
  }

  function CheckedAfterMerge(b: Budget, s: State): State {
    Flag(b, s, OverrunsOf(b, s.meters, CHECK_ORDER))
  }

  lemma FlagNone(b: Budget, s: State)
    ensures Flag(b, s, []) == s
  {
    assert s.overruns + [] == s.overruns;
    assert s.events + AsEvents([]) == s.events;
  }

  lemma FlagOne(b: Budget, s: State, rs: seq<OverrunRecord>, r: OverrunRecord)
    ensures var f := Flag(b, s, rs);
      Flag(b, s, rs + [r]) == State(f.meters, f.reserved, f.events + [Overrun(r)], f.overruns + [r],
                                    f.stopped || b.policy == Stop)
  {
    assert AsEvents(rs + [r]) == AsEvents(rs) + [Overrun(r)];
    assert s.events + AsEvents(rs + [r]) == s.events + AsEvents(rs) + [Overrun(r)];
    assert s.overruns + (rs + [r]) == s.overruns + rs + [r];
  }

  lemma OverrunsStep(b: Budget, m: Meters, order: seq<Dimension>, i: nat)
    requires i < |order|
    ensures OverrunsOf(b, m, order[..i + 1]) ==
      OverrunsOf(b, m, order[..i]) + (if Exceeds(b, m, order[i]) then [RecordOf(b, m, order[i])] else [])
  {
    assert order[..i + 1][..i] == order[..i];
  }

  /** One merge_events call: charge everything, release, write, then check. */
  function MergeOutcome(b: Budget, s: State, batch: seq<Event>, reserved: Option<int>): Outcome {
    var s2 := Settled(s, batch, reserved);
    var s3 := CheckedAfterMerge(b, s2);
    var rs := OverrunsOf(b, s2.meters, CHECK_ORDER);
    Outcome(s3,
            (if reserved.Some? then [s2] else []) + [s2, s3],
            if b.policy == Stop && rs != [] then Some(rs[0]) else None)
  }

  // ---------------------------------------------------------------- vouchers

  function AtLeast(x: int, floor: int): int {
    if x > floor then x else floor
  }

  function AtMost(x: int, ceiling: int): int {
    if x < ceiling then x else ceiling
  }

  /** The size of the voucher one reserve_query_voucher call hands out. */
  function Grant(b: Budget, s: State, requested: int, pendingWorkers: int): int {
    var req := AtLeast(requested, 0);
    if b.maxQueries.None? then req
    else if Available(b, s) <= 0 then 0
    else AtMost(AtMost(req, AtLeast(Available(b, s) / AtLeast(pendingWorkers, 1), 1)), Available(b, s))
  }

  function ReserveOutcome(b: Budget, s: State, requested: int, pendingWorkers: int): Outcome {
    var n := Grant(b, s, requested, pendingWorkers);
    var noted := if b.maxQueries.None? then None else Some(AtLeast(pendingWorkers, 1));
    var s1 := s.(reserved := s.reserved + n,
                 events := s.events + [ReserveQueries(n, s.reserved + n, noted)]);
    Outcome(s1, [s1], None)
  }

  function ReleaseOutcome(s: State, n: int): Outcome {
    var s1 := ReleaseState(s, n);
    Outcome(s1, [s1], None)
  }

  function RecordOutcome(s: State, e: Event): Outcome {
    var s1 := s.(events := s.events + [e]);
    Outcome(s1, [s1], None)
  }

  // ---------------------------------------------------------------- the ledger object

  class ProvenanceLedger {
    const budget: Budget
    const persistent: bool
    var meters: Meters
    var reserved: int
    var events: seq<Event>
    var overruns: seq<OverrunRecord>
    var stopped: bool
    var disk: Option<State>
    ghost var journal: seq<State>  // every snapshot ever renamed onto persist_path

    ghost function Abs(): State
      reads this
    {
      State(meters, reserved, events, overruns, stopped)
    }

    ghost predicate Valid()
      reads this
    {
      disk == if journal == [] then None else Some(journal[|journal| - 1])
    }

    ghost function Durable(writes: seq<State>): seq<State> {
      if persistent then writes else []
    }

    constructor (budget: Budget, persistent: bool)
      ensures Valid() && this.budget == budget && this.persistent == persistent
      ensures Abs() == FRESH && journal == []
    {
      this.budget := budget;
      this.persistent := persistent;
      meters, reserved, events, overruns, stopped := ZERO_METERS, 0, [], [], false;
      disk := None;
      journal := [];
    }

    method Persist()
      requires Valid()
      modifies this`disk, this`journal
      ensures Valid() && journal == old(journal) + Durable([Abs()])
    {
      if persistent {
        disk := Some(State(meters, reserved, events, overruns, stopped));
        journal := journal + [Abs()];
      }
    }

    /** Exact STOP: at the limit a further increment is refused and recorded. */
    method Refuse(d: Dimension) returns (r: OverrunRecord)
      requires Valid() && AtLimit(budget, meters, d)
      modifies this
      ensures Valid()
      ensures var o := RefuseOutcome(budget, old(Abs()), d);
        Abs() == o.after && Some(r) == o.raised && journal == old(journal) + Durable(o.writes)
    {
      r := OverrunRecord(d, budget.Limit(d).value, meters.Get(d), budget.policy, true);
      overruns := overruns + [r];
      events := events + [Overrun(r)];
      stopped := true;
      Persist();
    }

    /** After a charge: past the limit an overrun is recorded, and under STOP raised. */
    method CheckLimit(d: Dimension) returns (raised: Option<OverrunRecord>)
      requires Valid()
      modifies this
      ensures Valid()
      ensures var o := CheckOutcome(budget, old(Abs()), d);
        Abs() == o.after && raised == o.raised && journal == old(journal) + Durable(o.writes[1..])
    {
      raised := None;
      var limit := budget.Limit(d);
      if limit.Some? && meters.Get(d) > limit.value {
        var r := OverrunRecord(d, limit.value, meters.Get(d), budget.policy, budget.policy == Stop);
        overruns := overruns + [r];
        events := events + [Overrun(r)];
        Persist();
        if budget.policy == Stop {
          stopped := true;
          raised := Some(r);
        }
      }
    }

    method Add(d: Dimension, amount: real) returns (raised: Option<OverrunRecord>)
      requires Valid()
      requires IsWhole(d) ==> amount == Truncate(amount) as real
      modifies this
      ensures Valid()
      ensures var o := AddOutcome(budget, old(Abs()), d, amount);
        Abs() == o.after && raised == o.raised && journal == old(journal) + Durable(o.writes)
    {
      var limit := budget.Limit(d);
      if limit.Some? && budget.policy == Stop && meters.Get(d) >= limit.value {
        var r := Refuse(d);
        return Some(r);
      }
      WholeCharge(d, amount);
      meters := meters.Charge(d, amount);
      events := events + [Spend(d, amount, meters.Get(d))];
      assert Abs() == ChargeState(old(Abs()), d, amount);
      Persist();
      raised := CheckLimit(d);
    }

    /** The loop over a worker's events. */
    method ChargeBatch(batch: seq<Event>)
      requires Valid()
      modifies this
      ensures Valid() && Abs() == ApplyBatch(old(Abs()), batch) && journal == old(journal)
    {
      ghost var start := Abs();
      var i := 0;
      while i < |batch|
        invariant 0 <= i <= |batch|
        invariant Valid() && journal == old(journal)
        invariant Abs() == ApplyBatch(start, batch[..i])
      {
        var e := batch[i];
        assert batch[..i + 1][..i] == batch[..i];
        match e {
          case Spend(d, amount, _) =>
            meters := meters.Charge(d, amount);
            events := events + [Spend(d, Charged(d, amount), meters.Get(d))];
          case ReserveQueries(_, _, _) =>
          case ReleaseQueries(_, _) =>
          case Overrun(_) => events := events + [e];
          case Provenance(_, _) => events := events + [e];
        }
        i := i + 1;
      }
      assert batch[..|batch|] == batch;
    }

    method Merge(batch: seq<Event>, release: Option<int>) returns (raised: Option<OverrunRecord>)
      requires Valid()
      modifies this
      ensures Valid()
      ensures var o := MergeOutcome(budget, old(Abs()), batch, release);
        Abs() == o.after && raised == o.raised && journal == old(journal) + Durable(o.writes)
    {
      ChargeBatch(batch);
      if release.Some? {
        Release(release.value);
      }
      Persist();
      raised := RaiseIfOverAfterMerge();
    }

    method RaiseIfOverAfterMerge() returns (raised: Option<OverrunRecord>)
      requires Valid()
      modifies this
      ensures Valid() && Abs() == CheckedAfterMerge(budget, old(Abs()))
      ensures journal == old(journal) + Durable([Abs()])
      ensures var rs := OverrunsOf(budget, old(meters), CHECK_ORDER);
        raised == if budget.policy == Stop && rs != [] then Some(rs[0]) else None
    {
      ghost var start := Abs();
      raised := None;
      var order := CHECK_ORDER;
      ghost var rs := [];
      FlagNone(budget, start);
      var i := 0;
      while i < |order|
        invariant 0 <= i <= |order|
        invariant Valid() && journal == old(journal)
        invariant rs == OverrunsOf(budget, start.meters, order[..i])
        invariant meters == start.meters && Abs() == Flag(budget, start, rs)
        invariant raised == if budget.policy == Stop && rs != [] then Some(rs[0]) else None
      {
        var d := order[i];
        OverrunsStep(budget, start.meters, order, i);
        var limit := budget.Limit(d);
        if limit.Some? && meters.Get(d) > limit.value {
          var r := OverrunRecord(d, limit.value, meters.Get(d), budget.policy, budget.policy == Stop);
          FlagOne(budget, start, rs, r);
          rs := rs + [r];
          overruns := overruns + [r];
          events := events + [Overrun(r)];
          if budget.policy == Stop && raised.None? {
            raised := Some(r);
            stopped := true;
          }
        }
        i := i + 1;
      }
      assert order[..|order|] == order;
      Persist();
    }

    method Reserve(requested: int, pendingWorkers: int) returns (granted: int)
      requires Valid()
      modifies this
      ensures Valid() && granted == Grant(budget, old(Abs()), requested, pendingWorkers)
      ensures var o := ReserveOutcome(budget, old(Abs()), requested, pendingWorkers);
        Abs() == o.after && journal == old(journal) + Durable(o.writes)
    {
      var req := if requested > 0 then requested else 0;
      var pending := if pendingWorkers > 1 then pendingWorkers else 1;
      if budget.maxQueries.None? {
        granted := req;
        reserved := reserved + granted;
        events := events + [ReserveQueries(granted, reserved, None)];
        Persist();
        return;
      }
      var available := budget.maxQueries.value - meters.queries - reserved;
      if available <= 0 {
        granted := 0;
      } else {
        var fair := if available / pending > 1 then available / pending else 1;
        granted := if req < fair then req else fair;
        granted := if granted < available then granted else available;
      }
      reserved := reserved + granted;
      events := events + [ReserveQueries(granted, reserved, Some(pending))];
      Persist();
    }

    method Release(n: int)
      requires Valid()
      modifies this
      ensures Valid()
      ensures var o := ReleaseOutcome(old(Abs()), n);
        Abs() == o.after && journal == old(journal) + Durable(o.writes)
    {
      var rel := if n > 0 then n else 0;
      reserved := if reserved - rel > 0 then reserved - rel else 0;
      events := events + [ReleaseQueries(rel, reserved)];
      Persist();
    }

    method RecordEvent(e: Event)
      requires Valid()
      modifies this
      ensures Valid()
      ensures var o := RecordOutcome(old(Abs()), e);
        Abs() == o.after && journal == old(journal) + Durable(o.writes)
    {
      events := events + [e];
      Persist();
    }

    /** Crash recovery: the fields become the last durable snapshot, if there is one. */
    method LoadPersisted()
      requires Valid()
      modifies this
      ensures Valid() && journal == old(journal)
      ensures Abs() == if journal == [] then old(Abs()) else journal[|journal| - 1]
    {
      if disk.Some? {
        var data := disk.value;
        meters, reserved, events := data.meters, data.reserved, data.events;
        overruns, stopped := data.overruns, data.stopped;
      }
    }

    /** The self-check: which dimensions drifted from the event log, in order. */
    method Reconcile() returns (mismatches: seq<Dimension>)
      ensures forall d: Dimension :: d in mismatches <==> Drifts(Total(events, d), meters.Get(d), d)
      ensures mismatches == [] <==> Consistent(Abs())
    {
      var recon := ZERO_METERS;
      var i := 0;
      while i < |events|
        invariant 0 <= i <= |events|
        invariant forall d: Dimension :: recon.Get(d) == Total(events[..i], d)
      {
        var e := events[i];
        assert events[..i + 1][..i] == events[..i];
        if e.Spend? {
          forall d: Dimension
            ensures recon.Charge(e.d, e.amount).Get(d) == recon.Get(d) + Weight(e, d)
          {
            ChargeGet(recon, e.d, e.amount, d);
          }
          recon := recon.Charge(e.d, e.amount);
        }
        i := i + 1;
      }
      assert events[..|events|] == events;
      mismatches := [];
      var order := [Queries, Steps, Tokens, CostUsd, Candidates, ComputeUnits];
      var k := 0;
      while k < |order|
        invariant 0 <= k <= |order|
        invariant forall d: Dimension :: d in mismatches <==>
          d in order[..k] && Drifts(Total(events, d), meters.Get(d), d)
      {
        var d := order[k];
        if Drifts(recon.Get(d), meters.Get(d), d) {
          mismatches := mismatches + [d];
        }
        k := k + 1;
      }
      assert order[..|order|] == order == CHECK_ORDER;
      AllInOrder();
      if mismatches != [] {
        assert mismatches[0] in mismatches;
        assert Drifts(Total(Abs().events, mismatches[0]), Abs().meters.Get(mismatches[0]), mismatches[0]);
      }
    }
  }

  lemma AllInOrder()
    ensures forall d: Dimension :: d in CHECK_ORDER
  {
    forall d: Dimension
      ensures d in CHECK_ORDER
    {
      match d
      case Queries => assert CHECK_ORDER[0] == d;
      case Steps => assert CHECK_ORDER[1] == d;
      case Tokens => assert CHECK_ORDER[2] == d;
      case CostUsd => assert CHECK_ORDER[3] == d;
      case Candidates => assert CHECK_ORDER[4] == d;
      case ComputeUnits => assert CHECK_ORDER[5] == d;
    }
  }
}
