/**
 Crash and resume: over every run of segments, cancellations and crashes (between
 segments or inside one, after any of its durable writes) the disk never loses a
 charge, and a unit with a result file is never run or charged again.
 */
module LauncherCrash {
  import opened Prelude
  import opened Ledger
  import opened LedgerLaws
  import opened Launcher
  import opened LauncherLaws

  /** What the unit files claim was spent of a dimension. */
  function FileSpend(files: seq<UnitFile>, d: Dimension): real {
    if files == [] then 0.0
    else FileSpend(files[..|files| - 1], d) + BodySpend(files[|files| - 1].body, d)
  }

  function BodySpend(body: FileBody, d: Dimension): real {
    match body
    case Completed(r) => Spent(r, d)
    case FailedBody => 0.0
  }

  ghost predicate FilesWithin(files: seq<UnitFile>, m: Meters) {
    forall d: Dimension :: FileSpend(files, d) <= m.Get(d)
  }

  /** The counters grew by at least what one more file claims. */
  ghost predicate Covered(m: Meters, body: FileBody, m': Meters) {
    forall d: Dimension :: m.Get(d) + BodySpend(body, d) <= m'.Get(d)
  }

  /** What a snapshot must share with the memory it mirrors. The launcher appends one
      overrun record without a write when a worker's voucher ran out, and add_* sets
      `stopped` after its write; neither is part of the mirror. */
  ghost predicate SameBooks(s: State, s': State) {
    s.meters == s'.meters && s.reserved == s'.reserved && s.events == s'.events
  }

  ghost predicate DistinctFiles(files: seq<UnitFile>) {
    forall i, j :: 0 <= i < j < |files| ==> files[i].id != files[j].id
  }

  ghost predicate DistinctUnits(units: seq<Unit>) {
    forall i, j :: 0 <= i < j < |units| ==> units[i].id != units[j].id
  }

  ghost predicate Coherent(y: System) {
    && Reconciles(y.mem.ledger)
    && (match y.store.disk
        case None => SameBooks(FRESH, y.mem.ledger) && forall f :: f in y.store.files ==> f.body.FailedBody?
        case Some(s) => Reconciles(s) && SameBooks(s, y.mem.ledger))
    && FilesWithin(y.store.files, y.mem.ledger.meters)
    && DistinctFiles(y.store.files)
    && DistinctUnits(y.mem.units)
    && (forall u :: u in y.mem.units && u.task.InFlight? ==> !HasFile(y.store.files, u.id))
  }

  // ---------------------------------------------------------------- the writes of one segment

  ghost predicate GoodWrites(from: State, ws: seq<State>, to: State) {
    && (forall w :: w in ws ==> Reconciles(w))
    && Reconciles(to)
    && Climbs(from.meters, ws, to.meters)
    && (if ws == [] then SameBooks(from, to) else SameBooks(ws[|ws| - 1], to))
  }

  lemma GoodJoin(from: State, ws: seq<State>, mid: State, ws': seq<State>, to: State)
    requires GoodWrites(from, ws, mid) && GoodWrites(mid, ws', to)
    ensures GoodWrites(from, ws + ws', to)
  {
    ClimbsJoin(from.meters, ws, mid.meters, ws', to.meters);
  }

  lemma GoodApply(b: Budget, s: State, op: Op)
    requires Reconciles(s) && Gentle(op)
    ensures GoodWrites(s, Apply(b, s, op).writes, Apply(b, s, op).after)
  {
    ApplyReconciles(b, s, op);
    ApplyClimbs(b, s, op);
  }

  lemma {:induction false} GoodRun(b: Budget, s: State, ops: seq<Op>)
    requires Reconciles(s) && forall op :: op in ops ==> Gentle(op)
    ensures GoodWrites(s, RunUntilRaise(b, s, ops).writes, RunUntilRaise(b, s, ops).after)
    decreases ops
  {
    if ops == [] {
      GoodNothing(s);
    } else {
      GoodApply(b, s, ops[0]);
      var o := Apply(b, s, ops[0]);
      if o.raised.None? {
        GoodRun(b, o.after, ops[1..]);
        var rest := RunUntilRaise(b, o.after, ops[1..]);
        GoodJoin(s, o.writes, o.after, rest.writes, rest.after);
      }
    }
  }

  lemma GoodNothing(s: State)
    requires Reconciles(s)
    ensures GoodWrites(s, [], s)
  {
  }

  lemma GoodFlush(s: State)
    requires Reconciles(s)
    ensures GoodWrites(s, [s], s)
  {
  }

  ghost predicate NonNegativeLabel(l: Label) {
    match l
    case Do(g) => NonNegativeSegment(g)
    case Crash(Some(g), _, _) => NonNegativeSegment(g)
    case _ => true
  }

  ghost predicate NonNegativeSegment(g: Segment) {
    g.SettleSegment? ==> NonNegative(g.result)
  }

  /** The durable writes of a segment: ledger snapshots that climb, then at most the
      unit's own file, written only after its whole spend is on the disk. */
  ghost predicate Shape(y: System, g: Segment, o: SegmentOutcome, ws: seq<State>, tail: seq<UnitFile>)
    requires g.i < |y.mem.units|
  {
    && o.durable == LedgerWrites(ws) + (if tail == [] then [] else [UnitWrite(tail[0])])
    && |tail| <= 1
    && GoodWrites(y.mem.ledger, ws, o.mem.ledger)
    && |o.mem.units| == |y.mem.units|
    && (forall j :: 0 <= j < |y.mem.units| ==> o.mem.units[j].id == y.mem.units[j].id)
    && (forall j :: 0 <= j < |y.mem.units| && j != g.i ==> o.mem.units[j].task == y.mem.units[j].task)
    && (o.mem.units[g.i].task.InFlight? ==> !HasFile(y.store.files, y.mem.units[g.i].id) && tail == [])
    && (tail != [] ==>
          && y.mem.units[g.i].task.InFlight?
          && tail[0].id == y.mem.units[g.i].id
          && (tail[0].body.Completed? ==> ws != [])
          && Covered(y.mem.ledger.meters, tail[0].body, o.mem.ledger.meters))
  }

  lemma BeginNothing(b: Budget, y: System, i: nat)
    requires Coherent(y) && Enabled(y.mem, BeginSegment(i)) && !Reserves(b, y.mem, y.store.files, i)
    ensures Shape(y, BeginSegment(i), Perform(b, y, BeginSegment(i)), [], [])
  {
    GoodNothing(y.mem.ledger);
  }

  lemma ProbeGood(b: Budget, s: State)
    requires Reconciles(s) && b.maxQueries.Some?
    ensures GoodWrites(s, Probe(b, s).writes, Probe(b, s).after)
  {
    if Available(b, s) <= 0 && b.policy == Stop {
      GoodApply(b, s, AddOp(Queries, 1.0));
    } else {
      GoodNothing(s);
    }
  }

  lemma BeginProbed(b: Budget, y: System, i: nat)
    requires Coherent(y) && Enabled(y.mem, BeginSegment(i)) && Reserves(b, y.mem, y.store.files, i)
    requires Probe(b, y.mem.ledger).raised.Some?
    ensures Shape(y, BeginSegment(i), Perform(b, y, BeginSegment(i)), Probe(b, y.mem.ledger).writes, [])
  {
    ProbeGood(b, y.mem.ledger);
  }

  lemma ReserveGood(b: Budget, s: State, pending: int)
    requires Reconciles(s) && b.maxQueries.Some? && pending >= 1
    ensures var probe := Probe(b, s);
      var o := ReserveOutcome(b, probe.after, Available(b, s), pending);
      GoodWrites(s, probe.writes + o.writes, o.after)
  {
    var probe := Probe(b, s);
    var op := ReserveOp(Available(b, s), pending);
    ProbeGood(b, s);
    GoodApply(b, probe.after, op);
    GoodJoin(s, probe.writes, probe.after, Apply(b, probe.after, op).writes, Apply(b, probe.after, op).after);
  }

  lemma BeginReserved(b: Budget, y: System, i: nat) returns (ws: seq<State>)
    requires Coherent(y) && Enabled(y.mem, BeginSegment(i)) && Reserves(b, y.mem, y.store.files, i)
    requires Probe(b, y.mem.ledger).raised.None?
    ensures Shape(y, BeginSegment(i), Perform(b, y, BeginSegment(i)), ws, [])
  {
    var m := y.mem;
    var pending := AtLeast(PendingLeft(m.units[i := Unit(m.units[i].id, RunningUnit, NotStarted)]), 1);
    ReserveGood(b, m.ledger, pending);
    var probe := Probe(b, m.ledger);
    ws := probe.writes + ReserveOutcome(b, probe.after, Available(b, m.ledger), pending).writes;
  }

  lemma BeginShape(b: Budget, y: System, i: nat) returns (ws: seq<State>)
    requires Coherent(y) && Enabled(y.mem, BeginSegment(i))
    ensures Shape(y, BeginSegment(i), Perform(b, y, BeginSegment(i)), ws, [])
  {
    if !Reserves(b, y.mem, y.store.files, i) {
      BeginNothing(b, y, i);
      ws := [];
    } else if Probe(b, y.mem.ledger).raised.Some? {
      BeginProbed(b, y, i);
      ws := Probe(b, y.mem.ledger).writes;
    } else {
      ws := BeginReserved(b, y, i);
    }
  }

  lemma FailShape(b: Budget, y: System, i: nat) returns (ws: seq<State>, tail: seq<UnitFile>)
    requires Coherent(y) && Enabled(y.mem, FailSegment(i))
    ensures Shape(y, FailSegment(i), Perform(b, y, FailSegment(i)), ws, tail)
  {
    var v := y.mem.units[i].task.voucher;
    GoodNothing(y.mem.ledger);
    GoodApply(b, y.mem.ledger, ReleaseOp(v));
    ws := if v != 0 then Apply(b, y.mem.ledger, ReleaseOp(v)).writes else [];
    tail := [UnitFile(y.mem.units[i].id, FailedBody)];
  }

  lemma SettleRaisedBooks(b: Budget, m: Memory, i: nat, r: WorkerResult) returns (ws: seq<State>)
    requires i < |m.units| && m.units[i].task.InFlight? && NonNegative(r) && Reconciles(m.ledger)
    requires var v := m.units[i].task.voucher;
      RunUntilRaise(b, m.ledger, SettleOps(r, if r.reportedVoucher != 0 then r.reportedVoucher else v)).raised.Some?
    ensures Settle(b, m, i, r).durable == LedgerWrites(ws)
    ensures GoodWrites(m.ledger, ws, Settle(b, m, i, r).mem.ledger)
  {
    var v := m.units[i].task.voucher;
    var ops := SettleOps(r, if r.reportedVoucher != 0 then r.reportedVoucher else v);
    var o := RunUntilRaise(b, m.ledger, ops);
    SettleOpsGentle(r, if r.reportedVoucher != 0 then r.reportedVoucher else v);
    GoodRun(b, m.ledger, ops);
    var leak := Leak(o.after, v);
    GoodNothing(o.after);
    GoodApply(b, o.after, ReleaseOp(v));
    GoodJoin(m.ledger, o.writes, o.after, leak.writes, leak.after);
    ws := o.writes + leak.writes;
  }

  lemma SettleQuietBooks(b: Budget, m: Memory, i: nat, r: WorkerResult) returns (ws: seq<State>)
    requires i < |m.units| && m.units[i].task.InFlight? && NonNegative(r) && Reconciles(m.ledger)
    requires var v := m.units[i].task.voucher;
      RunUntilRaise(b, m.ledger, SettleOps(r, if r.reportedVoucher != 0 then r.reportedVoucher else v)).raised.None?
    ensures ws != []
    ensures Settle(b, m, i, r).durable == LedgerWrites(ws) + [UnitWrite(UnitFile(m.units[i].id, Completed(r)))]
    ensures GoodWrites(m.ledger, ws, Settle(b, m, i, r).mem.ledger)
    ensures Covered(m.ledger.meters, Completed(r), Settle(b, m, i, r).mem.ledger.meters)
  {
    var v := m.units[i].task.voucher;
    var ops := SettleOps(r, if r.reportedVoucher != 0 then r.reportedVoucher else v);
    var o := RunUntilRaise(b, m.ledger, ops);
    SettleOpsGentle(r, if r.reportedVoucher != 0 then r.reportedVoucher else v);
    GoodRun(b, m.ledger, ops);
    ConsistentWhenReconciled(o.after);
    var to := Settle(b, m, i, r).mem.ledger;
    SettledCovers(b, m.ledger, r, if r.reportedVoucher != 0 then r.reportedVoucher else v);
    assert SameBooks(o.after, to);
    QuietReconciles(o.after, [], to);
    GoodFlush(o.after);
    GoodJoin(m.ledger, o.writes, o.after, [o.after], o.after);
    ws := o.writes + [o.after];
    RenameEnd(m.ledger, ws, o.after, to);
  }

  lemma SettledCovers(b: Budget, s: State, r: WorkerResult, release: int)
    requires NonNegative(r) && RunUntilRaise(b, s, SettleOps(r, release)).raised.None?
    ensures Covered(s.meters, Completed(r), RunUntilRaise(b, s, SettleOps(r, release)).after.meters)
  {
    SettleOpsGentle(r, release);
    forall d: Dimension
      ensures s.meters.Get(d) + Spent(r, d) <= RunUntilRaise(b, s, SettleOps(r, release)).after.meters.Get(d)
    {
      SettleCharges(r, release, d);
      RunCharges(b, s, SettleOps(r, release), d);
    }
  }

  lemma RenameEnd(from: State, ws: seq<State>, to: State, to': State)
    requires GoodWrites(from, ws, to) && SameBooks(to, to') && Reconciles(to')
    ensures GoodWrites(from, ws, to')
  {
  }

  lemma SettleUnits(b: Budget, m: Memory, i: nat, r: WorkerResult)
    requires i < |m.units| && m.units[i].task.InFlight?
    ensures var m' := Settle(b, m, i, r).mem;
      && |m'.units| == |m.units| && m'.units[i].task.Finished?
      && (forall j :: 0 <= j < |m.units| ==> m'.units[j].id == m.units[j].id)
      && (forall j :: 0 <= j < |m.units| && j != i ==> m'.units[j].task == m.units[j].task)
  {
  }

  lemma SettleShape(b: Budget, y: System, i: nat, r: WorkerResult) returns (ws: seq<State>, tail: seq<UnitFile>)
    requires Coherent(y) && Enabled(y.mem, SettleSegment(i, r)) && NonNegative(r)
    ensures Shape(y, SettleSegment(i, r), Perform(b, y, SettleSegment(i, r)), ws, tail)
  {
    var v := y.mem.units[i].task.voucher;
    var ops := SettleOps(r, if r.reportedVoucher != 0 then r.reportedVoucher else v);
    SettleUnits(b, y.mem, i, r);
    if RunUntilRaise(b, y.mem.ledger, ops).raised.Some? {
      ws := SettleRaisedBooks(b, y.mem, i, r);
      tail := [];
      assert LedgerWrites(ws) + [] == LedgerWrites(ws);
    } else {
      ws := SettleQuietBooks(b, y.mem, i, r);
      tail := [UnitFile(y.mem.units[i].id, Completed(r))];
    }
  }

  /** assert_consistent never fires: the log of a reconciled ledger explains it. */
  lemma ConsistentWhenReconciled(s: State)
    requires Reconciles(s)
    ensures Consistent(s)
  {
    forall d: Dimension
      ensures !Drifts(Total(s.events, d), s.meters.Get(d), d)
    {
      assert Total(s.events, d) == s.meters.Get(d);
    }
  }

  lemma SegmentShape(b: Budget, y: System, g: Segment) returns (ws: seq<State>, tail: seq<UnitFile>)
    requires Coherent(y) && Enabled(y.mem, g) && NonNegativeSegment(g)
    ensures Shape(y, g, Perform(b, y, g), ws, tail)
  {
    match g
    case BeginSegment(i) => ws := BeginShape(b, y, i); tail := [];
    case SettleSegment(i, r) => ws, tail := SettleShape(b, y, i, r);
    case FailSegment(i) => ws, tail := FailShape(b, y, i);
  }

  // ---------------------------------------------------------------- all runs

  lemma {:induction false} AllFailedNoMeters(files: seq<UnitFile>)
    requires forall f :: f in files ==> f.body.FailedBody?
    ensures MetersOf(files) == ZERO_METERS
  {
    if files != [] {
      assert files[|files| - 1] in files;
      AllFailedNoMeters(files[..|files| - 1]);
    }
  }

  lemma NewFile(files: seq<UnitFile>, f: UnitFile)
    requires DistinctFiles(files) && !HasFile(files, f.id)
    ensures DistinctFiles(files + [f])
    ensures forall d: Dimension :: FileSpend(files + [f], d) == FileSpend(files, d) + BodySpend(f.body, d)
    ensures forall h :: HasFile(files + [f], h) <==> h == f.id || HasFile(files, h)
  {
    assert (files + [f])[..|files|] == files;
    forall h | h == f.id || HasFile(files, h)
      ensures HasFile(files + [f], h)
    {
      if h == f.id {
        assert (files + [f])[|files|].id == h;
      } else {
        var k :| 0 <= k < |files| && files[k].id == h;
        assert (files + [f])[k].id == h;
      }
    }
    forall h | HasFile(files + [f], h) && h != f.id
      ensures HasFile(files, h)
    {
      var k :| 0 <= k < |files + [f]| && (files + [f])[k].id == h;
      assert files[k].id == h;
    }
  }

  /** The disk after a prefix of a segment's writes, seen as a store of its own. */
  ghost predicate CoherentStore(store: Store, books: State) {
    && Reconciles(books)
    && (match store.disk
        case None => SameBooks(FRESH, books) && forall f :: f in store.files ==> f.body.FailedBody?
        case Some(s) => Reconciles(s) && SameBooks(s, books))
    && FilesWithin(store.files, books.meters)
    && DistinctFiles(store.files)
  }

  function LastBooks(from: State, ws: seq<State>): State {
    if ws == [] then from else ws[|ws| - 1]
  }

  lemma PrefixStore(y: System, g: Segment, o: SegmentOutcome, ws: seq<State>, tail: seq<UnitFile>, kept: nat)
    requires Coherent(y) && g.i < |y.mem.units| && Shape(y, g, o, ws, tail) && kept <= |o.durable|
    ensures var books := if kept <= |ws| then LastBooks(y.mem.ledger, ws[..kept]) else o.mem.ledger;
      && CoherentStore(Persisted(y.store, o.durable[..kept]), books)
      && Leq(y.mem.ledger.meters, books.meters)
    ensures Persisted(y.store, o.durable[..kept]).files ==
            if kept <= |ws| then y.store.files else y.store.files + tail
  {
    if kept <= |ws| {
      PrefixBooks(y, g, o, ws, tail, kept);
    } else {
      WholeStore(y, g, o, ws, tail);
      assert tail != [] && o.durable[..kept] == o.durable;
    }
  }

  lemma FilesStayWithin(files: seq<UnitFile>, m: Meters, m': Meters)
    requires FilesWithin(files, m) && Leq(m, m')
    ensures FilesWithin(files, m')
  {
    forall d: Dimension
      ensures FileSpend(files, d) <= m'.Get(d)
    {
      assert FileSpend(files, d) <= m.Get(d) && m.Get(d) <= m'.Get(d);
    }
  }

  lemma NewFileWithin(files: seq<UnitFile>, f: UnitFile, m: Meters, m': Meters)
    requires DistinctFiles(files) && !HasFile(files, f.id)
    requires FilesWithin(files, m) && Covered(m, f.body, m')
    ensures FilesWithin(files + [f], m')
  {
    NewFile(files, f);
    forall d: Dimension
      ensures FileSpend(files + [f], d) <= m'.Get(d)
    {
      assert FileSpend(files, d) <= m.Get(d) && m.Get(d) + BodySpend(f.body, d) <= m'.Get(d);
    }
  }

  /** Cut among the ledger snapshots. */
  lemma PrefixBooks(y: System, g: Segment, o: SegmentOutcome, ws: seq<State>, tail: seq<UnitFile>, kept: nat)
    requires Coherent(y) && g.i < |y.mem.units| && Shape(y, g, o, ws, tail) && kept <= |ws|
    ensures var books := LastBooks(y.mem.ledger, ws[..kept]);
      CoherentStore(Persisted(y.store, o.durable[..kept]), books) && Leq(y.mem.ledger.meters, books.meters)
    ensures Persisted(y.store, o.durable[..kept]).files == y.store.files
  {
    assert o.durable[..kept] == LedgerWrites(ws[..kept]);
    PersistedLedger(y.store, ws[..kept]);
    if kept > 0 {
      assert ws[kept - 1] in ws;
      FilesStayWithin(y.store.files, y.mem.ledger.meters, ws[kept - 1].meters);
    }
  }

  /** Cut after the unit's own file, which comes last. */
  lemma WholeStore(y: System, g: Segment, o: SegmentOutcome, ws: seq<State>, tail: seq<UnitFile>)
    requires Coherent(y) && g.i < |y.mem.units| && Shape(y, g, o, ws, tail) && tail != []
    ensures CoherentStore(Persisted(y.store, o.durable), o.mem.ledger) && Leq(y.mem.ledger.meters, o.mem.ledger.meters)
    ensures Persisted(y.store, o.durable).files == y.store.files + tail
  {
    PersistedUnit(y.store, ws, tail[0]);
    assert y.mem.units[g.i] in y.mem.units;
    NewFile(y.store.files, tail[0]);
    NewFileWithin(y.store.files, tail[0], y.mem.ledger.meters, o.mem.ledger.meters);
    assert tail == [tail[0]];
    if ws != [] {
      assert ws[|ws| - 1] in ws;
    }
  }

  lemma RestartCoherent(y: System, store: Store, work: seq<Handle>, books: State)
    requires CoherentStore(store, books) && Distinct(work)
    ensures Coherent(Restart(y, store, work))
    ensures SameBooks(Restart(y, store, work).mem.ledger, books)
    ensures Restart(y, store, work).store.files == store.files
  {
    if store.disk.None? {
      AllFailedNoMeters(store.files);
    }
  }

  /** Units stay distinct, and none in flight has a file. */
  lemma QuietShapeUnit(y: System, g: Segment, o: SegmentOutcome, ws: seq<State>, j: nat)
    requires Coherent(y) && g.i < |y.mem.units| && Shape(y, g, o, ws, [])
    requires j < |o.mem.units| && o.mem.units[j].task.InFlight?
    ensures !HasFile(y.store.files, o.mem.units[j].id)
  {
    assert y.mem.units[j] in y.mem.units;
  }

  lemma FiledShapeUnit(y: System, g: Segment, o: SegmentOutcome, ws: seq<State>, f: UnitFile, j: nat)
    requires Coherent(y) && g.i < |y.mem.units| && Shape(y, g, o, ws, [f])
    requires j < |o.mem.units| && o.mem.units[j].task.InFlight?
    ensures !HasFile(y.store.files + [f], o.mem.units[j].id)
  {
    assert j != g.i;
    assert y.mem.units[j] in y.mem.units && y.mem.units[g.i] in y.mem.units;
    NewFile(y.store.files, f);
  }

  lemma ShapeUnits(y: System, g: Segment, o: SegmentOutcome, ws: seq<State>, tail: seq<UnitFile>)
    requires Coherent(y) && g.i < |y.mem.units| && Shape(y, g, o, ws, tail)
    ensures DistinctUnits(o.mem.units)
    ensures forall u :: u in o.mem.units && u.task.InFlight? ==> !HasFile(y.store.files + tail, u.id)
  {
    forall u | u in o.mem.units && u.task.InFlight?
      ensures !HasFile(y.store.files + tail, u.id)
    {
      var j :| 0 <= j < |o.mem.units| && o.mem.units[j] == u;
      if tail == [] {
        QuietShapeUnit(y, g, o, ws, j);
        assert y.store.files + tail == y.store.files;
      } else {
        assert tail == [tail[0]];
        FiledShapeUnit(y, g, o, ws, tail[0], j);
      }
    }
  }

  lemma DoCoherent(b: Budget, y: System, g: Segment)
    requires Coherent(y) && Enabled(y.mem, g) && NonNegativeSegment(g)
    ensures Coherent(Step(b, y, Do(g)))
    ensures Leq(y.mem.ledger.meters, Step(b, y, Do(g)).mem.ledger.meters)
  {
    var o := Perform(b, y, g);
    var ws, tail := SegmentShape(b, y, g);
    ShapeUnits(y, g, o, ws, tail);
    ShapeStore(y, g, o, ws, tail);
  }

  /** All the writes of a segment on the disk. */
  lemma ShapeStore(y: System, g: Segment, o: SegmentOutcome, ws: seq<State>, tail: seq<UnitFile>)
    requires Coherent(y) && g.i < |y.mem.units| && Shape(y, g, o, ws, tail)
    ensures CoherentStore(Persisted(y.store, o.durable), o.mem.ledger)
    ensures Persisted(y.store, o.durable).files == y.store.files + tail
  {
    if tail == [] {
      assert y.store.files + [] == y.store.files;
      PrefixBooks(y, g, o, ws, tail, |ws|);
      assert o.durable[..|ws|] == o.durable && ws[..|ws|] == ws;
      SameBooksStore(Persisted(y.store, o.durable), LastBooks(y.mem.ledger, ws), o.mem.ledger);
    } else {
      WholeStore(y, g, o, ws, tail);
    }
  }

  lemma SameBooksStore(store: Store, books: State, books': State)
    requires CoherentStore(store, books) && SameBooks(books, books') && Reconciles(books')
    ensures CoherentStore(store, books')
  {
  }

  lemma StepCoherent(b: Budget, y: System, l: Label)
    requires Coherent(y) && NonNegativeLabel(l)
    ensures Coherent(Step(b, y, l))
    ensures Leq(y.mem.ledger.meters, Step(b, y, l).mem.ledger.meters)
  {
    match l
    case Do(g) =>
      if Enabled(y.mem, g) {
        DoCoherent(b, y, g);
      }
    case CancelCall(who) => CancelCoherent(b, y, l);
    case Crash(during, kept, work) =>
      if Distinct(work) {
        if during.None? || !Enabled(y.mem, during.value) {
          RestartCoherent(y, y.store, work, y.mem.ledger);
        } else {
          CrashCoherent(b, y, l);
        }
      }
  }

  lemma CancelCoherent(b: Budget, y: System, l: Label)
    requires Coherent(y) && l.CancelCall?
    ensures Coherent(Step(b, y, l))
    ensures Leq(y.mem.ledger.meters, Step(b, y, l).mem.ledger.meters)
  {
    var after := Step(b, y, l);
    forall u | u in after.mem.units && u.task.InFlight?
      ensures !HasFile(after.store.files, u.id)
    {
      var j :| 0 <= j < |after.mem.units| && after.mem.units[j] == u;
      assert y.mem.units[j] in y.mem.units;
    }
  }

  /** The books a crash inside a segment can leave: those before it, one of its
      snapshots, or those it would have ended with. */
  ghost predicate Survives(before: State, o: SegmentOutcome, s: State) {
    || SameBooks(s, before)
    || SameBooks(s, o.mem.ledger)
    || exists w :: LedgerWrite(w) in o.durable && SameBooks(s, w)
  }

  lemma LastSurvives(before: State, o: SegmentOutcome, ws: seq<State>, tail: seq<Durable>, k: nat, s: State)
    requires o.durable == LedgerWrites(ws) + tail && k <= |ws| && SameBooks(s, LastBooks(before, ws[..k]))
    ensures Survives(before, o, s)
  {
    if k > 0 {
      assert o.durable[k - 1] == LedgerWrite(ws[k - 1]);
      assert ws[..k][k - 1] == ws[k - 1];
    }
  }

  /** A crash in the middle of a segment: some of its writes are on the disk. */
  lemma CrashCoherent(b: Budget, y: System, l: Label)
    requires Coherent(y) && NonNegativeLabel(l)
    requires l.Crash? && l.during.Some? && Enabled(y.mem, l.during.value) && Distinct(l.work)
    ensures Coherent(Step(b, y, l))
    ensures Leq(y.mem.ledger.meters, Step(b, y, l).mem.ledger.meters)
    ensures Survives(y.mem.ledger, Perform(b, y, l.during.value), Step(b, y, l).mem.ledger)
  {
    var g := l.during.value;
    var o := Perform(b, y, g);
    var ws, tail := SegmentShape(b, y, g);
    var k := if l.kept < |o.durable| then l.kept else |o.durable|;
    PrefixStore(y, g, o, ws, tail, k);
    var books := if k <= |ws| then LastBooks(y.mem.ledger, ws[..k]) else o.mem.ledger;
    var dispatched := y.(dispatched := y.dispatched + Dispatch(y.mem, o.mem, g));
    RestartCoherent(dispatched, Persisted(y.store, o.durable[..k]), l.work, books);
    if k <= |ws| {
      LastSurvives(y.mem.ledger, o, ws, o.durable[|ws|..], k, Step(b, y, l).mem.ledger);
    }
  }

  /** Crash safety. Over every run, crashes included, the ledger on the disk explains
      itself, agrees with the memory, and covers at least what the unit files say was
      spent; and no counter is ever lower than it was, whatever crashed in between. */
  lemma {:induction false} CrashNeverRefunds(b: Budget, y: System, ls: seq<Label>)
    requires Coherent(y) && forall l :: l in ls ==> NonNegativeLabel(l)
    ensures Coherent(Exec(b, y, ls))
    ensures Leq(y.mem.ledger.meters, Exec(b, y, ls).mem.ledger.meters)
    ensures var e := Exec(b, y, ls);
      e.store.disk.Some? ==>
        && Reconciles(e.store.disk.value)
        && Leq(y.mem.ledger.meters, e.store.disk.value.meters)
        && FilesWithin(e.store.files, e.store.disk.value.meters)
  {
    if ls != [] {
      var front := ls[..|ls| - 1];
      CrashNeverRefunds(b, y, front);
      StepCoherent(b, Exec(b, y, front), ls[|ls| - 1]);
      LeqTransitive(y.mem.ledger.meters, Exec(b, y, front).mem.ledger.meters, Exec(b, y, ls).mem.ledger.meters);
    }
  }

  /** A crash between segments loses nothing: the next coordinator starts from the
      same counters, the same reservations and the same log, so from the same
      available capacity. */
  lemma CrashBetweenSegmentsLosesNothing(b: Budget, y: System, kept: nat, work: seq<Handle>)
    requires Coherent(y) && Distinct(work)
    ensures var s := Step(b, y, Crash(None, kept, work)).mem.ledger;
      && SameBooks(s, y.mem.ledger)
      && (b.maxQueries.Some? ==> Available(b, s) == Available(b, y.mem.ledger))
  {
    RestartCoherent(y, y.store, work, y.mem.ledger);
  }

  ghost predicate KeepsUnit(y: System, y': System, h: Handle) {
    HasFile(y'.store.files, h) && multiset(y'.dispatched)[h] == multiset(y.dispatched)[h]
  }

  lemma {:induction false} FilesGrow(store: Store, ds: seq<Durable>, h: Handle)
    requires HasFile(store.files, h)
    ensures HasFile(Persisted(store, ds).files, h)
  {
    if ds != [] {
      var before := Persisted(store, ds[..|ds| - 1]);
      FilesGrow(store, ds[..|ds| - 1], h);
      var k :| 0 <= k < |before.files| && before.files[k].id == h;
      assert Persisted(store, ds).files[k].id == h;
    }
  }

  lemma StepKeepsUnit(b: Budget, y: System, l: Label, h: Handle)
    requires Coherent(y) && HasFile(y.store.files, h)
    ensures KeepsUnit(y, Step(b, y, l), h)
  {
    match l
    case Do(g) =>
      if Enabled(y.mem, g) {
        FilesGrow(y.store, Perform(b, y, g).durable, h);
      }
    case CancelCall(_) =>
    case Crash(during, kept, _) =>
      if during.Some? && Enabled(y.mem, during.value) {
        var o := Perform(b, y, during.value);
        FilesGrow(y.store, o.durable[..if kept < |o.durable| then kept else |o.durable|], h);
      }
  }

  /** A unit whose result file exists is never handed to a worker again, and its file
      is never written again, whatever runs, cancels or crashes follow. */
  lemma {:induction false} FinishedUnitsNeverRunAgain(b: Budget, y: System, ls: seq<Label>, h: Handle)
    requires Coherent(y) && forall l :: l in ls ==> NonNegativeLabel(l)
    requires HasFile(y.store.files, h)
    ensures KeepsUnit(y, Exec(b, y, ls), h)
    ensures DistinctFiles(Exec(b, y, ls).store.files)
  {
    CrashNeverRefunds(b, y, ls);
    if ls != [] {
      var front := ls[..|ls| - 1];
      FinishedUnitsNeverRunAgain(b, y, front, h);
      CrashNeverRefunds(b, y, front);
      StepKeepsUnit(b, Exec(b, y, front), ls[|ls| - 1], h);
    }
  }

  lemma EmptyDirectoryIsCoherent(work: seq<Handle>)
    requires Distinct(work)
    ensures Coherent(System(Memory(FRESH, Fresh(work), false, false), Store(None, []), []))
  {
  }
}
