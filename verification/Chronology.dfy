/**
 Prospective deployment calibration of src/verifierlab/assurance/deployment.py:
 predictions and outcomes are appended to a hash-linked chronology and then filed. Over
 every sequence of calls, including calls that append and then raise, an outcome that
 is on file stands after its prediction in the chronology.
 */
module Chronology {
  import opened Prelude
  import opened HashChain

  /** `pred-<id>` and `out-<id>`; a missing outcome_id prints as None. */
  datatype EventId = PredictionEvent(id: string) | OutcomeEvent(id: string)

  datatype Body = Body(id: EventId, payload: Digest, recordedAt: real)

  type Event = Row<Body>

  datatype Prediction = Prediction(registeredAt: real, payload: Digest)

  datatype Outcome = Outcome(predictionId: string, observedAt: real, censored: bool, payload: Digest)

  /** Everything on disk under a deployment root. */
  datatype Root = Root(
    chain: seq<Event>,
    predictions: map<string, Prediction>,
    outcomes: map<string, Outcome>)

  const EMPTY := Root([], map[], map[])

  datatype Failure =
    | MissingId
    | OutcomeExists
    | NotRegistered
    | NoPredictionEvent
    | NotInChain
    | Retrospective
    | EarlierThanPrediction
    | InvalidRecord

  // ---------------------------------------------------------------- the chronology

  /** order[id]: the last position of an event id, or -1. */
  function LastIndex(chain: seq<Event>, id: EventId): (r: int)
    ensures -1 <= r < |chain|
    ensures r >= 0 ==> chain[r].body.id == id
    ensures forall i :: r < i < |chain| ==> chain[i].body.id != id
  {
    if chain == [] then -1
    else if chain[|chain| - 1].body.id == id then |chain| - 1
    else LastIndex(chain[..|chain| - 1], id)
  }

  lemma LastIndexAppend(chain: seq<Event>, e: Event, id: EventId)
    ensures LastIndex(chain + [e], id) == if e.body.id == id then |chain| else LastIndex(chain, id)
  {
    assert (chain + [e])[..|chain|] == chain;
  }

  function PrecedenceError(chain: seq<Event>, prediction: EventId, outcome: EventId): Option<Failure> {
    if LastIndex(chain, prediction) < 0 then Some(NotInChain)
    else if LastIndex(chain, outcome) < 0 then Some(NotInChain)
    else if LastIndex(chain, outcome) <= LastIndex(chain, prediction) then Some(Retrospective)
    else None
  }

  function Appended(hash: Hash<Body>, chain: seq<Event>, body: Body): seq<Event> {
    chain + [Next(hash, chain, body)]
  }

  predicate HasPredictionEvent(chain: seq<Event>) {
    exists i :: 0 <= i < |chain| && chain[i].body.id.PredictionEvent?
  }

  // ---------------------------------------------------------------- calls

  /** A call as its caller makes it; `valid` says whether the record passes its model. */
  datatype Call =
    | Register(predictionId: string, registeredAt: real, payload: Digest, valid: bool)
    | Ingest(outcomeId: Option<string>, outcome: Outcome, valid: bool)

  /** The disk after a call, and what it raised. */
  datatype Reply = Reply(root: Root, raised: Option<Failure>)

  function RegisterReply(hash: Hash<Body>, root: Root, c: Call): Reply
    requires c.Register?
  {
    if c.predictionId == "" then Reply(root, Some(MissingId))
    else if exists o :: o in root.outcomes && root.outcomes[o].predictionId == c.predictionId then
      Reply(root, Some(OutcomeExists))
    else
      var body := Body(PredictionEvent(c.predictionId), c.payload, c.registeredAt);
      var logged := root.(chain := Appended(hash, root.chain, body));
      if !c.valid then Reply(logged, Some(InvalidRecord))
      else
        var filed := root.predictions[c.predictionId := Prediction(c.registeredAt, c.payload)];
        Reply(logged.(predictions := filed), None)
  }

  function OutcomeName(id: Option<string>): string {
    match id case None => "None" case Some(s) => s
  }

  function IngestReply(hash: Hash<Body>, root: Root, c: Call): Reply
    requires c.Ingest?
  {
    var p := c.outcome.predictionId;
    if p !in root.predictions then Reply(root, Some(NotRegistered))
    else if !HasPredictionEvent(root.chain) then Reply(root, Some(NoPredictionEvent))
    else
      var id := OutcomeEvent(OutcomeName(c.outcomeId));
      var chain := Appended(hash, root.chain, Body(id, c.outcome.payload, c.outcome.observedAt));
      var logged := root.(chain := chain);
      if PrecedenceError(chain, PredictionEvent(p), id).Some? then
        Reply(logged, PrecedenceError(chain, PredictionEvent(p), id))
      else if c.outcome.observedAt < root.predictions[p].registeredAt then Reply(logged, Some(EarlierThanPrediction))
      else if !c.valid || c.outcomeId.None? || c.outcomeId.value == "" then Reply(logged, Some(InvalidRecord))
      else Reply(logged.(outcomes := root.outcomes[c.outcomeId.value := c.outcome]), None)
  }

  function Answer(hash: Hash<Body>, root: Root, c: Call): Reply {
    if c.Register? then RegisterReply(hash, root, c) else IngestReply(hash, root, c)
  }

  /** The disk after a run of calls; a call that raises does not end the run. */
  function After(hash: Hash<Body>, root: Root, calls: seq<Call>): Root
    decreases |calls|
  {
    if calls == [] then root else After(hash, Answer(hash, root, calls[0]).root, calls[1..])
  }

  // ---------------------------------------------------------------- the invariant

  ghost predicate Logged(root: Root) {
    forall p :: p in root.predictions ==> LastIndex(root.chain, PredictionEvent(p)) >= 0
  }

  /** Each outcome on file has its prediction on file, and comes after it. */
  ghost predicate Prospective(root: Root) {
    forall o :: o in root.outcomes ==> Precedes(root, o)
  }

  ghost predicate Precedes(root: Root, o: string)
    requires o in root.outcomes
  {
    var p := root.outcomes[o].predictionId;
    p in root.predictions && 0 <= LastIndex(root.chain, PredictionEvent(p)) < LastIndex(root.chain, OutcomeEvent(o))
  }

  ghost predicate Sound(hash: Hash<Body>, root: Root) {
    Verified(hash, root.chain) && Logged(root) && Prospective(root)
  }

  lemma LoggedMeansEvent(root: Root, p: string)
    requires Logged(root) && p in root.predictions
    ensures HasPredictionEvent(root.chain)
  {
    assert root.chain[LastIndex(root.chain, PredictionEvent(p))].body.id.PredictionEvent?;
  }

  /** An event for a prediction without an outcome, or for any outcome, moves no filed
      outcome before its prediction. */
  lemma AppendKeepsSound(hash: Hash<Body>, root: Root, body: Body)
    requires Sound(hash, root)
    requires body.id.PredictionEvent? ==> forall o :: o in root.outcomes ==> root.outcomes[o].predictionId != body.id.id
    ensures Sound(hash, root.(chain := Appended(hash, root.chain, body)))
  {
    var e := Next(hash, root.chain, body);
    var after := root.(chain := root.chain + [e]);
    AppendKeepsVerified(hash, root.chain, body);
    forall p | p in after.predictions
      ensures LastIndex(after.chain, PredictionEvent(p)) >= 0
    {
      LastIndexAppend(root.chain, e, PredictionEvent(p));
    }
    forall o | o in after.outcomes
      ensures Precedes(after, o)
    {
      assert Precedes(root, o);
      LastIndexAppend(root.chain, e, PredictionEvent(root.outcomes[o].predictionId));
      LastIndexAppend(root.chain, e, OutcomeEvent(o));
    }
  }

  lemma RegisterKeepsSound(hash: Hash<Body>, root: Root, c: Call)
    requires c.Register? && Sound(hash, root)
    ensures Sound(hash, RegisterReply(hash, root, c).root)
  {
    var body := Body(PredictionEvent(c.predictionId), c.payload, c.registeredAt);
    if c.predictionId != "" && !exists o :: o in root.outcomes && root.outcomes[o].predictionId == c.predictionId {
      AppendKeepsSound(hash, root, body);
      LastIndexAppend(root.chain, Next(hash, root.chain, body), body.id);
      FilePrediction(hash, root.(chain := Appended(hash, root.chain, body)), c);
    }
  }

  lemma FilePrediction(hash: Hash<Body>, logged: Root, c: Call)
    requires c.Register? && Sound(hash, logged) && LastIndex(logged.chain, PredictionEvent(c.predictionId)) >= 0
    ensures Sound(hash, logged.(predictions := logged.predictions[c.predictionId := Prediction(c.registeredAt, c.payload)]))
  {
    var filed := logged.(predictions := logged.predictions[c.predictionId := Prediction(c.registeredAt, c.payload)]);
    forall o | o in filed.outcomes
      ensures Precedes(filed, o)
    {
      assert Precedes(logged, o);
    }
  }

  /** Ingesting for a filed prediction never fails its chronology checks: it is its own
      event that is appended last. */
  lemma IngestChecksPass(hash: Hash<Body>, root: Root, c: Call)
    requires c.Ingest? && Sound(hash, root) && c.outcome.predictionId in root.predictions
    ensures var id := OutcomeEvent(OutcomeName(c.outcomeId));
      var chain := Appended(hash, root.chain, Body(id, c.outcome.payload, c.outcome.observedAt));
      && HasPredictionEvent(root.chain)
      && PrecedenceError(chain, PredictionEvent(c.outcome.predictionId), id) == None
      && LastIndex(chain, id) == |root.chain|
  {
    var p := c.outcome.predictionId;
    var id := OutcomeEvent(OutcomeName(c.outcomeId));
    var e := Next(hash, root.chain, Body(id, c.outcome.payload, c.outcome.observedAt));
    LoggedMeansEvent(root, p);
    LastIndexAppend(root.chain, e, PredictionEvent(p));
    LastIndexAppend(root.chain, e, id);
  }

  lemma IngestKeepsSound(hash: Hash<Body>, root: Root, c: Call)
    requires c.Ingest? && Sound(hash, root)
    ensures Sound(hash, IngestReply(hash, root, c).root)
  {
    if c.outcome.predictionId in root.predictions {
      var body := Body(OutcomeEvent(OutcomeName(c.outcomeId)), c.outcome.payload, c.outcome.observedAt);
      AppendKeepsSound(hash, root, body);
      IngestChecksPass(hash, root, c);
      if c.outcomeId.Some? {
        FileOutcome(hash, root.(chain := Appended(hash, root.chain, body)), c);
      }
    }
  }

  lemma FileOutcome(hash: Hash<Body>, logged: Root, c: Call)
    requires c.Ingest? && c.outcomeId.Some? && Sound(hash, logged) && c.outcome.predictionId in logged.predictions
    requires 0 <= LastIndex(logged.chain, PredictionEvent(c.outcome.predictionId)) <
             LastIndex(logged.chain, OutcomeEvent(c.outcomeId.value))
    ensures Sound(hash, logged.(outcomes := logged.outcomes[c.outcomeId.value := c.outcome]))
  {
    var filed := logged.(outcomes := logged.outcomes[c.outcomeId.value := c.outcome]);
    forall o | o in filed.outcomes
      ensures Precedes(filed, o)
    {
      assert o != c.outcomeId.value ==> Precedes(logged, o);
    }
  }

  /** Prediction before outcome, over every run of calls, raising calls included. */
  lemma {:induction false} RunKeepsSound(hash: Hash<Body>, root: Root, calls: seq<Call>)
    requires Sound(hash, root)
    ensures Sound(hash, After(hash, root, calls))
    decreases |calls|
  {
    if calls != [] {
      if calls[0].Register? {
        RegisterKeepsSound(hash, root, calls[0]);
      } else {
        IngestKeepsSound(hash, root, calls[0]);
      }
      RunKeepsSound(hash, Answer(hash, root, calls[0]).root, calls[1..]);
    }
  }

  lemma FreshRunIsSound(hash: Hash<Body>, calls: seq<Call>)
    ensures Sound(hash, After(hash, EMPTY, calls))
  {
    RunKeepsSound(hash, EMPTY, calls);
  }

  /** Of the errors ingest_outcome can raise after its append, a run reaches only two. */
  lemma IngestRaisesOnly(hash: Hash<Body>, calls: seq<Call>, c: Call)
    requires c.Ingest?
    ensures var reply := IngestReply(hash, After(hash, EMPTY, calls), c);
      reply.raised in {None, Some(NotRegistered), Some(EarlierThanPrediction), Some(InvalidRecord)}
  {
    var root := After(hash, EMPTY, calls);
    FreshRunIsSound(hash, calls);
    if c.outcome.predictionId in root.predictions {
      IngestChecksPass(hash, root, c);
    }
  }

  /** The event a call is to leave in the chain. */
  function EventOf(c: Call): EventId {
    match c
    case Register(p, _, _, _) => PredictionEvent(p)
    case Ingest(o, _, _) => OutcomeEvent(OutcomeName(o))
  }

  predicate HasOutcomeFor(root: Root, p: string) {
    exists o :: o in root.outcomes && root.outcomes[o].predictionId == p
  }

  /** The outcome has an id, and is not timed before its prediction. */
  predicate Fileable(root: Root, c: Call)
    requires c.Ingest? && c.outcome.predictionId in root.predictions
  {
    && c.outcomeId.Some? && c.outcomeId.value != ""
    && c.outcome.observedAt >= root.predictions[c.outcome.predictionId].registeredAt
  }

  /** Exactly when a call leaves an event, and exactly when it succeeds: for an ingest
      only the registration, the timestamps and the record itself decide. */
  lemma CallsExactly(hash: Hash<Body>, root: Root, c: Call)
    requires Sound(hash, root)
    ensures var after := Answer(hash, root, c);
      var admitted := if c.Register? then c.predictionId != "" && !HasOutcomeFor(root, c.predictionId)
                      else c.outcome.predictionId in root.predictions;
      && (admitted ==> |after.root.chain| == |root.chain| + 1 && after.root.chain[|root.chain|].body.id == EventOf(c))
      && (!admitted ==> after.root == root && after.raised.Some?)
      && root.chain <= after.root.chain
      && (after.raised.None? <==> (admitted && c.valid && (c.Register? || Fileable(root, c))))
  {
    if c.Ingest? && c.outcome.predictionId in root.predictions {
      IngestChecksPass(hash, root, c);
    }
  }

  /** A call that succeeds files its record and no other; one that raises files none. */
  lemma CallsFileOneRecord(hash: Hash<Body>, root: Root, c: Call)
    ensures var after := Answer(hash, root, c);
      if after.raised.Some? then after.root.predictions == root.predictions && after.root.outcomes == root.outcomes
      else if c.Register? then
        after.root.predictions == root.predictions[c.predictionId := Prediction(c.registeredAt, c.payload)] &&
        after.root.outcomes == root.outcomes
      else
        after.root.predictions == root.predictions && c.outcomeId.Some? &&
        after.root.outcomes == root.outcomes[c.outcomeId.value := c.outcome]
  {
  }

  // ---------------------------------------------------------------- the report

  /** by_pred.get(p): the last outcome in file order that names the prediction. */
  function ByPrediction(outcomes: map<string, Outcome>, order: seq<string>, p: string): (r: Option<string>)
    requires forall o :: o in order ==> o in outcomes
    ensures r.Some? ==> r.value in order && outcomes[r.value].predictionId == p
    ensures r.None? ==> forall o :: o in order ==> outcomes[o].predictionId != p
  {
    if order == [] then None
    else if outcomes[order[|order| - 1]].predictionId == p then
      assert order[|order| - 1] in order; Some(order[|order| - 1])
    else
      assert forall o :: o in order[..|order| - 1] ==> o in order;
      assert order == order[..|order| - 1] + [order[|order| - 1]];
      ByPrediction(outcomes, order[..|order| - 1], p)
  }

  /** The predictions on the list that some outcome on file names. */
  function WithOutcome(root: Root, ids: seq<string>): seq<string> {
    if ids == [] then []
    else
      var front := WithOutcome(root, ids[..|ids| - 1]);
      if exists o :: o in root.outcomes && root.outcomes[o].predictionId == ids[|ids| - 1]
      then front + [ids[|ids| - 1]] else front
  }

  /** The files of a directory in the order they are read. */
  ghost predicate Lists<T>(order: seq<string>, files: map<string, T>) {
    forall k :: k in order <==> k in files
  }

  /** The matching loop of build_calibration_report. Its chronology check never skips a
      pair, so every prediction with an outcome is matched or censored. */
  method MatchOutcomes(hash: Hash<Body>, root: Root, predictionOrder: seq<string>, outcomeOrder: seq<string>)
    returns (matched: seq<(string, string)>, censored: nat, skipped: nat)
    requires Sound(hash, root) && Lists(predictionOrder, root.predictions) && Lists(outcomeOrder, root.outcomes)
    ensures skipped == 0
    ensures |matched| + censored == |WithOutcome(root, predictionOrder)|
    ensures forall m :: m in matched ==>
      && m.0 in root.predictions && ByPrediction(root.outcomes, outcomeOrder, m.0) == Some(m.1)
      && m.1 in root.outcomes && !root.outcomes[m.1].censored
      && 0 <= LastIndex(root.chain, PredictionEvent(m.0)) < LastIndex(root.chain, OutcomeEvent(m.1))
  {
    matched, censored, skipped := [], 0, 0;
    for i := 0 to |predictionOrder|
      invariant skipped == 0
      invariant |matched| + censored == |WithOutcome(root, predictionOrder[..i])|
      invariant forall m :: m in matched ==>
        && m.0 in root.predictions && ByPrediction(root.outcomes, outcomeOrder, m.0) == Some(m.1)
        && m.1 in root.outcomes && !root.outcomes[m.1].censored
        && 0 <= LastIndex(root.chain, PredictionEvent(m.0)) < LastIndex(root.chain, OutcomeEvent(m.1))
    {
      var p := predictionOrder[i];
      assert p in predictionOrder;
      WithOutcomeNext(root, predictionOrder, i);
      var o := ByPrediction(root.outcomes, outcomeOrder, p);
      if o.Some? {
        assert Precedes(root, o.value);
        if PrecedenceError(root.chain, PredictionEvent(p), OutcomeEvent(o.value)).Some? {
          skipped := skipped + 1;
        } else if root.outcomes[o.value].censored {
          censored := censored + 1;
        } else {
          matched := matched + [(p, o.value)];
        }
      }
    }
    assert predictionOrder[..|predictionOrder|] == predictionOrder;
  }

  lemma WithOutcomeNext(root: Root, ids: seq<string>, i: nat)
    requires i < |ids|
    ensures |WithOutcome(root, ids[..i + 1])| == |WithOutcome(root, ids[..i])| +
      if exists o :: o in root.outcomes && root.outcomes[o].predictionId == ids[i] then 1 else 0
  {
    assert ids[..i + 1][..i] == ids[..i];
  }

  // ---------------------------------------------------------------- the files

  /** chain.jsonl and tip.json with the prediction and outcome files beside them. */
  class DeploymentRoot {
    const hash: Hash<Body>
    var chain: seq<Event>
    var tip: Digest
    var predictions: map<string, Prediction>
    var outcomes: map<string, Outcome>

    function Disk(): Root
      reads this
    {
      Root(chain, predictions, outcomes)
    }

    ghost predicate Consistent()
      reads this
    {
      tip == Tip(chain)
    }

    constructor (hash: Hash<Body>)
      ensures Consistent() && this.hash == hash && Disk() == EMPTY
    {
      this.hash := hash;
      chain, tip, predictions, outcomes := [], GENESIS, map[], map[];
    }

    method Append(body: Body)
      requires Consistent()
      modifies `chain, `tip
      ensures Consistent() && chain == Appended(hash, old(chain), body)
    {
      var digest := hash(tip, body);
      chain := chain + [Row(tip, body, digest)];
      tip := digest;
    }

    /** Reads the outcome files one by one, in the order given. */
    method HasOutcome(predictionId: string, order: seq<string>) returns (found: bool)
      requires Lists(order, outcomes)
      ensures found <==> exists o :: o in outcomes && outcomes[o].predictionId == predictionId
    {
      for i := 0 to |order|
        invariant forall j :: 0 <= j < i ==> order[j] in outcomes && outcomes[order[j]].predictionId != predictionId
      {
        assert order[i] in order;
        if outcomes[order[i]].predictionId == predictionId {
          return true;
        }
      }
      assert forall o :: o in outcomes ==> o in order;
      return false;
    }

    method RegisterPrediction(c: Call, outcomeOrder: seq<string>) returns (raised: Option<Failure>)
      requires Consistent() && c.Register? && Lists(outcomeOrder, outcomes)
      modifies this
      ensures Consistent() && Reply(Disk(), raised) == RegisterReply(hash, old(Disk()), c)
    {
      if c.predictionId == "" {
        return Some(MissingId);
      }
      var found := HasOutcome(c.predictionId, outcomeOrder);
      if found {
        return Some(OutcomeExists);
      }
      Append(Body(PredictionEvent(c.predictionId), c.payload, c.registeredAt));
      if !c.valid {
        return Some(InvalidRecord);
      }
      predictions := predictions[c.predictionId := Prediction(c.registeredAt, c.payload)];
      return None;
    }

    method IngestOutcome(c: Call) returns (raised: Option<Failure>)
      requires Consistent() && c.Ingest?
      modifies this
      ensures Consistent() && Reply(Disk(), raised) == IngestReply(hash, old(Disk()), c)
    {
      var p := c.outcome.predictionId;
      if p !in predictions {
        return Some(NotRegistered);
      }
      if !HasPredictionEvent(chain) {
        return Some(NoPredictionEvent);
      }
      var id := OutcomeEvent(OutcomeName(c.outcomeId));
      Append(Body(id, c.outcome.payload, c.outcome.observedAt));
      var late := PrecedenceError(chain, PredictionEvent(p), id);
      if late.Some? {
        return late;
      }
      if c.outcome.observedAt < predictions[p].registeredAt {
        return Some(EarlierThanPrediction);
      }
      if !c.valid || c.outcomeId.None? || c.outcomeId.value == "" {
        return Some(InvalidRecord);
      }
      outcomes := outcomes[c.outcomeId.value := c.outcome];
      return None;
    }
  }
}
