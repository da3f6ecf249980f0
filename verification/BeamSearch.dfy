/**
 BeamSearch of src/verifierlab/attacks/inference.py: the learner's fields and methods,
 its checkpoint, and what restoring a checkpoint of either schema version gives.
 */
module BeamSearch {
  import opened Prelude
  import opened BeamHeap
  import opened BeamHistory
  import opened SchemaMigration

  datatype Failure = EvaluationRaised | PopFromEmptyHeap

  /** `ActionsCompared` is the TypeError of a heap push that has to order two actions. */
  datatype RestoreError = UnsupportedVersion | ActionsCompared

  const NOOP: Action := "noop"

  // ---------------------------------------------------------------- choosing a candidate

  /** The earliest position of the highest score. */
  function FirstMax(scores: seq<real>): (r: nat)
    requires scores != []
    ensures r < |scores|
    ensures forall j :: 0 <= j < |scores| ==> scores[j] <= scores[r]
    ensures forall j :: 0 <= j < r ==> scores[j] < scores[r]
  {
    if |scores| == 1 then 0
    else
      var r := FirstMax(scores[..|scores| - 1]);
      if scores[|scores| - 1] > scores[r] then |scores| - 1 else r
  }

  lemma FirstMaxNext(scores: seq<real>, i: nat, best: nat)
    requires i < |scores| && best == if i == 0 then 0 else FirstMax(scores[..i])
    ensures FirstMax(scores[..i + 1]) == if i == 0 || scores[i] > scores[best] then i else best
  {
    assert scores[..i + 1][..i] == scores[..i];
  }

  function WithScores(actions: seq<Action>, scores: seq<real>): (cs: seq<Scored>)
    requires |scores| <= |actions|
    ensures |cs| == |scores|
  {
    seq(|scores|, i requires 0 <= i < |scores| => Scored(scores[i], actions[i]))
  }

  /** The seeds enter the beam with score zero. */
  function Seeded(seeds: seq<Action>): seq<Scored> {
    seq(|seeds|, i requires 0 <= i < |seeds| => Scored(0.0, seeds[i]))
  }

  function AtLeast1(width: int): nat {
    if width < 1 then 1 else width
  }

  function ObservedScore(score: real, accepted: bool, reward: real): real {
    if accepted then score + 1.0 + reward * 0.01 else score
  }

  lemma {:induction false} PushAllAppends(b: Beam, cs: seq<Scored>, c: Scored)
    requires WellNumbered(b)
    ensures PushAll(b, cs + [c]) == PushNext(PushAll(b, cs), c)
    decreases |cs|
  {
    if cs == [] {
      assert [] + [c] == [c];
    } else {
      assert (cs + [c])[1..] == cs[1..] + [c];
      PushAllAppends(PushNext(b, cs[0]), cs[1..], c);
    }
  }

  /** A beam and its history after pushing some entries. */
  ghost predicate Ran(before: Beam, past: seq<Entry>, cs: seq<Scored>, now: Beam, ever: seq<Entry>)
    requires WellNumbered(before)
  {
    now == PushAll(before, cs) && ever == past + History(before.next, cs)
  }

  lemma RanNothing(b: Beam, past: seq<Entry>)
    requires WellNumbered(b)
    ensures Ran(b, past, [], b, past)
  {
    assert past + [] == past;
  }

  lemma HistoryAppends(n: int, cs: seq<Scored>, c: Scored)
    ensures History(n, cs + [c]) == History(n, cs) + [Named(n + |cs|, c)]
  {
    HistorySplits(n, cs, [c]);
    assert History(n + |cs|, [c]) == [Named(n + |cs|, c)];
  }

  lemma RanOneMore(b: Beam, past: seq<Entry>, cs: seq<Scored>, c: Scored, now: Beam, ever: seq<Entry>)
    requires WellNumbered(b) && Ran(b, past, cs, now, ever)
    ensures WellNumbered(now) && Ran(b, past, cs + [c], PushNext(now, c), ever + [Named(now.next, c)])
  {
    PushAllAppends(b, cs, c);
    HistoryAppends(b.next, cs, c);
    ConcatAssociates(past, History(b.next, cs), [Named(now.next, c)]);
  }

  lemma PrefixAppends(cs: seq<Scored>, i: nat)
    requires i < |cs|
    ensures cs[..i + 1] == cs[..i] + [cs[i]]
  {
  }

  lemma SingleRun(c: Scored, n: int)
    ensures [] + [c] == [c] && History(n, [c]) == [Named(n, c)]
  {
    assert History(n + 1, [c][1..]) == [];
  }

  // ---------------------------------------------------------------- checkpoints

  /** The fields a checkpoint holds. The action proposed last is not one of them. */
  datatype Saved = Saved(
    seed: int,
    width: int,
    queries: int,
    episodes: int,
    beam: Beam,
    schema: string,
    rng: string)

  function CheckpointOf(s: Saved): Payload {
    Payload(
      Some("2"),
      map["seed" := s.seed, "beam_width" := s.width, "queries" := s.queries, "episodes" := s.episodes,
          "counter" := s.beam.next],
      Some(s.beam.heap),
      map["strategy" := "beam", "cohort" := "optimized", "schema" := s.schema, "rng_state" := s.rng])
  }

  function NumberOr(p: Payload, key: string, absent: int): int {
    if key in p.numbers then p.numbers[key] else absent
  }

  function TextOr(p: Payload, key: string, absent: string): string {
    if key in p.rest then p.rest[key] else absent
  }

  /** Version 1 stored negated scores; they are turned round once, on the way in. */
  function RestoredItems(p: Payload): seq<Entry> {
    if VersionOr1(p) == "1" then Negated(Items(p)) else Items(p)
  }

  lemma NegatedStaysDistinct(p: Payload)
    requires Distinct(Items(p))
    ensures Distinct(RestoredItems(p))
    ensures forall n :: Under(Items(p), n) ==> Under(RestoredItems(p), n)
  {
  }

  lemma RebuildStaysUnder(items: seq<Entry>, n: int)
    requires Distinct(items) && Under(items, n)
    ensures Under(Rebuild(items), n)
  {
    RebuildKeeps(items);
    forall i | 0 <= i < |Rebuild(items)|
      ensures Rebuild(items)[i].counter < n
    {
      assert Rebuild(items)[i] in multiset(Rebuild(items));
      assert Rebuild(items)[i] in items;
    }
  }

  /** What is restored of entries under different counters is their heap, and the best of
      itself if its counters are behind n. */
  lemma RestoredTracks(p: Payload, n: int)
    requires WellNumbered(Beam(Items(p), n)) && TryRebuild(RestoredItems(p)).Some?
    ensures forall k: nat :: Tracks(k, Beam(TryRebuild(RestoredItems(p)).value, n), TryRebuild(RestoredItems(p)).value)
  {
    NegatedStaysDistinct(p);
    DistinctRebuilds(RestoredItems(p));
    RebuildIsHeap(RestoredItems(p));
    RebuildStaysUnder(RestoredItems(p), n);
  }

  function Restored(s: Saved, p: Payload): Result<Saved, RestoreError> {
    if VersionOr1(p) != "1" && VersionOr1(p) != "2" then Err(UnsupportedVersion)
    else
      match TryRebuild(RestoredItems(p))
      case None => Err(ActionsCompared)
      case Some(heap) =>
        Ok(Saved(
          NumberOr(p, "seed", s.seed),
          NumberOr(p, "beam_width", s.width),
          NumberOr(p, "queries", 0),
          NumberOr(p, "episodes", 0),
          Beam(heap, NumberOr(p, "counter", 0)),
          TextOr(p, "schema", s.schema),
          TextOr(p, "rng_state", s.rng)))
  }

  lemma CheckpointNumbers(s: Saved, a: int, c: int)
    ensures var p := CheckpointOf(s);
      && NumberOr(p, "seed", a) == s.seed && NumberOr(p, "beam_width", c) == s.width
      && NumberOr(p, "queries", 0) == s.queries && NumberOr(p, "episodes", 0) == s.episodes
      && NumberOr(p, "counter", 0) == s.beam.next
  {
  }

  lemma CheckpointTexts(s: Saved, a: string, c: string)
    ensures TextOr(CheckpointOf(s), "schema", a) == s.schema && TextOr(CheckpointOf(s), "rng_state", c) == s.rng
  {
  }

  lemma CheckpointItems(s: Saved)
    ensures VersionOr1(CheckpointOf(s)) == "2" && RestoredItems(CheckpointOf(s)) == s.beam.heap
    ensures Items(CheckpointOf(s)) == s.beam.heap
  {
  }

  /** restore(checkpoint()) gives back every saved field; the heap is the identical list,
      not merely the same entries. */
  lemma CheckpointRoundTrip(s: Saved, before: Saved)
    requires WellNumbered(s.beam) && IsHeap(s.beam.heap)
    ensures Restored(before, CheckpointOf(s)) == Ok(s)
  {
    CheckpointNumbers(s, before.seed, before.width);
    CheckpointTexts(s, before.schema, before.rng);
    CheckpointItems(s);
    RebuildFixesHeaps(s.beam.heap);
    DistinctRebuilds(s.beam.heap);
  }

  /** A registry entry that can take this artifact from version 1 to version 2. */
  ghost predicate MigratesBeams(registry: seq<ArtifactEntry>, artifactType: string) {
    FindEntry(registry, artifactType).Some? &&
    var entry := FindEntry(registry, artifactType).value;
    && "1" in entry.supported && "2" in entry.supported
    && FindStep(entry.steps, "1").Some? && FindStep(entry.steps, "1").value.id == "beam_checkpoint_v1_to_v2"
  }

  /** Restoring a version 1 checkpoint is migrating it and restoring the version 2 one. */
  lemma RestoreMigrated(registry: seq<ArtifactEntry>, artifactType: string, s: Saved, p: Payload)
    requires p.version == Some("1") && MigratesBeams(registry, artifactType)
    ensures var q := Migrated(registry, SHIPPED, artifactType, p, "2");
      q.Ok? && Restored(s, q.value) == Restored(s, p)
  {
    var entry := FindEntry(registry, artifactType).value;
    var q := Strip(p, MigrateBeam(p).value);
    assert Advance(entry.steps, SHIPPED, p) == Ok(q);
    assert Walk(entry.steps, SHIPPED, q, "2", 1) == Ok(q);
    StripKeepsText(p);
  }

  lemma StripKeepsText(p: Payload)
    requires VersionOr1(p) == "1"
    ensures Strip(p, MigrateBeam(p).value).rest == p.rest
  {
  }

  /** What migrating first and then restoring gives, if both accept. */
  function MigratedAndRestored(registry: seq<ArtifactEntry>, artifactType: string, s: Saved, p: Payload): Option<Saved> {
    match Migrated(registry, SHIPPED, artifactType, p, "2")
    case Err(_) => None
    case Ok(q) => if Restored(s, q).Ok? then Some(Restored(s, q).value) else None
  }

  /** restore and migrate_artifact agree on what they accept, and on what it becomes,
      exactly unless the version is missing: restore reads that as version 1, while
      migrate_artifact refuses it. */
  lemma RestoresAgreeExactly(registry: seq<ArtifactEntry>, artifactType: string, s: Saved, p: Payload)
    requires MigratesBeams(registry, artifactType)
    ensures var direct := Restored(s, p);
      MigratedAndRestored(registry, artifactType, s, p) == (if direct.Ok? then Some(direct.value) else None) <==>
      p.version.Some? || TryRebuild(RestoredItems(p)).None?
  {
    ShippedMigratesExactly(registry, artifactType, p, "2");
    if p.version == Some("1") {
      RestoreMigrated(registry, artifactType, s, p);
    } else if p.version == Some("2") {
      assert Migrated(registry, SHIPPED, artifactType, p, "2") == Ok(p);
    }
  }

  // ---------------------------------------------------------------- the learner

  class BeamSearch {
    var seed: int
    var width: int
    var queries: int
    var episodes: int
    var counter: int
    var beam: seq<Entry>
    var schema: string
    var rng: string
    var last: Option<Action>
    var learning: bool

    /** Everything pushed since initialize or restore. */
    ghost var ever: seq<Entry>

    function Numbered(): Beam
      reads this
    {
      Beam(beam, counter)
    }

    ghost function Kept(): nat
      reads this
    {
      if width < 0 then 0 else width
    }

    ghost predicate Valid()
      reads this
    {
      Tracks(Kept(), Numbered(), ever)
    }

    function Fields(): Saved
      reads this
    {
      Saved(seed, width, queries, episodes, Numbered(), schema, rng)
    }

    constructor (rng: string, schema: string)
      ensures Valid() && learning && beam == [] && ever == []
    {
      this.rng, this.schema := rng, schema;
      seed, width, queries, episodes, counter := 0, 4, 0, 0, 0;
      beam, last, learning, ever := [], None, true, [];
    }

    /** heappush under the next counter: the run since `before` is one entry longer. */
    method PushScored(score: real, action: Action, ghost before: Beam, ghost past: seq<Entry>, ghost cs: seq<Scored>)
      requires WellNumbered(before) && Ran(before, past, cs, Numbered(), ever)
      modifies `beam, `counter, `ever
      ensures Ran(before, past, cs + [Scored(score, action)], Numbered(), ever)
    {
      UnderPush(Numbered(), Scored(score, action));
      RanOneMore(before, past, cs, Scored(score, action), Numbered(), ever);
      ever := ever + [Entry(score, counter, action)];
      beam := Push(beam, Entry(score, counter, action));
      counter := counter + 1;
    }

    /** while len(beam) > beam_width: heappop. A negative width empties the beam and then
        pops once more. */
    method PruneBeam() returns (ok: bool)
      requires Valid()
      modifies `beam
      ensures Valid() && (ok <==> width >= 0)
      ensures ok ==> Numbered() == Prune(width, old(Numbered())) && Ranked(beam) == Best(width, ever)
      ensures !ok ==> beam == []
    {
      while |beam| > width
        invariant Valid()
        invariant width >= 0 ==> Prune(width, Numbered()) == Prune(width, old(Numbered()))
        decreases |beam|
      {
        if beam == [] {
          return false;
        }
        PopTracks(Kept(), Numbered(), ever);
        beam := Pop(beam);
      }
      SmallBeamIsBest(width, Numbered(), ever);
      ok := true;
    }

    /** The seeds are pushed and not pruned. */
    method Initialize(seed: int, width: int, seeds: seq<Action>, schema: Option<string>, rng: string)
      modifies `seed, `width, `queries, `episodes, `beam, `counter, `schema, `rng, `ever
      ensures Valid() && this.seed == seed && this.width == width && this.rng == rng
      ensures queries == 0 && episodes == 0
      ensures this.schema == (match schema case None => old(this.schema) case Some(s) => s)
      ensures Numbered() == PushAll(Beam([], 0), Seeded(seeds)) && ever == History(0, Seeded(seeds))
    {
      this.seed, this.width, this.rng := seed, width, rng;
      if schema.Some? {
        this.schema := schema.value;
      }
      queries, episodes := 0, 0;
      beam, counter, ever := [], 0, [];
      ghost var cs := Seeded(seeds);
      RanNothing(Numbered(), ever);
      for i := 0 to |seeds|
        modifies `beam, `counter, `ever
        invariant Ran(Beam([], 0), [], cs[..i], Numbered(), ever)
      {
        PushScored(0.0, seeds[i], Beam([], 0), [], cs[..i]);
        PrefixAppends(cs, i);
      }
      assert cs[..|seeds|] == cs;
      PushAllTracks(Kept(), Beam([], 0), [], cs);
    }

    /** The scoring loop: the candidates as drawn, with the scores the broker gave until
        it raised, if it did. */
    method ScoreAll(candidates: seq<Action>, scores: seq<real>) returns (best: nat)
      requires WellNumbered(Numbered()) && |scores| <= |candidates|
      modifies `queries, `beam, `counter, `ever
      ensures queries == old(queries) + |scores|
      ensures scores != [] ==> best == FirstMax(scores)
      ensures Ran(old(Numbered()), old(ever), if learning then WithScores(candidates, scores) else [], Numbered(), ever)
    {
      ghost var before, past := Numbered(), ever;
      ghost var cs := WithScores(candidates, scores);
      best := 0;
      RanNothing(before, past);
      for i := 0 to |scores|
        invariant queries == old(queries) + i
        invariant Ran(before, past, if learning then cs[..i] else [], Numbered(), ever)
        invariant best == if i == 0 then 0 else FirstMax(scores[..i])
      {
        queries := queries + 1;
        if learning {
          PushScored(scores[i], candidates[i], before, past, cs[..i]);
          PrefixAppends(cs, i);
        }
        FirstMaxNext(scores, i, best);
        if i == 0 || scores[i] > scores[best] {
          best := i;
        }
      }
      assert cs[..|scores|] == cs && scores[..|scores|] == scores;
    }

    method ProposeWithBroker(candidates: seq<Action>, scores: seq<real>) returns (r: Result<Action, Failure>)
      requires Valid() && |candidates| == AtLeast1(width) && |scores| <= |candidates|
      modifies `queries, `beam, `counter, `ever, `last
      ensures Valid() && queries == old(queries) + |scores|
      ensures r == if |scores| < |candidates| then Err(EvaluationRaised)
                   else if learning && width < 0 then Err(PopFromEmptyHeap)
                   else Ok(candidates[FirstMax(scores)])
      ensures last == if r.Ok? then Some(r.value) else old(last)
      ensures !learning ==> Numbered() == old(Numbered()) && ever == old(ever)
      ensures learning ==> ever == old(ever) + History(old(counter), WithScores(candidates, scores))
      ensures learning && r == Err(EvaluationRaised) ==>
        Numbered() == PushAll(old(Numbered()), WithScores(candidates, scores))
      ensures learning && r == Err(PopFromEmptyHeap) ==> beam == []
      ensures learning && r.Ok? ==>
        && Numbered() == Round(width, old(Numbered()), WithScores(candidates, scores))
        && Ranked(beam) == Best(width, ever)
    {
      PushAllTracks(Kept(), Numbered(), ever, if learning then WithScores(candidates, scores) else []);
      var best := ScoreAll(candidates, scores);
      if |scores| < |candidates| {
        return Err(EvaluationRaised);
      }
      if learning {
        var ok := PruneBeam();
        if !ok {
          return Err(PopFromEmptyHeap);
        }
      }
      last := Some(candidates[best]);
      return Ok(candidates[best]);
    }

    method Observe(score: real, accepted: bool, reward: real) returns (ok: bool)
      requires Valid()
      modifies `episodes, `beam, `counter, `ever
      ensures Valid() && episodes == old(episodes) + 1
      ensures ok <==> !learning || width >= 0
      ensures !learning ==> Numbered() == old(Numbered()) && ever == old(ever)
      ensures learning ==>
        var c := Scored(ObservedScore(score, accepted, reward), if last.Some? then last.value else NOOP);
        && ever == old(ever) + [Named(old(counter), c)]
        && (ok ==> Numbered() == Round(width, old(Numbered()), [c]) && Ranked(beam) == Best(width, ever))
        && (!ok ==> beam == [])
    {
      episodes := episodes + 1;
      if !learning {
        return true;
      }
      var total := score;
      if accepted {
        total := total + 1.0 + reward * 0.01;
      }
      ok := PushAndPrune(total, if last.Some? then last.value else NOOP);
    }

    /** One entry more, and the beam cut back to its width. */
    method PushAndPrune(score: real, action: Action) returns (ok: bool)
      requires Valid()
      modifies `beam, `counter, `ever
      ensures Valid() && (ok <==> width >= 0)
      ensures ever == old(ever) + [Named(old(counter), Scored(score, action))]
      ensures ok ==> Numbered() == Round(width, old(Numbered()), [Scored(score, action)])
      ensures ok ==> Ranked(beam) == Best(width, ever)
      ensures !ok ==> beam == []
    {
      var c := Scored(score, action);
      RanNothing(Numbered(), ever);
      PushAllTracks(Kept(), Numbered(), ever, [c]);
      PushScored(score, action, Numbered(), ever, []);
      SingleRun(c, old(counter));
      ok := PruneBeam();
    }

    /** A current checkpoint: whatever learner restores it ends with the fields of this
        one, the identical heap list included. */
    method Checkpoint() returns (p: Payload)
      requires Valid()
      ensures p.version == Some("2")
      ensures forall before: Saved :: Restored(before, p) == Ok(Fields())
    {
      p := CheckpointOf(Fields());
      forall before: Saved
        ensures Restored(before, p) == Ok(Fields())
      {
        CheckpointRoundTrip(Fields(), before);
      }
    }

    /** A checkpoint edited by hand may tie two actions; the push that has to order them
        raises, with the numbers restored, the beam in part, and the texts not yet. */
    method Restore(p: Payload) returns (r: Result<(), RestoreError>)
      modifies this
      ensures last == old(last) && learning == old(learning)
      ensures r.Ok? ==> Ok(Fields()) == Restored(old(Fields()), p)
      ensures r.Err? ==> Restored(old(Fields()), p) == Err(r.error)
      ensures r.Ok? && WellNumbered(Beam(Items(p), counter)) ==> Valid()
      ensures r == Err(UnsupportedVersion) ==> Fields() == old(Fields()) && ever == old(ever)
      ensures r == Err(ActionsCompared) ==>
        && seed == NumberOr(p, "seed", old(seed)) && width == NumberOr(p, "beam_width", old(width))
        && queries == NumberOr(p, "queries", 0) && episodes == NumberOr(p, "episodes", 0)
        && counter == NumberOr(p, "counter", 0) && schema == old(schema) && rng == old(rng)
    {
      var version := VersionOr1(p);
      if version != "1" && version != "2" {
        return Err(UnsupportedVersion);
      }
      seed, width := NumberOr(p, "seed", seed), NumberOr(p, "beam_width", width);
      queries, episodes := NumberOr(p, "queries", 0), NumberOr(p, "episodes", 0);
      counter := NumberOr(p, "counter", 0);
      var ok := PushBack(RestoredItems(p));
      if !ok {
        return Err(ActionsCompared);
      }
      schema, rng := TextOr(p, "schema", schema), TextOr(p, "rng_state", rng);
      if WellNumbered(Beam(Items(p), counter)) {
        RestoredTracks(p, counter);
      }
      return Ok(());
    }

    /** The stored entries are pushed one by one. */
    method PushBack(items: seq<Entry>) returns (ok: bool)
      modifies `beam, `ever
      ensures ok <==> TryRebuild(items).Some?
      ensures ok ==> beam == TryRebuild(items).value && ever == beam
    {
      beam := [];
      for i := 0 to |items|
        invariant TryRebuild(items[..i]) == Some(beam)
      {
        assert items[..i + 1][..i] == items[..i];
        var pushed := TryPush(beam, items[i]);
        if pushed.None? {
          NeverRecovers(items, i + 1);
          return false;
        }
        beam := pushed.value;
      }
      assert items[..|items|] == items;
      ever := beam;
      return true;
    }
  }

  /** Once a push has raised, the rest does not help. */
  lemma {:induction false} NeverRecovers(items: seq<Entry>, n: nat)
    requires n <= |items| && TryRebuild(items[..n]).None?
    ensures TryRebuild(items).None?
    decreases |items|
  {
    if n == |items| {
      assert items[..n] == items;
    } else {
      assert items[..|items| - 1][..n] == items[..n];
      NeverRecovers(items[..|items| - 1], n);
    }
  }
}
