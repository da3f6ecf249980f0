/**
 migrate_artifact of src/verifierlab/artifacts/schema_registry.py: one-way migrations
 that walk the registered steps and may not touch a maturity label on the way.
 */
module SchemaMigration {
  import opened Prelude
  import opened BeamHeap

  /** An artifact dict. The fields code reads as numbers or as beam items are typed; the
      other fields are known by the text of their value. */
  datatype Payload = Payload(
    version: Option<string>,
    numbers: map<string, int>,
    beam: Option<seq<Entry>>,
    rest: map<string, string>)

  const MATURITY_KEYS: set<string> := {
    "maturity", "maturity_level", "assurance_maturity", "scientifically_qualified",
    "security_grade", "deployment_calibrated", "independently_verified"}

  datatype RegistryError =
    | UnknownArtifact
    | MissingVersion
    | UnsupportedTarget
    | UnknownSource
    | NoPath
    | UnknownMigration
    | WrongSource
    | DidNotAdvance
    | LoopDetected

  type Migration = Payload -> Result<Payload, RegistryError>

  /** A row of an entry's migrations; an empty text stands for a missing field. */
  datatype Step = Step(source: string, target: string, id: string)

  datatype ArtifactEntry = ArtifactEntry(artifactType: string, supported: seq<string>, steps: seq<Step>)

  const MAX_STEPS := 16

  // ---------------------------------------------------------------- the shipped migrations

  function Negated(items: seq<Entry>): seq<Entry> {
    seq(|items|, i requires 0 <= i < |items| => items[i].(score := -items[i].score))
  }

  /** `payload.get("beam") or []`. */
  function Items(p: Payload): seq<Entry> {
    match p.beam case None => [] case Some(items) => items
  }

  /** str(out.get("schema_version", "1")). */
  function VersionOr1(p: Payload): string {
    match p.version case None => "1" case Some(v) => v
  }

  function MigrateBeam(p: Payload): Result<Payload, RegistryError> {
    if VersionOr1(p) != "1" then Err(WrongSource)
    else Ok(p.(version := Some("2"), beam := Some(Negated(Items(p)))))
  }

  function SetDefault(m: map<string, string>, key: string, value: string): map<string, string> {
    if key in m then m else m[key := value]
  }

  /** The score mapping of a profile; "null" where there is none. */
  function Mapping(rest: map<string, string>): string {
    if "decision_mapping" in rest then rest["decision_mapping"] else "null"
  }

  /** The decision semantics written out of a score mapping: without one, numeric scores
      do not imply acceptance. */
  function DecisionSemantics(rest: map<string, string>): string {
    "status_set=accept,reject,abstain,indeterminate,error;fail_closed=true;numeric_scores_imply_acceptance=" +
    (if Mapping(rest) != "null" then "true" else "false") + ";score_mapping=" + Mapping(rest)
  }

  function MigrateProfile(p: Payload): Result<Payload, RegistryError> {
    if VersionOr1(p) != "1" then Err(WrongSource)
    else
      var a := SetDefault(p.rest, "decision_semantics", DecisionSemantics(p.rest));
      var b := SetDefault(SetDefault(a, "applicability", "{}"), "access_surface", "{}");
      Ok(p.(version := Some("2"), rest := SetDefault(b, "decision_mapping", "null")))
  }

  function MigrateVault(p: Payload): Result<Payload, RegistryError> {
    if VersionOr1(p) != "1" then Err(WrongSource)
    else Ok(p.(version := Some("2"), rest := p.rest["migration" := "from=1;to=2;requires_reseal=true;note=readable, to be re-sealed"]))
  }

  const SHIPPED: map<string, Migration> := map[
    "beam_checkpoint_v1_to_v2" := MigrateBeam,
    "verifier_profile_v1_to_v2" := MigrateProfile,
    "label_vault_v1_to_v2" := MigrateVault]

  // ---------------------------------------------------------------- migrate_artifact

  /** _strip_forbidden_maturity_upgrades: maturity keys are put back to what they were,
      new ones are dropped. */
  function Strip(before: Payload, after: Payload): Payload {
    var kept := map k | k in before.rest && k in MATURITY_KEYS :: before.rest[k];
    after.(rest := (after.rest - MATURITY_KEYS) + kept)
  }

  function FindEntry(registry: seq<ArtifactEntry>, artifactType: string): Option<ArtifactEntry> {
    if registry == [] then None
    else if registry[0].artifactType == artifactType then Some(registry[0])
    else FindEntry(registry[1..], artifactType)
  }

  /** The first row that leaves a version for somewhere. */
  function FindStep(steps: seq<Step>, source: string): Option<Step> {
    if steps == [] then None
    else if steps[0].source == source && steps[0].target != "" then Some(steps[0])
    else FindStep(steps[1..], source)
  }

  /** str(working.get("schema_version")). */
  function VersionText(p: Payload): string {
    match p.version case None => "None" case Some(v) => v
  }

  /** One turn of the loop. */
  function Advance(steps: seq<Step>, table: map<string, Migration>, p: Payload): Result<Payload, RegistryError> {
    match FindStep(steps, VersionText(p))
    case None => Err(NoPath)
    case Some(step) =>
      if step.id == "" || step.id !in table then Err(UnknownMigration)
      else
        match table[step.id](p)
        case Err(e) => Err(e)
        case Ok(next) =>
          if VersionText(Strip(p, next)) == VersionText(p) then Err(DidNotAdvance) else Ok(Strip(p, next))
  }

  function Walk(steps: seq<Step>, table: map<string, Migration>, p: Payload, target: string, guard: nat)
    : Result<Payload, RegistryError>
    requires guard <= MAX_STEPS
    decreases MAX_STEPS - guard
  {
    if VersionText(p) == target then Ok(p)
    else
      match Advance(steps, table, p)
      case Err(e) => Err(e)
      case Ok(next) =>
        if guard + 1 > MAX_STEPS then Err(LoopDetected) else Walk(steps, table, next, target, guard + 1)
  }

  function Migrated(registry: seq<ArtifactEntry>, table: map<string, Migration>,
                    artifactType: string, p: Payload, target: string): Result<Payload, RegistryError> {
    match FindEntry(registry, artifactType)
    case None => Err(UnknownArtifact)
    case Some(entry) =>
      if p.version.None? || p.version.value == "" then Err(MissingVersion)
      else if p.version.value == target then Ok(p)
      else if target !in entry.supported then Err(UnsupportedTarget)
      else if p.version.value !in entry.supported then Err(UnknownSource)
      else Walk(entry.steps, table, p, target, 0)
  }

  method MigrateArtifact(registry: seq<ArtifactEntry>, table: map<string, Migration>,
                         artifactType: string, payload: Payload, target: string)
    returns (r: Result<Payload, RegistryError>)
    ensures r == Migrated(registry, table, artifactType, payload, target)
  {
    var found := FindEntry(registry, artifactType);
    if found.None? {
      return Err(UnknownArtifact);
    }
    var entry := found.value;
    if payload.version.None? || payload.version.value == "" {
      return Err(MissingVersion);
    }
    var current := payload.version.value;
    if current == target {
      return Ok(payload);
    }
    if target !in entry.supported {
      return Err(UnsupportedTarget);
    }
    if current !in entry.supported {
      return Err(UnknownSource);
    }
    var working, guard := payload, 0;
    while VersionText(working) != target
      invariant 0 <= guard <= MAX_STEPS
      invariant Walk(entry.steps, table, payload, target, 0) == Walk(entry.steps, table, working, target, guard)
      decreases MAX_STEPS - guard
    {
      var next := Advance(entry.steps, table, working);
      if next.Err? {
        return next;
      }
      working := next.value;
      guard := guard + 1;
      if guard > MAX_STEPS {
        return Err(LoopDetected);
      }
    }
    return Ok(working);
  }

  // ---------------------------------------------------------------- maturity

  /** Neither changed, nor added, nor dropped. */
  ghost predicate SameMaturity(p: Payload, q: Payload) {
    forall k :: k in MATURITY_KEYS ==>
      (k in p.rest <==> k in q.rest) && (k in p.rest && k in q.rest ==> p.rest[k] == q.rest[k])
  }

  lemma StripKeepsMaturity(before: Payload, after: Payload)
    ensures SameMaturity(before, Strip(before, after))
    ensures forall k :: k !in MATURITY_KEYS ==> (k in Strip(before, after).rest <==> k in after.rest)
  {
  }

  lemma {:induction false} WalkKeepsMaturity(steps: seq<Step>, table: map<string, Migration>, p: Payload, target: string, guard: nat)
    requires guard <= MAX_STEPS && Walk(steps, table, p, target, guard).Ok?
    ensures SameMaturity(p, Walk(steps, table, p, target, guard).value)
    ensures VersionText(Walk(steps, table, p, target, guard).value) == target
    decreases MAX_STEPS - guard
  {
    if VersionText(p) != target {
      var next := Advance(steps, table, p).value;
      StripKeepsMaturity(p, table[FindStep(steps, VersionText(p)).value.id](p).value);
      WalkKeepsMaturity(steps, table, next, target, guard + 1);
    }
  }

  /** Whatever the registered migrations do, no path through them changes, adds or drops
      a maturity label, and success always means the version asked for. */
  lemma MigrationKeepsMaturity(registry: seq<ArtifactEntry>, table: map<string, Migration>,
                               artifactType: string, p: Payload, target: string)
    requires Migrated(registry, table, artifactType, p, target).Ok?
    ensures SameMaturity(p, Migrated(registry, table, artifactType, p, target).value)
    ensures Migrated(registry, table, artifactType, p, target).value.version == Some(target) ||
            (target == "None" && Migrated(registry, table, artifactType, p, target).value.version == None)
  {
    var entry := FindEntry(registry, artifactType).value;
    if p.version.value != target {
      WalkKeepsMaturity(entry.steps, table, p, target, 0);
    }
  }

  // ---------------------------------------------------------------- the shipped table

  /** Every shipped migration takes version 1 to version 2 and refuses any other. */
  lemma ShippedStep(id: string, p: Payload)
    requires id in SHIPPED
    ensures SHIPPED[id](p).Ok? <==> VersionOr1(p) == "1"
    ensures SHIPPED[id](p).Ok? ==> SHIPPED[id](p).value.version == Some("2")
    ensures SHIPPED[id](p).Err? ==> SHIPPED[id](p).error == WrongSource
  {
  }

  predicate Leads(entry: ArtifactEntry) {
    var step := FindStep(entry.steps, "1");
    step.Some? && step.value.id in SHIPPED
  }

  lemma EmptyIsNoId()
    ensures "" !in SHIPPED
  {
  }

  /** So the loop turns at most once: with the shipped table a migration succeeds exactly
      for the version already there, or from 1 to 2 where the registry has a step. The
      guard of 16 turns is never what stops it. */
  lemma ShippedMigratesExactly(registry: seq<ArtifactEntry>, artifactType: string, p: Payload, target: string)
    ensures var r := Migrated(registry, SHIPPED, artifactType, p, target);
      && r != Err(LoopDetected)
      && (r.Ok? <==>
            FindEntry(registry, artifactType).Some? && p.version.Some? && p.version.value != "" &&
            (p.version.value == target ||
             (var entry := FindEntry(registry, artifactType).value;
              "1" in entry.supported && "2" in entry.supported && p.version.value == "1" && target == "2" && Leads(entry))))
  {
    if FindEntry(registry, artifactType).Some? && p.version.Some? {
      var entry := FindEntry(registry, artifactType).value;
      if p.version.value != target {
        WalkShipped(entry, p, target);
      }
    }
  }

  lemma AdvanceShipped(steps: seq<Step>, p: Payload)
    ensures var r := Advance(steps, SHIPPED, p);
      && r != Err(LoopDetected)
      && (r.Ok? ==> VersionOr1(p) == "1" && r.value.version == Some("2"))
      && (p.version == Some("1") ==> (r.Ok? <==> FindStep(steps, "1").Some? && FindStep(steps, "1").value.id in SHIPPED))
  {
    EmptyIsNoId();
    var step := FindStep(steps, VersionText(p));
    if step.Some? && step.value.id in SHIPPED {
      ShippedStep(step.value.id, p);
    }
  }

  lemma WalkShipped(entry: ArtifactEntry, p: Payload, target: string)
    requires p.version.Some? && p.version.value != target
    ensures Walk(entry.steps, SHIPPED, p, target, 0) != Err(LoopDetected)
    ensures Walk(entry.steps, SHIPPED, p, target, 0).Ok? <==> p.version.value == "1" && target == "2" && Leads(entry)
  {
    AdvanceShipped(entry.steps, p);
    var first := Advance(entry.steps, SHIPPED, p);
    if first.Ok? && target != "2" {
      AdvanceShipped(entry.steps, first.value);
      assert Walk(entry.steps, SHIPPED, first.value, target, 1).Err?;
    } else if first.Ok? {
      assert Walk(entry.steps, SHIPPED, first.value, target, 1) == Ok(first.value);
    }
  }
}
