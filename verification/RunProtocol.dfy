/**
 The run directory under freeze, adjudication and release (src/verifierlab/campaigns/
 engine.py and lifecycle.py, src/verifierlab/labels/adjudication_service.py and
 vault.py). An operation reads the disk, then makes its durable writes one after the
 other; a crash may stop it after any of them.
 */
module RunProtocol {
  import opened Prelude
  import opened HashChain

  // ---------------------------------------------------------------- lifecycle

  datatype Lifecycle =
    | Draft | Validated | Baseline | Attack | Freeze | Adjudication
    | LabelRelease | Triage | Stats | Repair | Disclosure

  function Rank(l: Lifecycle): nat {
    match l
    case Draft => 0
    case Validated => 1
    case Baseline => 2
    case Attack => 3
    case Freeze => 4
    case Adjudication => 5
    case LabelRelease => 6
    case Triage => 7
    case Stats => 8
    case Repair => 9
    case Disclosure => 10
  }

  function Allowed(l: Lifecycle): set<Lifecycle> {
    match l
    case Draft => {Validated}
    case Validated => {Baseline, Attack}
    case Baseline => {Attack}
    case Attack => {Freeze}
    case Freeze => {Adjudication}
    case Adjudication => {LabelRelease}
    case LabelRelease => {Triage, Stats, Repair}
    case Triage => {Stats, Repair, Disclosure}
    case Stats => {Repair, Disclosure}
    case Repair => {Disclosure}
    case Disclosure => {}
  }

  predicate CanTransition(current: Lifecycle, next: Lifecycle) {
    next in Allowed(current)
  }

  // ---------------------------------------------------------------- what is on disk

  /** A work unit's row; an empty text stands for a missing field. */
  datatype UnitRow = UnitRow(unitId: string, trajectory: Option<string>, nonce: string, external: string)

  datatype Label = Label(valid: bool, text: string)

  datatype CommitRecord = CommitRecord(nonce: string, verdict: Label, external: string)

  /** The side file adjudication leaves for a unit. */
  datatype Side = Side(unitId: string, commitment: string, verdict: Label)

  datatype TipKind = AttackTip | FreezeTip | AdjudicationTip | ReleaseTip

  /** An immutable lifecycle record: the sorted commitments it lists are known by their
      multiset, and everything else it carries by its text. */
  datatype TipRecord = TipRecord(kind: TipKind, prev: Option<Digest>, commitments: multiset<string>, text: string)

  /** manifest.json. */
  datatype Index = Index(lifecycle: Lifecycle, tip: Digest, kind: TipKind, chain: seq<Digest>)

  /** The files the protocol turns on: the tip index, the vault's markers, the seal, the
      attack-plane lock, the label receipt, and the stored tips. */
  datatype Core = Core(
    manifest: Option<Index>,
    frozen: bool,
    released: bool,
    sealed: bool,
    lock: Option<Digest>,
    receipt: bool,
    objects: map<Digest, TipRecord>)

  datatype Disk = Disk(
    core: Core,
    freezeFile: bool,
    workUnits: map<string, UnitRow>,
    commitments: map<string, CommitRecord>,
    labels: map<string, Label>,
    adjudications: map<string, Side>,
    analysis: map<string, Side>,
    audit: seq<Row<string>>)

  const EMPTY := Disk(Core(None, false, false, false, None, false, map[]), false, map[], map[], map[], map[], map[], [])

  datatype CoreWrite =
    | MarkFrozen
    | MarkReleased
    | PutTip(tip: TipRecord)
    | Manifest(index: Index)
    | SealedRun
    | LockFile(tree: Digest)
    | Receipt

  datatype Write =
    | CoreFile(write: CoreWrite)
    | FreezeFile
    | WorkUnit(name: string, row: UnitRow)
    | CommitFile(commitment: string, record: CommitRecord)
    | LabelFile(commitment: string, verdict: Label)
    | AdjudicationFile(side: Side)
    | AnalysisFile(side: Side)
    | Audited(event: string)
    | OtherFile(file: string)

  // ---------------------------------------------------------------- what the code is given

  /** The keyed MAC over (trajectory, nonce, label), the ground-truth judge, and the
      digests of records, of the work-unit tree and of audit rows. */
  datatype Config = Config(
    mac: (string, string, Label) -> string,
    judge: UnitRow -> Label,
    digest: TipRecord -> Digest,
    tree: map<string, UnitRow> -> Digest,
    auditHash: Hash<string>)

  datatype Failure =
    | NoManifest
    | IllegalTransition
    | TipAfterSeal
    | BeforeFreeze
    | AfterRelease
    | AttackPlaneChanged
    | NotFrozen

  /** The writes an operation makes, and what it raises after the last of them. */
  datatype Planned = Planned(writes: seq<Write>, raised: Option<Failure>)

  // ---------------------------------------------------------------- single writes

  function ApplyCore(cfg: Config, core: Core, w: CoreWrite): Core {
    match w
    case MarkFrozen => core.(frozen := true)
    case MarkReleased => core.(released := true)
    case PutTip(record) => core.(objects := Stored(cfg, core.objects, record))
    case Manifest(index) => core.(manifest := Some(index))
    case SealedRun => core.(sealed := true)
    case LockFile(tree) => core.(lock := Some(tree))
    case Receipt => core.(receipt := true)
  }

  /** The store never overwrites an object. */
  function Stored(cfg: Config, objects: map<Digest, TipRecord>, record: TipRecord): map<Digest, TipRecord> {
    if cfg.digest(record) in objects then objects else objects[cfg.digest(record) := record]
  }

  function Apply(cfg: Config, d: Disk, w: Write): Disk {
    match w
    case CoreFile(c) => d.(core := ApplyCore(cfg, d.core, c))
    case FreezeFile => d.(freezeFile := true)
    case WorkUnit(name, row) => d.(workUnits := d.workUnits[name := row])
    case CommitFile(c, record) => d.(commitments := d.commitments[c := record])
    case LabelFile(c, verdict) => d.(labels := d.labels[c := verdict])
    case AdjudicationFile(side) => d.(adjudications := d.adjudications[side.unitId := side])
    case AnalysisFile(side) => d.(analysis := d.analysis[side.unitId := side])
    case Audited(event) => d.(audit := d.audit + [Next(cfg.auditHash, d.audit, event)])
    case OtherFile(_) => d
  }

  function ApplyAll(cfg: Config, d: Disk, ws: seq<Write>): Disk
    decreases |ws|
  {
    if ws == [] then d else ApplyAll(cfg, Apply(cfg, d, ws[0]), ws[1..])
  }

  // ---------------------------------------------------------------- write_tip_index

  function TipGuard(d: Disk, next: Lifecycle): Option<Failure> {
    if d.core.manifest.None? then None
    else if d.core.manifest.value.lifecycle != next then
      if CanTransition(d.core.manifest.value.lifecycle, next) then None else Some(IllegalTransition)
    else if d.core.sealed then Some(TipAfterSeal)
    else None
  }

  function ChainWith(chain: seq<Digest>, tip: Digest): seq<Digest> {
    if tip in chain then chain else chain + [tip]
  }

  function TipWrites(cfg: Config, record: TipRecord, next: Lifecycle, prevChain: seq<Digest>): seq<Write> {
    var tip := cfg.digest(record);
    [CoreFile(PutTip(record)),
     CoreFile(Manifest(Index(next, tip, record.kind, ChainWith(prevChain, tip)))),
     OtherFile("lifecycle")]
  }

  // ---------------------------------------------------------------- operations

  /** An operation with what it reads from outside: file orders, random nonces, and the
      clock and identifiers that end up in a record's text. */
  datatype Op =
    | AttackRun(units: seq<(string, UnitRow)>, text: string)
    | FreezeRun(text: string)
    | AdjudicateRun(order: seq<string>, randoms: string -> string, text: string)
    | ReleaseLabels(order: seq<string>, text: string)

  /** The launcher files each unit that has no file yet, and leaves the others alone. */
  function UnitWrites(filed: set<string>, units: seq<(string, UnitRow)>): seq<Write>
    decreases |units|
  {
    if units == [] then []
    else if units[0].0 in filed then UnitWrites(filed, units[1..])
    else [WorkUnit(units[0].0, units[0].1)] + UnitWrites(filed + {units[0].0}, units[1..])
  }

  /** run_campaign: the work units, then an attack tip that starts a new chain. */
  function AttackPlan(cfg: Config, d: Disk, units: seq<(string, UnitRow)>, text: string): Planned {
    match TipGuard(d, Attack)
    case Some(e) => Planned(UnitWrites(d.workUnits.Keys, units), Some(e))
    case None =>
      Planned(UnitWrites(d.workUnits.Keys, units) + TipWrites(cfg, TipRecord(AttackTip, None, multiset{}, text), Attack, []), None)
  }

  /** vault.freeze: idempotent, but audited each time. */
  function VaultFreeze(d: Disk): seq<Write> {
    if d.core.frozen then [Audited("freeze_idempotent")] else [CoreFile(MarkFrozen), OtherFile("records"), Audited("freeze")]
  }

  function FreezePlan(cfg: Config, d: Disk, text: string): Planned {
    if d.core.manifest.None? then Planned([], Some(NoManifest))
    else if !CanTransition(d.core.manifest.value.lifecycle, Freeze) then Planned([], Some(IllegalTransition))
    else
      var index := d.core.manifest.value;
      var record := TipRecord(FreezeTip, Some(index.tip), multiset(d.commitments.Keys), text);
      Planned(VaultFreeze(d) + TipWrites(cfg, record, Freeze, index.chain) + SealWrites(cfg, d), None)
  }

  /** What freeze_run writes after the manifest says the run is frozen. */
  function SealWrites(cfg: Config, d: Disk): seq<Write> {
    [FreezeFile, OtherFile("chronology"), OtherFile("freeze_seal_bundle"),
     CoreFile(SealedRun), CoreFile(LockFile(cfg.tree(d.workUnits)))]
  }

  /** The nonce a commitment is salted with: the row's own, else its unit id, else a
      random one. */
  function NonceText(row: UnitRow): string {
    if row.nonce != "" then row.nonce else row.unitId
  }

  function Salt(row: UnitRow, random: string): string {
    if NonceText(row) != "" then NonceText(row) else random
  }

  function CommitmentOf(cfg: Config, row: UnitRow, random: string): string
    requires row.trajectory.Some?
  {
    cfg.mac(row.trajectory.value, Salt(row, random), cfg.judge(row))
  }

  function SealWritesOf(cfg: Config, row: UnitRow, random: string): seq<Write>
    requires row.trajectory.Some?
  {
    var c := CommitmentOf(cfg, row, random);
    [CommitFile(c, CommitRecord(Salt(row, random), cfg.judge(row), row.external)),
     LabelFile(c, cfg.judge(row)),
     OtherFile("label_tiers"),
     Audited("commit:" + c),
     AdjudicationFile(Side(row.unitId, c, cfg.judge(row)))]
  }

  predicate Adjudicable(d: Disk, name: string) {
    name in d.workUnits && d.workUnits[name].trajectory.Some?
  }

  /** The loop over work units in file order; rows without a trajectory are passed over. */
  function SealUnits(cfg: Config, d: Disk, order: seq<string>, randoms: string -> string): seq<Write> {
    if order == [] then []
    else
      (if Adjudicable(d, order[0]) then SealWritesOf(cfg, d.workUnits[order[0]], randoms(order[0])) else []) +
      SealUnits(cfg, d, order[1..], randoms)
  }

  function Sealed(cfg: Config, d: Disk, order: seq<string>, randoms: string -> string): seq<string> {
    if order == [] then []
    else
      (if Adjudicable(d, order[0]) then [CommitmentOf(cfg, d.workUnits[order[0]], randoms(order[0]))] else []) +
      Sealed(cfg, d, order[1..], randoms)
  }

  function AdjudicatePlan(cfg: Config, d: Disk, order: seq<string>, randoms: string -> string, text: string): Planned {
    if d.core.manifest.None? then Planned([], Some(NoManifest))
    else if !CanTransition(d.core.manifest.value.lifecycle, Adjudication) then Planned([], Some(IllegalTransition))
    else if !d.core.frozen && !d.freezeFile then Planned([], Some(BeforeFreeze))
    else if d.core.released then Planned([], Some(AfterRelease))
    else
      var index := d.core.manifest.value;
      var record := TipRecord(AdjudicationTip, Some(index.tip), multiset(Sealed(cfg, d, order, randoms)), text);
      Planned(
        SealUnits(cfg, d, order, randoms) + TipWrites(cfg, record, Adjudication, index.chain) + [OtherFile("adjudication")],
        None)
  }

  /** vault.release, once it is known to be frozen. */
  function VaultRelease(d: Disk): seq<Write> {
    if d.core.released then [Audited("release_idempotent")] else [CoreFile(MarkReleased), OtherFile("records"), Audited("release")]
  }

  /** Copies of the adjudicated units that exist, now with their labels. */
  function AnalysisWrites(d: Disk, order: seq<string>): seq<Write> {
    if order == [] then []
    else
      (if order[0] in d.adjudications && d.adjudications[order[0]].unitId in d.workUnits
       then [AnalysisFile(d.adjudications[order[0]])] else []) +
      AnalysisWrites(d, order[1..])
  }

  function Materialized(d: Disk, order: seq<string>): seq<string> {
    if order == [] then []
    else
      (if order[0] in d.adjudications && d.adjudications[order[0]].unitId in d.workUnits
       then [d.adjudications[order[0]].commitment] else []) +
      Materialized(d, order[1..])
  }

  function ReleasePlan(cfg: Config, d: Disk, order: seq<string>, text: string): Planned {
    if d.core.manifest.None? then Planned([], Some(NoManifest))
    else if !CanTransition(d.core.manifest.value.lifecycle, LabelRelease) then Planned([], Some(IllegalTransition))
    else if d.core.lock.Some? && d.core.lock.value != cfg.tree(d.workUnits) then Planned([], Some(AttackPlaneChanged))
    else if !d.core.frozen then Planned([], Some(NotFrozen))
    else
      var index := d.core.manifest.value;
      var record := TipRecord(ReleaseTip, Some(index.tip), multiset(Materialized(d, order)), text);
      Planned(
        VaultRelease(d) + AnalysisWrites(d, order) + TipWrites(cfg, record, LabelRelease, index.chain) +
        [OtherFile("release")] + (if d.core.sealed then [CoreFile(Receipt)] else []),
        None)
  }

  function Plan(cfg: Config, d: Disk, op: Op): Planned {
    match op
    case AttackRun(units, text) => AttackPlan(cfg, d, units, text)
    case FreezeRun(text) => FreezePlan(cfg, d, text)
    case AdjudicateRun(order, randoms, text) => AdjudicatePlan(cfg, d, order, randoms, text)
    case ReleaseLabels(order, text) => ReleasePlan(cfg, d, order, text)
  }

  /** An operation that got as far as its first n writes. */
  datatype Attempt = Attempt(op: Op, n: nat)

  function FirstN(ws: seq<Write>, n: nat): seq<Write> {
    if n < |ws| then ws[..n] else ws
  }

  function Perform(cfg: Config, d: Disk, a: Attempt): Disk {
    ApplyAll(cfg, d, FirstN(Plan(cfg, d, a.op).writes, a.n))
  }

  /** Any number of operations, each stopped anywhere or not at all. */
  function After(cfg: Config, d: Disk, attempts: seq<Attempt>): Disk
    decreases |attempts|
  {
    if attempts == [] then d else After(cfg, Perform(cfg, d, attempts[0]), attempts[1..])
  }

  /** labels_released: by the lifecycle, or by the vault's marker. */
  predicate LabelsReleased(d: Disk) {
    (d.core.manifest.Some? && d.core.manifest.value.lifecycle in {LabelRelease, Triage, Stats, Repair, Disclosure}) || d.core.released
  }
}
