/**
 LabelVault of src/verifierlab/labels/vault.py: who may commit, freeze, release and read,
 what a read returns, and the audit row each call leaves. The MAC and the cipher are
 parameters; decryption is only assumed to undo encryption under the same label name.
 */
module LabelVault {
  import opened Prelude
  import opened HashChain

  datatype Role =
    | Analyst | Adjudicator | Coordinator | Auditor
    | Attacker | Worker | AttackPlane | Strategy
    | OtherRole(name: string)

  const LABEL_READ_ROLES: set<Role> := {Analyst, Adjudicator, Coordinator, Auditor}
  const ADMIN_ROLES: set<Role> := {Adjudicator, Coordinator}
  const PRIVATE_HOLDOUT_ROLES: set<Role> := {Adjudicator, Coordinator, Auditor}
  const ATTACK_ROLES: set<Role> := {Attacker, Worker, AttackPlane, Strategy}

  datatype Tier = Development | Regression | ReleaseTier | PrivateHoldout

  /** What an audit row says besides its links. */
  datatype Event =
    | CommitDenied(role: Role, reason: Reason)
    | LabelCommitted(commitment: string, role: Role, external: Option<string>, tier: Tier)
    | VaultFrozen(role: Role)
    | FrozenAlready(role: Role)
    | VaultReleased(role: Role)
    | ReleasedAlready(role: Role)
    | LabelDenied(commitment: string, role: Role, reason: Reason)
    | LabelRead(commitment: string, role: Role, tier: Tier)

  datatype Reason = AttackSide | WrongRole | StillSealed | PrivateLabel

  datatype CommitRecord = CommitRecord(nonce: string, external: Option<string>, tier: Tier)

  /** What a label file holds: version 2 writes ciphertext, an older file may be plain. */
  datatype Body = Sealed(cipher: string) | Plain(text: string)

  datatype LabelFile = LabelFile(body: Body, external: Option<string>, tier: Option<Tier>)

  /** What get_label returns: the label, with its tier added. */
  datatype Label = Label(text: string, tier: Tier)

  datatype Failure =
    | PermissionDenied
    | NotReleased
    | AfterRelease
    | AfterFreeze
    | BeforeFreeze
    | UnknownTier
    | NoSuchLabel
    | DecryptFailed

  /** The keyring: the MAC under the commit key, and the cipher under the decrypt key with
      the commitment as associated data. */
  datatype Keys = Keys(
    mac: (string, string, string) -> string,
    encrypt: (string, string) -> string,
    decrypt: (string, string) -> Option<string>)

  ghost predicate DecryptInverts(keys: Keys) {
    forall plain, aad :: keys.decrypt(keys.encrypt(plain, aad), aad) == Some(plain)
  }

  /** The files of a vault; labels are kept encrypted, private ones in their own place. */
  datatype Vault = Vault(
    frozen: bool,
    released: bool,
    commits: map<string, CommitRecord>,
    openLabels: map<string, LabelFile>,
    privateLabels: map<string, LabelFile>,
    tiers: map<string, Tier>,
    audit: seq<Row<Event>>)

  datatype Reply<+T> = Reply(vault: Vault, result: Result<T, Failure>)

  // ---------------------------------------------------------------- specification

  function Audited(hash: Hash<Event>, v: Vault, event: Event): Vault {
    v.(audit := v.audit + [Next(hash, v.audit, event)])
  }

  function Salt(nonce: string, random: string): string {
    if nonce != "" then nonce else random
  }

  /** The commit record, the label file and the tier entry written by a commit. */
  function WithLabel(v: Vault, c: string, cipher: string, record: CommitRecord): Vault {
    var file := LabelFile(Sealed(cipher), record.external, Some(record.tier));
    var filed :=
      if record.tier == PrivateHoldout then v.(privateLabels := v.privateLabels[c := file])
      else v.(openLabels := v.openLabels[c := file]);
    filed.(commits := v.commits[c := record], tiers := v.tiers[c := record.tier])
  }

  /** What a caller hands to commit; `random` is the nonce drawn when none is given, and
      no tier stands for a name that is none. */
  datatype Submission = Submission(
    trajectory: string, plain: string, external: Option<string>, nonce: string, random: string, tier: Option<Tier>)

  function Refused(role: Role): Reason {
    if role in ATTACK_ROLES then AttackSide else WrongRole
  }

  /** The name a submission is sealed under. */
  function Mac(keys: Keys, x: Submission): string {
    keys.mac(x.trajectory, Salt(x.nonce, x.random), x.plain)
  }

  /** What a submission writes under its name. */
  function Filed(keys: Keys, v: Vault, x: Submission): Vault
    requires x.tier.Some?
  {
    var c := Mac(keys, x);
    WithLabel(v, c, keys.encrypt(x.plain, c), CommitRecord(Salt(x.nonce, x.random), x.external, x.tier.value))
  }

  function CommitReply(keys: Keys, hash: Hash<Event>, v: Vault, x: Submission, role: Role): Reply<string> {
    if role !in ADMIN_ROLES then Reply(Audited(hash, v, CommitDenied(role, Refused(role))), Err(PermissionDenied))
    else if v.released then Reply(v, Err(AfterRelease))
    else if v.frozen && role != Adjudicator then Reply(v, Err(AfterFreeze))
    else if x.tier.None? then Reply(v, Err(UnknownTier))
    else
      var c := Mac(keys, x);
      Reply(Audited(hash, Filed(keys, v, x), LabelCommitted(c, role, x.external, x.tier.value)), Ok(c))
  }

  function FreezeReply(hash: Hash<Event>, v: Vault, role: Role): Reply<()> {
    if role !in ADMIN_ROLES then Reply(v, Err(PermissionDenied))
    else if v.frozen then Reply(Audited(hash, v, FrozenAlready(role)), Ok(()))
    else Reply(Audited(hash, v.(frozen := true), VaultFrozen(role)), Ok(()))
  }

  function ReleaseReply(hash: Hash<Event>, v: Vault, role: Role): Reply<()> {
    if role !in ADMIN_ROLES then Reply(v, Err(PermissionDenied))
    else if !v.frozen then Reply(v, Err(BeforeFreeze))
    else if v.released then Reply(Audited(hash, v, ReleasedAlready(role)), Ok(()))
    else Reply(Audited(hash, v.(released := true), VaultReleased(role)), Ok(()))
  }

  predicate IsPrivate(v: Vault, c: string) {
    c in v.tiers && v.tiers[c] == PrivateHoldout
  }

  /** The file a label path leads to. */
  function FileOf(v: Vault, c: string): Option<LabelFile> {
    if IsPrivate(v, c) then if c in v.privateLabels then Some(v.privateLabels[c]) else None
    else if c in v.openLabels then Some(v.openLabels[c])
    else None
  }

  /** The tier of the index, else the one in the file, else development. */
  function TierOf(v: Vault, c: string, file: LabelFile): Tier {
    if c in v.tiers then v.tiers[c] else if file.tier.Some? then file.tier.value else Development
  }

  /** The text of a label file. */
  function Opened(keys: Keys, c: string, file: LabelFile): Option<string> {
    match file.body
    case Sealed(cipher) => keys.decrypt(cipher, c)
    case Plain(text) => Some(text)
  }

  function GetReply(keys: Keys, hash: Hash<Event>, v: Vault, c: string, role: Role): Reply<Label> {
    if role !in LABEL_READ_ROLES then
      Reply(Audited(hash, v, LabelDenied(c, role, Refused(role))), Err(PermissionDenied))
    else if !v.released then Reply(Audited(hash, v, LabelDenied(c, role, StillSealed)), Err(NotReleased))
    else if IsPrivate(v, c) && role !in PRIVATE_HOLDOUT_ROLES then
      Reply(Audited(hash, v, LabelDenied(c, role, PrivateLabel)), Err(PermissionDenied))
    else
      match FileOf(v, c)
      case None => Reply(v, Err(NoSuchLabel))
      case Some(file) =>
        match Opened(keys, c, file)
        case None => Reply(v, Err(DecryptFailed))
        case Some(plain) =>
          var tier := TierOf(v, c, file);
          Reply(Audited(hash, v, LabelRead(c, role, tier)), Ok(Label(plain, tier)))
  }

  // ---------------------------------------------------------------- runs

  datatype Call =
    | Commit(submission: Submission, role: Role)
    | Freeze(role: Role)
    | Release(role: Role)
    | Get(commitment: string, role: Role)

  function Step(keys: Keys, hash: Hash<Event>, v: Vault, call: Call): Vault {
    match call
    case Commit(x, role) => CommitReply(keys, hash, v, x, role).vault
    case Freeze(role) => FreezeReply(hash, v, role).vault
    case Release(role) => ReleaseReply(hash, v, role).vault
    case Get(c, role) => GetReply(keys, hash, v, c, role).vault
  }

  function After(keys: Keys, hash: Hash<Event>, v: Vault, calls: seq<Call>): Vault
    decreases |calls|
  {
    if calls == [] then v else After(keys, hash, Step(keys, hash, v, calls[0]), calls[1..])
  }

  /** The labels a vault holds. */
  ghost predicate SameLabels(v: Vault, w: Vault) {
    v.commits == w.commits && v.openLabels == w.openLabels && v.privateLabels == w.privateLabels && v.tiers == w.tiers
  }

  ghost predicate Sound(hash: Hash<Event>, v: Vault) {
    Verified(hash, v.audit) && (v.released ==> v.frozen)
  }

  lemma AuditKeepsSound(hash: Hash<Event>, v: Vault, event: Event)
    requires Sound(hash, v)
    ensures Sound(hash, Audited(hash, v, event))
  {
    AppendKeepsVerified(hash, v.audit, event);
  }

  lemma CommitKeepsSound(keys: Keys, hash: Hash<Event>, v: Vault, call: Call)
    requires call.Commit? && Sound(hash, v)
    ensures Sound(hash, Step(keys, hash, v, call))
  {
    var x, role := call.submission, call.role;
    AuditKeepsSound(hash, v, CommitDenied(role, Refused(role)));
    if x.tier.Some? {
      AuditKeepsSound(hash, Filed(keys, v, x), LabelCommitted(Mac(keys, x), role, x.external, x.tier.value));
    }
  }

  lemma GetKeepsSound(keys: Keys, hash: Hash<Event>, v: Vault, c: string, role: Role)
    requires Sound(hash, v)
    ensures Sound(hash, GetReply(keys, hash, v, c, role).vault)
  {
    var after := GetReply(keys, hash, v, c, role).vault;
    if after != v {
      AuditKeepsSound(hash, v, after.audit[|v.audit|].body);
    }
  }

  lemma StepKeepsSound(keys: Keys, hash: Hash<Event>, v: Vault, call: Call)
    requires Sound(hash, v)
    ensures Sound(hash, Step(keys, hash, v, call))
  {
    match call
    case Commit(_, _) => CommitKeepsSound(keys, hash, v, call);
    case Freeze(role) =>
      AuditKeepsSound(hash, v, FrozenAlready(role));
      AuditKeepsSound(hash, v.(frozen := true), VaultFrozen(role));
    case Release(role) =>
      AuditKeepsSound(hash, v, ReleasedAlready(role));
      if v.frozen {
        AuditKeepsSound(hash, v.(released := true), VaultReleased(role));
      }
    case Get(c, role) => GetKeepsSound(keys, hash, v, c, role);
  }

  /** After any calls the audit log verifies and nothing is released unfrozen. */
  lemma {:induction false} RunKeepsSound(keys: Keys, hash: Hash<Event>, v: Vault, calls: seq<Call>)
    requires Sound(hash, v)
    ensures Sound(hash, After(keys, hash, v, calls))
    decreases |calls|
  {
    if calls != [] {
      StepKeepsSound(keys, hash, v, calls[0]);
      RunKeepsSound(keys, hash, Step(keys, hash, v, calls[0]), calls[1..]);
    }
  }

  /** A call that cannot add a label to the vault as it stands. */
  predicate Harmless(v: Vault, call: Call) {
    !call.Commit? || v.released || (v.frozen && call.role != Adjudicator)
  }

  /** Markers stay, and a harmless call leaves the labels alone. */
  ghost predicate Onward(v: Vault, w: Vault, harmless: bool) {
    (v.frozen ==> w.frozen) && (v.released ==> w.released) && (harmless ==> SameLabels(v, w))
  }

  lemma CommitIsOnward(keys: Keys, hash: Hash<Event>, v: Vault, call: Call)
    requires call.Commit?
    ensures Onward(v, Step(keys, hash, v, call), Harmless(v, call))
  {
  }

  lemma GetOnlyAudits(keys: Keys, hash: Hash<Event>, v: Vault, c: string, role: Role)
    ensures var w := GetReply(keys, hash, v, c, role).vault; w == v.(audit := w.audit)
  {
  }

  lemma GetIsOnward(keys: Keys, hash: Hash<Event>, v: Vault, call: Call)
    requires call.Get?
    ensures Onward(v, Step(keys, hash, v, call), true)
  {
    GetOnlyAudits(keys, hash, v, call.commitment, call.role);
  }

  lemma StepIsOnward(keys: Keys, hash: Hash<Event>, v: Vault, call: Call)
    ensures Onward(v, Step(keys, hash, v, call), Harmless(v, call))
  {
    if call.Commit? {
      CommitIsOnward(keys, hash, v, call);
    } else if call.Get? {
      GetIsOnward(keys, hash, v, call);
    }
  }

  /** Once released, or once frozen and without the adjudicator, the labels of a vault
      are fixed whatever is called. */
  lemma {:induction false} LabelsAreFixed(keys: Keys, hash: Hash<Event>, v: Vault, calls: seq<Call>)
    requires forall call :: call in calls ==> Harmless(v, call)
    ensures SameLabels(v, After(keys, hash, v, calls))
    ensures v.released ==> After(keys, hash, v, calls).released
    decreases |calls|
  {
    if calls != [] {
      assert calls[0] in calls;
      StepIsOnward(keys, hash, v, calls[0]);
      forall call | call in calls[1..]
        ensures Harmless(Step(keys, hash, v, calls[0]), call)
      {
        assert call in calls;
      }
      LabelsAreFixed(keys, hash, Step(keys, hash, v, calls[0]), calls[1..]);
    }
  }

  lemma ReleaseIsFinal(keys: Keys, hash: Hash<Event>, v: Vault, calls: seq<Call>)
    requires v.released
    ensures After(keys, hash, v, calls).released && SameLabels(v, After(keys, hash, v, calls))
  {
    LabelsAreFixed(keys, hash, v, calls);
  }

  /** Apart from the audit row, a commit files its submission or changes nothing. */
  lemma CommitOutcome(keys: Keys, hash: Hash<Event>, v: Vault, x: Submission, role: Role)
    ensures var w := CommitReply(keys, hash, v, x, role).vault;
      w == v.(audit := w.audit) || (x.tier.Some? && w == Filed(keys, v, x).(audit := w.audit))
  {
  }

  ghost predicate SealedFiles(files: map<string, LabelFile>) {
    forall c :: c in files ==> files[c].body.Sealed?
  }

  lemma StepStaysSealed(keys: Keys, hash: Hash<Event>, v: Vault, call: Call)
    requires SealedFiles(v.openLabels) && SealedFiles(v.privateLabels)
    ensures var w := Step(keys, hash, v, call); SealedFiles(w.openLabels) && SealedFiles(w.privateLabels)
  {
    if call.Commit? {
      CommitOutcome(keys, hash, v, call.submission, call.role);
    } else {
      StepIsOnward(keys, hash, v, call);
    }
  }

  /** No run of calls writes a label in the clear. */
  lemma {:induction false} RunStaysSealed(keys: Keys, hash: Hash<Event>, v: Vault, calls: seq<Call>)
    requires SealedFiles(v.openLabels) && SealedFiles(v.privateLabels)
    ensures var w := After(keys, hash, v, calls); SealedFiles(w.openLabels) && SealedFiles(w.privateLabels)
    decreases |calls|
  {
    if calls != [] {
      StepStaysSealed(keys, hash, v, calls[0]);
      RunStaysSealed(keys, hash, Step(keys, hash, v, calls[0]), calls[1..]);
    }
  }

  // ---------------------------------------------------------------- reading

  /** An attack role never reads a label, whatever was called before. */
  lemma AttackersReadNothing(keys: Keys, hash: Hash<Event>, v: Vault, calls: seq<Call>, c: string, role: Role)
    requires role in ATTACK_ROLES
    ensures GetReply(keys, hash, After(keys, hash, v, calls), c, role).result == Err(PermissionDenied)
  {
    AttackRolesExcluded(role);
  }

  lemma AttackRolesExcluded(role: Role)
    requires role in ATTACK_ROLES
    ensures role !in LABEL_READ_ROLES && role !in ADMIN_ROLES
  {
  }

  /** A call that commits nothing under the name c. */
  predicate Spares(keys: Keys, c: string, call: Call) {
    call.Commit? ==> Mac(keys, call.submission) != c
  }

  /** What a vault holds under one name. */
  ghost predicate SameLabel(v: Vault, w: Vault, c: string) {
    FileOf(v, c) == FileOf(w, c) && (c in v.tiers <==> c in w.tiers) && (c in v.tiers ==> v.tiers[c] == w.tiers[c])
  }

  lemma CommitSpares(keys: Keys, hash: Hash<Event>, v: Vault, call: Call, c: string)
    requires call.Commit? && Spares(keys, c, call)
    ensures SameLabel(v, Step(keys, hash, v, call), c)
  {
    CommitOutcome(keys, hash, v, call.submission, call.role);
  }

  lemma StepSpares(keys: Keys, hash: Hash<Event>, v: Vault, call: Call, c: string)
    requires Spares(keys, c, call)
    ensures SameLabel(v, Step(keys, hash, v, call), c)
  {
    if call.Commit? {
      CommitSpares(keys, hash, v, call, c);
    } else {
      StepIsOnward(keys, hash, v, call);
    }
  }

  lemma {:induction false} RunSpares(keys: Keys, hash: Hash<Event>, v: Vault, calls: seq<Call>, c: string)
    requires forall call :: call in calls ==> Spares(keys, c, call)
    ensures SameLabel(v, After(keys, hash, v, calls), c)
    decreases |calls|
  {
    if calls != [] {
      assert calls[0] in calls && forall call :: call in calls[1..] ==> call in calls;
      StepSpares(keys, hash, v, calls[0], c);
      RunSpares(keys, hash, Step(keys, hash, v, calls[0]), calls[1..], c);
    }
  }

  /** Who may read a committed label: after release, the read roles, except the analyst
      where the label is private; and what they get is the label that was committed,
      whatever else was committed, frozen, released or read in between. */
  lemma ReadsWhatWasCommitted(
      keys: Keys, hash: Hash<Event>, v: Vault, x: Submission, admin: Role, later: seq<Call>, role: Role)
    requires DecryptInverts(keys)
    requires CommitReply(keys, hash, v, x, admin).result.Ok?
    requires forall call :: call in later ==> Spares(keys, Mac(keys, x), call)
    ensures x.tier.Some?
    ensures var w := After(keys, hash, CommitReply(keys, hash, v, x, admin).vault, later);
      GetReply(keys, hash, w, Mac(keys, x), role).result ==
        if role in LABEL_READ_ROLES && w.released && (x.tier != Some(PrivateHoldout) || role in PRIVATE_HOLDOUT_ROLES)
        then Ok(Label(x.plain, x.tier.value))
        else if role in LABEL_READ_ROLES && !w.released then Err(NotReleased)
        else Err(PermissionDenied)
  {
    CommitFiles(keys, hash, v, x, admin);
    RunSpares(keys, hash, CommitReply(keys, hash, v, x, admin).vault, later, Mac(keys, x));
  }

  lemma CommitFiles(keys: Keys, hash: Hash<Event>, v: Vault, x: Submission, admin: Role)
    requires CommitReply(keys, hash, v, x, admin).result.Ok?
    ensures var c, w := Mac(keys, x), CommitReply(keys, hash, v, x, admin).vault;
      && x.tier.Some? && c in w.tiers && w.tiers[c] == x.tier.value
      && FileOf(w, c) == Some(LabelFile(Sealed(keys.encrypt(x.plain, c)), x.external, Some(x.tier.value)))
  {
  }

  // ---------------------------------------------------------------- the vault

  class LabelVault {
    const keys: Keys
    const hash: Hash<Event>
    var frozen: bool
    var released: bool
    var commits: map<string, CommitRecord>
    var openLabels: map<string, LabelFile>
    var privateLabels: map<string, LabelFile>
    var tiers: map<string, Tier>
    var audit: seq<Row<Event>>
    var auditTip: Digest

    function Files(): Vault
      reads this
    {
      Vault(frozen, released, commits, openLabels, privateLabels, tiers, audit)
    }

    ghost predicate Valid()
      reads this
    {
      auditTip == Tip(audit)
    }

    constructor (keys: Keys, hash: Hash<Event>)
      ensures Valid() && this.keys == keys && this.hash == hash
      ensures Files() == Vault(false, false, map[], map[], map[], map[], [])
    {
      this.keys, this.hash := keys, hash;
      frozen, released := false, false;
      commits, openLabels, privateLabels, tiers := map[], map[], map[], map[];
      audit, auditTip := [], GENESIS;
    }

    method Audit(event: Event)
      requires Valid()
      modifies `audit, `auditTip
      ensures Valid() && Files() == Audited(hash, old(Files()), event)
    {
      var digest := hash(auditTip, event);
      audit := audit + [Row(auditTip, event, digest)];
      auditTip := digest;
    }

    method CommitLabel(x: Submission, role: Role) returns (r: Result<string, Failure>)
      requires Valid()
      modifies this
      ensures Valid() && Reply(Files(), r) == CommitReply(keys, hash, old(Files()), x, role)
    {
      if role in ATTACK_ROLES {
        AttackRolesExcluded(role);
        Audit(CommitDenied(role, AttackSide));
        return Err(PermissionDenied);
      }
      if role !in ADMIN_ROLES {
        Audit(CommitDenied(role, WrongRole));
        return Err(PermissionDenied);
      }
      if released {
        return Err(AfterRelease);
      }
      if frozen && role != Adjudicator {
        return Err(AfterFreeze);
      }
      if x.tier.None? {
        return Err(UnknownTier);
      }
      var tier := x.tier.value;
      var salt := if x.nonce != "" then x.nonce else x.random;
      var commitment := keys.mac(x.trajectory, salt, x.plain);
      var cipher := keys.encrypt(x.plain, commitment);
      commits := commits[commitment := CommitRecord(salt, x.external, tier)];
      if tier == PrivateHoldout {
        privateLabels := privateLabels[commitment := LabelFile(Sealed(cipher), x.external, Some(tier))];
      } else {
        openLabels := openLabels[commitment := LabelFile(Sealed(cipher), x.external, Some(tier))];
      }
      tiers := tiers[commitment := tier];
      Audit(LabelCommitted(commitment, role, x.external, tier));
      return Ok(commitment);
    }

    method FreezeVault(role: Role) returns (r: Result<(), Failure>)
      requires Valid()
      modifies this
      ensures Valid() && Reply(Files(), r) == FreezeReply(hash, old(Files()), role)
    {
      if role !in ADMIN_ROLES {
        return Err(PermissionDenied);
      }
      if frozen {
        Audit(FrozenAlready(role));
        return Ok(());
      }
      frozen := true;
      Audit(VaultFrozen(role));
      return Ok(());
    }

    method ReleaseVault(role: Role) returns (r: Result<(), Failure>)
      requires Valid()
      modifies this
      ensures Valid() && Reply(Files(), r) == ReleaseReply(hash, old(Files()), role)
    {
      if role !in ADMIN_ROLES {
        return Err(PermissionDenied);
      }
      if !frozen {
        return Err(BeforeFreeze);
      }
      if released {
        Audit(ReleasedAlready(role));
        return Ok(());
      }
      released := true;
      Audit(VaultReleased(role));
      return Ok(());
    }

    method GetLabel(commitment: string, role: Role) returns (r: Result<Label, Failure>)
      requires Valid()
      modifies `audit, `auditTip
      ensures Valid() && Reply(Files(), r) == GetReply(keys, hash, old(Files()), commitment, role)
    {
      if role in ATTACK_ROLES {
        AttackRolesExcluded(role);
        Audit(LabelDenied(commitment, role, AttackSide));
        return Err(PermissionDenied);
      }
      if role !in LABEL_READ_ROLES {
        Audit(LabelDenied(commitment, role, WrongRole));
        return Err(PermissionDenied);
      }
      if !released {
        Audit(LabelDenied(commitment, role, StillSealed));
        return Err(NotReleased);
      }
      if IsPrivate(Files(), commitment) && role !in PRIVATE_HOLDOUT_ROLES {
        Audit(LabelDenied(commitment, role, PrivateLabel));
        return Err(PermissionDenied);
      }
      var file := FileOf(Files(), commitment);
      if file.None? {
        return Err(NoSuchLabel);
      }
      var plain;
      match file.value.body {
        case Sealed(cipher) => plain := keys.decrypt(cipher, commitment);
        case Plain(text) => plain := Some(text);
      }
      if plain.None? {
        return Err(DecryptFailed);
      }
      var tier := TierOf(Files(), commitment, file.value);
      Audit(LabelRead(commitment, role, tier));
      return Ok(Label(plain.value, tier));
    }
  }
}
