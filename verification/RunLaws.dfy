/**
 What every run of freeze, adjudication and release keeps, with a crash allowed after
 any single write.
 */
module RunLaws {
  import opened Prelude
  import opened HashChain
  import opened RunProtocol

  function CoreRank(core: Core): nat {
    if core.manifest.None? then 0 else Rank(core.manifest.value.lifecycle)
  }

  // ---------------------------------------------------------------- the invariant

  ghost predicate OneToOne(digest: TipRecord -> Digest) {
    forall p, q :: digest(p) == digest(q) ==> p == q
  }

  /** Records are stored under their own digests. */
  ghost predicate HonestStore(cfg: Config, objects: map<Digest, TipRecord>) {
    forall t :: t in objects ==> cfg.digest(objects[t]) == t
  }

  /** Every tip resolves in the store; each but the first names the one before it, and
      the first is an attack run's. */
  ghost predicate LinkAt(objects: map<Digest, TipRecord>, chain: seq<Digest>, i: nat)
    requires i < |chain|
  {
    && chain[i] in objects
    && (if i == 0 then objects[chain[i]].kind == AttackTip && objects[chain[i]].prev == None
        else objects[chain[i]].kind != AttackTip && objects[chain[i]].prev == Some(chain[i - 1]))
  }

  ghost predicate LinkedChain(objects: map<Digest, TipRecord>, chain: seq<Digest>) {
    && (forall i :: 0 <= i < |chain| ==> LinkAt(objects, chain, i))
    && (forall i, j :: 0 <= i < j < |chain| ==> chain[i] != chain[j])
  }

  ghost predicate GoodIndex(objects: map<Digest, TipRecord>, index: Index) {
    && index.chain != [] && index.tip == index.chain[|index.chain| - 1]
    && LinkedChain(objects, index.chain)
    && (index.lifecycle == Attack || Rank(index.lifecycle) >= Rank(Freeze))
  }

  /** The vault's markers against the lifecycle. */
  ghost predicate Markers(core: Core) {
    && (CoreRank(core) >= Rank(Freeze) ==> core.frozen)
    && (core.released ==> core.frozen && CoreRank(core) >= Rank(Adjudication))
    && (CoreRank(core) >= Rank(LabelRelease) ==> core.released)
    && (core.sealed ==> CoreRank(core) >= Rank(Freeze))
    && (core.lock.Some? ==> core.sealed)
    && (core.receipt ==> core.sealed && core.released)
  }

  ghost predicate CoreInv(cfg: Config, core: Core) {
    && Markers(core)
    && HonestStore(cfg, core.objects)
    && (core.manifest.Some? ==> GoodIndex(core.objects, core.manifest.value))
  }

  ghost predicate Inv(cfg: Config, d: Disk) {
    CoreInv(cfg, d.core) && Verified(cfg.auditHash, d.audit)
  }

  // ---------------------------------------------------------------- when a write is safe

  /** What must hold on disk for a write to keep the invariant, whatever comes after. */
  ghost predicate SafeCore(core: Core, w: CoreWrite) {
    match w
    case MarkReleased => core.frozen && CoreRank(core) >= Rank(Adjudication)
    case Manifest(index) =>
      && GoodIndex(core.objects, index)
      && (Rank(index.lifecycle) >= Rank(Freeze) ==> core.frozen)
      && (Rank(index.lifecycle) >= Rank(LabelRelease) ==> core.released)
      && (core.released ==> Rank(index.lifecycle) >= Rank(Adjudication))
      && (core.sealed ==> Rank(index.lifecycle) >= Rank(Freeze))
      && (CoreRank(core) >= Rank(Freeze) ==>
            Rank(index.lifecycle) > CoreRank(core) && core.manifest.value.chain <= index.chain)
    case SealedRun => CoreRank(core) >= Rank(Freeze)
    case LockFile(_) => core.sealed
    case Receipt => core.sealed && core.released
    case _ => true
  }

  ghost predicate Safe(d: Disk, w: Write) {
    if w.CoreFile? then SafeCore(d.core, w.write)
    else w.CommitFile? || w.LabelFile? ==> !d.core.released
  }

  ghost predicate SafeAll(cfg: Config, d: Disk, ws: seq<Write>)
    decreases |ws|
  {
    ws == [] || (Safe(d, ws[0]) && SafeAll(cfg, Apply(cfg, d, ws[0]), ws[1..]))
  }

  ghost predicate Grows(before: map<Digest, TipRecord>, after: map<Digest, TipRecord>) {
    forall t :: t in before ==> t in after && after[t] == before[t]
  }

  lemma StoredGrows(cfg: Config, objects: map<Digest, TipRecord>, record: TipRecord)
    ensures Grows(objects, Stored(cfg, objects, record)) && cfg.digest(record) in Stored(cfg, objects, record)
    ensures HonestStore(cfg, objects) ==> HonestStore(cfg, Stored(cfg, objects, record))
  {
  }

  lemma GrowthKeepsChain(before: map<Digest, TipRecord>, after: map<Digest, TipRecord>, chain: seq<Digest>)
    requires Grows(before, after) && LinkedChain(before, chain)
    ensures LinkedChain(after, chain)
  {
    forall i | 0 <= i < |chain|
      ensures LinkAt(after, chain, i)
    {
      assert LinkAt(before, chain, i);
    }
  }

  lemma SafeCoreKeepsInv(cfg: Config, core: Core, w: CoreWrite)
    requires CoreInv(cfg, core) && SafeCore(core, w)
    ensures CoreInv(cfg, ApplyCore(cfg, core, w))
  {
    if w.PutTip? {
      StoredGrows(cfg, core.objects, w.tip);
      if core.manifest.Some? {
        GrowthKeepsChain(core.objects, Stored(cfg, core.objects, w.tip), core.manifest.value.chain);
      }
    }
  }

  lemma SafeWriteKeepsInv(cfg: Config, d: Disk, w: Write)
    requires Inv(cfg, d) && Safe(d, w)
    ensures Inv(cfg, Apply(cfg, d, w))
  {
    if w.CoreFile? {
      SafeCoreKeepsInv(cfg, d.core, w.write);
    } else if w.Audited? {
      AppendKeepsVerified(cfg.auditHash, d.audit, w.event);
    }
  }

  lemma FirstNTail(ws: seq<Write>, n: nat)
    requires n > 0 && ws != []
    ensures FirstN(ws, n) != [] && FirstN(ws, n)[0] == ws[0] && FirstN(ws, n)[1..] == FirstN(ws[1..], n - 1)
  {
  }

  lemma FirstNOfTwo(a: seq<Write>, c: seq<Write>, n: nat)
    ensures FirstN(a + c, n) == if n <= |a| then FirstN(a, n) else a + FirstN(c, n - |a|)
  {
    if n == |a| {
      assert (a + c)[..n] == a;
    }
  }

  /** A run of safe writes keeps the invariant wherever it is cut. */
  lemma {:induction false} SafeKeepsInv(cfg: Config, d: Disk, ws: seq<Write>, n: nat)
    requires Inv(cfg, d) && SafeAll(cfg, d, ws)
    ensures Inv(cfg, ApplyAll(cfg, d, FirstN(ws, n)))
    decreases |ws|
  {
    if n > 0 && ws != [] {
      SafeWriteKeepsInv(cfg, d, ws[0]);
      SafeKeepsInv(cfg, Apply(cfg, d, ws[0]), ws[1..], n - 1);
      FirstNTail(ws, n);
    }
  }

  lemma {:induction false} SafeConcat(cfg: Config, d: Disk, a: seq<Write>, c: seq<Write>)
    requires SafeAll(cfg, d, a) && SafeAll(cfg, ApplyAll(cfg, d, a), c)
    ensures SafeAll(cfg, d, a + c)
    decreases |a|
  {
    if a == [] {
      assert a + c == c;
    } else {
      assert (a + c)[0] == a[0] && (a + c)[1..] == a[1..] + c;
      SafeConcat(cfg, Apply(cfg, d, a[0]), a[1..], c);
    }
  }

  lemma {:induction false} ApplyConcat(cfg: Config, d: Disk, a: seq<Write>, c: seq<Write>)
    ensures ApplyAll(cfg, d, a + c) == ApplyAll(cfg, ApplyAll(cfg, d, a), c)
    decreases |a|
  {
    if a == [] {
      assert a + c == c;
    } else {
      assert (a + c)[0] == a[0] && (a + c)[1..] == a[1..] + c;
      ApplyConcat(cfg, Apply(cfg, d, a[0]), a[1..], c);
    }
  }

  // ---------------------------------------------------------------- writes that leave the core alone

  ghost predicate Quiet(ws: seq<Write>) {
    forall w :: w in ws ==> !w.CoreFile?
  }

  lemma {:induction false} QuietKeepsCore(cfg: Config, d: Disk, ws: seq<Write>)
    requires Quiet(ws)
    ensures ApplyAll(cfg, d, ws).core == d.core
    decreases |ws|
  {
    if ws != [] {
      assert ws[0] in ws;
      QuietKeepsCore(cfg, Apply(cfg, d, ws[0]), ws[1..]);
    }
  }

  ghost predicate NoLabels(ws: seq<Write>) {
    forall w :: w in ws ==> !w.CommitFile? && !w.LabelFile?
  }

  lemma {:induction false} QuietIsSafe(cfg: Config, d: Disk, ws: seq<Write>)
    requires Quiet(ws) && (d.core.released ==> NoLabels(ws))
    ensures SafeAll(cfg, d, ws)
    decreases |ws|
  {
    if ws != [] {
      assert ws[0] in ws;
      QuietIsSafe(cfg, Apply(cfg, d, ws[0]), ws[1..]);
    }
  }

  // ---------------------------------------------------------------- a new tip

  /** A record that names the last tip is not among the tips of the chain already. */
  lemma NewTipIsNew(cfg: Config, objects: map<Digest, TipRecord>, chain: seq<Digest>, record: TipRecord)
    requires OneToOne(cfg.digest) && LinkedChain(objects, chain) && chain != [] && HonestStore(cfg, objects)
    requires record.kind != AttackTip && record.prev == Some(chain[|chain| - 1])
    ensures cfg.digest(record) !in chain
  {
    forall i | 0 <= i < |chain|
      ensures chain[i] != cfg.digest(record)
    {
      assert LinkAt(objects, chain, i);
      assert cfg.digest(objects[chain[i]]) == chain[i];
      assert i > 0 ==> chain[i - 1] != chain[|chain| - 1];
    }
  }

  lemma LinkedAppend(objects: map<Digest, TipRecord>, chain: seq<Digest>, tip: Digest)
    requires LinkedChain(objects, chain) && chain != [] && tip !in chain && tip in objects
    requires objects[tip].kind != AttackTip && objects[tip].prev == Some(chain[|chain| - 1])
    ensures LinkedChain(objects, chain + [tip])
  {
    forall i | 0 <= i < |chain + [tip]|
      ensures LinkAt(objects, chain + [tip], i)
    {
      if i < |chain| {
        assert LinkAt(objects, chain, i);
      }
    }
  }

  lemma ExtendedChain(cfg: Config, objects: map<Digest, TipRecord>, index: Index, record: TipRecord, next: Lifecycle)
    requires OneToOne(cfg.digest) && HonestStore(cfg, objects) && GoodIndex(objects, index)
    requires record.kind != AttackTip && record.prev == Some(index.tip) && Rank(next) >= Rank(Freeze)
    ensures var tip := cfg.digest(record);
      && ChainWith(index.chain, tip) == index.chain + [tip]
      && GoodIndex(Stored(cfg, objects, record), Index(next, tip, record.kind, index.chain + [tip]))
  {
    var tip := cfg.digest(record);
    NewTipIsNew(cfg, objects, index.chain, record);
    StoredGrows(cfg, objects, record);
    GrowthKeepsChain(objects, Stored(cfg, objects, record), index.chain);
    LinkedAppend(Stored(cfg, objects, record), index.chain, tip);
  }

  /** The core after a tip is written. */
  function WithTip(cfg: Config, core: Core, record: TipRecord, next: Lifecycle, prevChain: seq<Digest>): Core {
    var tip := cfg.digest(record);
    core.(objects := Stored(cfg, core.objects, record),
          manifest := Some(Index(next, tip, record.kind, ChainWith(prevChain, tip))))
  }

  lemma TipWritesApply(cfg: Config, d: Disk, record: TipRecord, next: Lifecycle, prevChain: seq<Digest>)
    ensures ApplyAll(cfg, d, TipWrites(cfg, record, next, prevChain)) == d.(core := WithTip(cfg, d.core, record, next, prevChain))
  {
    var ws := TipWrites(cfg, record, next, prevChain);
    assert ws[1..] == [ws[1], ws[2]] && ws[1..][1..] == [ws[2]] && ws[1..][1..][1..] == [];
    var d1 := Apply(cfg, d, ws[0]);
    var d2 := Apply(cfg, d1, ws[1]);
    assert ApplyAll(cfg, d2, [ws[2]]) == Apply(cfg, d2, ws[2]);
    assert ApplyAll(cfg, d1, ws[1..]) == ApplyAll(cfg, d2, [ws[2]]);
  }

  lemma TipWritesSafe(cfg: Config, d: Disk, record: TipRecord, next: Lifecycle, prevChain: seq<Digest>)
    requires SafeCore(d.core.(objects := Stored(cfg, d.core.objects, record)),
                      Manifest(Index(next, cfg.digest(record), record.kind, ChainWith(prevChain, cfg.digest(record)))))
    ensures SafeAll(cfg, d, TipWrites(cfg, record, next, prevChain))
  {
    var ws := TipWrites(cfg, record, next, prevChain);
    assert ws[1..] == [ws[1], ws[2]] && ws[1..][1..] == [ws[2]] && ws[1..][1..][1..] == [];
    var d1 := Apply(cfg, d, ws[0]);
    var d2 := Apply(cfg, d1, ws[1]);
    assert SafeAll(cfg, d2, [ws[2]]);
    assert SafeAll(cfg, d1, ws[1..]);
  }

  /** Moving the lifecycle forward is safe when the markers for it are in place. */
  lemma ForwardIsSafe(cfg: Config, core: Core, record: TipRecord, next: Lifecycle)
    requires OneToOne(cfg.digest) && CoreInv(cfg, core) && core.manifest.Some?
    requires record.kind != AttackTip && record.prev == Some(core.manifest.value.tip)
    requires Rank(next) >= Rank(Freeze) && Rank(next) > CoreRank(core) && core.frozen
    requires Rank(next) >= Rank(LabelRelease) ==> core.released
    ensures var tip, chain := cfg.digest(record), core.manifest.value.chain;
      && ChainWith(chain, tip) == chain + [tip]
      && SafeCore(core.(objects := Stored(cfg, core.objects, record)), Manifest(Index(next, tip, record.kind, chain + [tip])))
  {
    ExtendedChain(cfg, core.objects, core.manifest.value, record, next);
  }
}
