/**
 The content-addressed store of src/verifierlab/artifacts/cas.py as a write-once map
 from SHA-256 names to bytes. The hash is a parameter: where two contents could share
 a name, the theorems name the collision instead of assuming there is none.
 */
module ContentStore {
  import opened Prelude
  import opened Utf8
  import opened JsonNumbers
  import opened CanonicalJson
  import opened JsonText

  type Bytes = seq<Byte>

  predicate IsHex(c: char) {
    '0' <= c <= '9' || 'a' <= c <= 'f'
  }

  /** 64 lower-case hex digits. */
  predicate IsDigest(s: string) {
    |s| == 64 && forall i :: 0 <= i < |s| ==> IsHex(s[i])
  }

  type Digest = s: string | IsDigest(s) witness seq(64, _ => '0')

  type Hash = Bytes -> Digest

  type Objects = map<Digest, Bytes>

  datatype StoreError = BadDigest | NotFound | IntegrityFailure | NotJson

  // ---------------------------------------------------------------- specification

  /** put_bytes: a name that is taken is left alone. */
  function Put(sha: Hash, objects: Objects, data: Bytes): Objects {
    if sha(data) in objects then objects else objects[sha(data) := data]
  }

  function PutAll(sha: Hash, objects: Objects, datas: seq<Bytes>): Objects
    decreases |datas|
  {
    if datas == [] then objects else PutAll(sha, Put(sha, objects, datas[0]), datas[1..])
  }

  /** get_bytes: the content is hashed again before it is handed out. */
  function Fetch(sha: Hash, objects: Objects, digest: string): Result<Bytes, StoreError> {
    if !IsDigest(digest) then Err(BadDigest)
    else if digest !in objects then Err(NotFound)
    else if sha(objects[digest]) != digest then Err(IntegrityFailure)
    else Ok(objects[digest])
  }

  function FetchJson(sha: Hash, objects: Objects, digest: string): Result<Value, StoreError> {
    match Fetch(sha, objects, digest)
    case Err(e) => Err(e)
    case Ok(bytes) =>
      match LoadBytes(bytes)
      case None => Err(NotJson)
      case Some(v) => Ok(v)
  }

  // ---------------------------------------------------------------- laws

  /** Every object hashes to its own name: what puts alone can build. */
  ghost predicate Honest(sha: Hash, objects: Objects) {
    forall d :: d in objects ==> sha(objects[d]) == d
  }

  /** Two different contents under one name. */
  ghost predicate Collide(sha: Hash, a: Bytes, c: Bytes) {
    a != c && sha(a) == sha(c)
  }

  ghost predicate Extends(after: Objects, before: Objects) {
    forall d :: d in before ==> d in after && after[d] == before[d]
  }

  /** Puts never change or remove an object, and keep the store honest. */
  lemma {:induction false} PutsOnlyAdd(sha: Hash, objects: Objects, datas: seq<Bytes>)
    ensures Extends(PutAll(sha, objects, datas), objects)
    ensures Honest(sha, objects) ==> Honest(sha, PutAll(sha, objects, datas))
    decreases |datas|
  {
    if datas != [] {
      PutsOnlyAdd(sha, Put(sha, objects, datas[0]), datas[1..]);
    }
  }

  /** So an answer once given is given for ever, and what is given hashes to its name. */
  lemma FetchIsStable(sha: Hash, objects: Objects, digest: string, datas: seq<Bytes>)
    requires Fetch(sha, objects, digest).Ok?
    ensures Fetch(sha, PutAll(sha, objects, datas), digest) == Fetch(sha, objects, digest)
    ensures IsDigest(digest) && sha(Fetch(sha, objects, digest).value) == digest
  {
    PutsOnlyAdd(sha, objects, datas);
  }

  /** A content just put is the one fetched exactly when its name held nothing else. */
  lemma PutThenFetchExactly(sha: Hash, objects: Objects, data: Bytes)
    ensures Fetch(sha, Put(sha, objects, data), sha(data)) == Ok(data) <==>
            (sha(data) !in objects || objects[sha(data)] == data)
  {
  }

  /** A damaged file under the name is not repaired by putting the content again. */
  lemma PutDoesNotRepair(sha: Hash, objects: Objects, data: Bytes)
    requires sha(data) in objects && sha(objects[sha(data)]) != sha(data)
    ensures Fetch(sha, Put(sha, objects, data), sha(data)) == Err(IntegrityFailure)
  {
  }

  /** In an honest store, after any puts, each content put is fetched as it was, or the
      store holds another content of the same hash. */
  lemma {:induction false} PutAllFetches(sha: Hash, objects: Objects, datas: seq<Bytes>, k: nat)
    requires Honest(sha, objects) && k < |datas|
    ensures var after, data := PutAll(sha, objects, datas), datas[k];
      Fetch(sha, after, sha(data)) == Ok(data) || (sha(data) in after && Collide(sha, after[sha(data)], data))
    decreases |datas|
  {
    if k > 0 {
      PutAllFetches(sha, Put(sha, objects, datas[0]), datas[1..], k - 1);
    } else {
      PutsOnlyAdd(sha, Put(sha, objects, datas[0]), datas[1..]);
    }
  }

  /** Nothing is stored that was not put. */
  lemma {:induction false} OnlyWhatWasPut(sha: Hash, objects: Objects, datas: seq<Bytes>, d: Digest)
    requires d in PutAll(sha, objects, datas) && d !in objects
    ensures PutAll(sha, objects, datas)[d] in datas
    decreases |datas|
  {
    if datas != [] {
      if d in Put(sha, objects, datas[0]) {
        PutsOnlyAdd(sha, Put(sha, objects, datas[0]), datas[1..]);
      } else {
        OnlyWhatWasPut(sha, Put(sha, objects, datas[0]), datas[1..], d);
      }
    }
  }

  /** get_json(put_json(v)) == canonicalize(v), unless another content has the name. */
  lemma JsonRoundTrip(sha: Hash, objects: Objects, v: PyValue)
    requires IsPython(v) && CanonicalDumps(v).Ok?
    ensures var bytes := CanonicalDumps(v).value;
      sha(bytes) !in objects || objects[sha(bytes)] == bytes ==>
        Canonicalize(v).Ok? && FetchJson(sha, Put(sha, objects, bytes), sha(bytes)) == Ok(Canonicalize(v).value)
  {
    DumpsRoundTrip(v);
    PutThenFetchExactly(sha, objects, CanonicalDumps(v).value);
  }

  /** digest_of tells two values apart exactly up to list against tuple and key order,
      unless their encodings are a SHA-256 collision. */
  lemma DigestIdentifies(sha: Hash, v: PyValue, w: PyValue)
    requires IsPython(v) && IsPython(w) && CanonicalDumps(v).Ok? && CanonicalDumps(w).Ok?
    ensures var a, c := CanonicalDumps(v).value, CanonicalDumps(w).value;
      sha(a) == sha(c) <==> SameValue(v, w) || Collide(sha, a, c)
  {
    SameBytesExactly(v, w);
  }

  /** Fetching a JSON object and putting it back gives the same name. */
  lemma DigestIsStable(sha: Hash, objects: Objects, v: PyValue)
    requires IsPython(v) && CanonicalDumps(v).Ok?
    requires Fetch(sha, objects, sha(CanonicalDumps(v).value)) == Ok(CanonicalDumps(v).value)
    ensures var got := FetchJson(sha, objects, sha(CanonicalDumps(v).value));
      got.Ok? && CanonicalDumps(AsPy(got.value)) == CanonicalDumps(v)
  {
    DumpsIsStable(v);
  }

  // ---------------------------------------------------------------- the store

  class ContentAddressedStore {
    const sha: Hash
    var objects: Objects

    constructor (sha: Hash)
      ensures this.sha == sha && objects == map[]
    {
      this.sha := sha;
      objects := map[];
    }

    method Has(digest: string) returns (r: Result<bool, StoreError>)
      ensures r == if IsDigest(digest) then Ok(digest in objects) else Err(BadDigest)
    {
      if !IsDigest(digest) {
        return Err(BadDigest);
      }
      return Ok(digest in objects);
    }

    method PutBytes(data: Bytes) returns (digest: Digest)
      modifies this
      ensures digest == sha(data) && objects == Put(sha, old(objects), data)
    {
      digest := sha(data);
      if digest in objects {
        return;
      }
      objects := objects[digest := data];
    }

    method GetBytes(digest: string) returns (r: Result<Bytes, StoreError>)
      ensures r == Fetch(sha, objects, digest)
      ensures r.Ok? ==> sha(r.value) == digest
    {
      if !IsDigest(digest) {
        return Err(BadDigest);
      }
      if digest !in objects {
        return Err(NotFound);
      }
      var data := objects[digest];
      if sha(data) != digest {
        return Err(IntegrityFailure);
      }
      return Ok(data);
    }

    method PutJson(v: PyValue) returns (r: Result<Digest, Error>)
      modifies this
      ensures CanonicalDumps(v).Err? ==> r == Err(CanonicalDumps(v).error) && objects == old(objects)
      ensures CanonicalDumps(v).Ok? ==>
        r == Ok(sha(CanonicalDumps(v).value)) && objects == Put(sha, old(objects), CanonicalDumps(v).value)
    {
      match CanonicalDumps(v)
      case Err(e) => r := Err(e);
      case Ok(data) =>
        var digest := PutBytes(data);
        r := Ok(digest);
    }

    method GetJson(digest: string) returns (r: Result<Value, StoreError>)
      ensures r == FetchJson(sha, objects, digest)
    {
      var raw := GetBytes(digest);
      match raw
      case Err(e) => r := Err(e);
      case Ok(bytes) =>
        match LoadBytes(bytes)
        case None => r := Err(NotJson);
        case Some(v) => r := Ok(v);
    }
  }
}
