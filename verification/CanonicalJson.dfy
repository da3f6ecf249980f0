/**
 canonicalize of src/verifierlab/artifacts/canonical.py: which Python values have a
 canonical JSON structure, which error the others raise, and that the structure
 depends on the value only, not on the order its dictionaries were filled in.
 */
module CanonicalJson {
  import opened Prelude
  import opened Utf8
  import opened JsonNumbers

  datatype PyKey = StrKey(text: Text) | OtherKey(shown: Text)

  datatype Entry = Entry(key: PyKey, value: PyValue)

  /** The Python values that can reach canonicalize. A dict is its entries in
      insertion order; `PyOther` is any type that JSON does not have. */
  datatype PyValue =
    | PyNone
    | PyBool(b: bool)
    | PyInt(i: int)
    | PyFloat(f: FiniteFloat)
    | PyNotFinite
    | PyStr(text: Text)
    | PyList(items: seq<PyValue>)
    | PyTuple(items: seq<PyValue>)
    | PyDict(entries: seq<Entry>)
    | PyOther(typeName: string)

  datatype Member = Member(key: Text, value: Value)

  /** JSON structures; an object keeps its members in order. */
  datatype Value =
    | Null
    | Bool(b: bool)
    | Int(i: int)
    | Float(f: FiniteFloat)
    | Str(text: Text)
    | Array(items: seq<Value>)
    | Object(members: seq<Member>)

  datatype Error = NonFiniteFloat | KeyNotStr | UnsupportedType | Surrogate

  // ---------------------------------------------------------------- string order

  /** Python's order on str: by code point. */
  predicate TextLess(a: Text, c: Text) {
    c != [] && (a == [] || a[0] < c[0] || (a[0] == c[0] && TextLess(a[1..], c[1..])))
  }

  lemma {:induction false} TextLessTotal(a: Text, c: Text)
    ensures TextLess(a, c) || TextLess(c, a) || a == c
    ensures !(TextLess(a, c) && TextLess(c, a))
    ensures !TextLess(a, a)
  {
    if a != [] {
      TextLessTotal(a[1..], a[1..]);
      if c != [] && a[0] == c[0] {
        TextLessTotal(a[1..], c[1..]);
        if a[1..] == c[1..] {
          assert a == [a[0]] + a[1..] && c == [c[0]] + c[1..];
        }
      }
    }
  }

  lemma {:induction false} TextLessTransitive(a: Text, c: Text, d: Text)
    requires TextLess(a, c) && TextLess(c, d)
    ensures TextLess(a, d)
  {
    if a != [] && a[0] == c[0] && c[0] == d[0] {
      TextLessTransitive(a[1..], c[1..], d[1..]);
    }
  }

  // ---------------------------------------------------------------- sorting

  function KeyText(k: PyKey): Text {
    match k case StrKey(t) => t case OtherKey(t) => t
  }

  /** sorted(..., key=str): stable, by the text of the key. */
  function SortEntries(es: seq<Entry>): (r: seq<Entry>)
    ensures multiset(r) == multiset(es)
  {
    if es == [] then [] else assert es == [es[0]] + es[1..]; InsertEntry(es[0], SortEntries(es[1..]))
  }

  function InsertEntry(e: Entry, es: seq<Entry>): (r: seq<Entry>)
    ensures multiset(r) == multiset(es) + multiset{e}
  {
    if es == [] || !TextLess(KeyText(es[0].key), KeyText(e.key)) then [e] + es
    else assert es == [es[0]] + es[1..]; [es[0]] + InsertEntry(e, es[1..])
  }

  ghost predicate Sorted(es: seq<Entry>) {
    forall i, j :: 0 <= i < j < |es| ==> !TextLess(KeyText(es[j].key), KeyText(es[i].key))
  }

  lemma {:induction false} InsertKeepsSorted(e: Entry, es: seq<Entry>)
    requires Sorted(es)
    ensures Sorted(InsertEntry(e, es))
  {
    var r := InsertEntry(e, es);
    if es == [] || !TextLess(KeyText(es[0].key), KeyText(e.key)) {
      forall i, j | 0 <= i < j < |r|
        ensures !TextLess(KeyText(r[j].key), KeyText(r[i].key))
      {
        if i == 0 && j > 1 {
          NotLessTransitive(KeyText(e.key), KeyText(es[0].key), KeyText(es[j - 1].key));
        }
      }
    } else {
      var rest := InsertEntry(e, es[1..]);
      InsertKeepsSorted(e, es[1..]);
      forall j | 0 < j < |r|
        ensures !TextLess(KeyText(r[j].key), KeyText(r[0].key))
      {
        assert rest[j - 1] in multiset(rest);
        if rest[j - 1] == e {
          TextLessTotal(KeyText(es[0].key), KeyText(e.key));
        } else {
          assert rest[j - 1] in es[1..];
          var k :| 0 <= k < |es[1..]| && es[1..][k] == rest[j - 1];
          assert es[k + 1] == rest[j - 1];
        }
      }
    }
  }

  lemma NotLessTransitive(a: Text, c: Text, d: Text)
    requires !TextLess(c, a) && !TextLess(d, c)
    ensures !TextLess(d, a)
  {
    TextLessTotal(a, c);
    TextLessTotal(c, d);
    if TextLess(a, c) && TextLess(c, d) {
      TextLessTransitive(a, c, d);
      TextLessTotal(a, d);
    }
  }

  lemma {:induction false} SortIsSorted(es: seq<Entry>)
    ensures Sorted(SortEntries(es))
  {
    if es != [] {
      SortIsSorted(es[1..]);
      InsertKeepsSorted(es[0], SortEntries(es[1..]));
    }
  }

  // ---------------------------------------------------------------- canonicalize

  function Canonicalize(v: PyValue): Result<Value, Error>
    decreases v, 1
  {
    match v
    case PyNone => Ok(Null)
    case PyBool(b) => Ok(Bool(b))
    case PyInt(i) => Ok(Int(i))
    case PyFloat(f) => Ok(Float(f))
    case PyNotFinite => Err(NonFiniteFloat)
    case PyStr(t) => Ok(Str(t))
    case PyList(items) => AsArray(CanonicalItems(v, items))
    case PyTuple(items) => AsArray(CanonicalItems(v, items))
    case PyDict(entries) =>
      assert forall e :: e in SortEntries(entries) ==> e in multiset(entries);
      AsObject(CanonicalEntries(v, SortEntries(entries)))
    case PyOther(_) => Err(UnsupportedType)
  }

  function AsArray(items: Result<seq<Value>, Error>): Result<Value, Error> {
    match items case Ok(vs) => Ok(Array(vs)) case Err(e) => Err(e)
  }

  function AsObject(members: Result<seq<Member>, Error>): Result<Value, Error> {
    match members case Ok(ms) => Ok(Object(ms)) case Err(e) => Err(e)
  }

  function CanonicalItems(ghost parent: PyValue, items: seq<PyValue>): (r: Result<seq<Value>, Error>)
    requires parent.PyList? || parent.PyTuple?
    requires forall w :: w in items ==> w in parent.items
    ensures r.Ok? ==> |r.value| == |items|
    decreases parent, 0, |items|
  {
    if items == [] then Ok([])
    else
      assert items[0] in items;
      match Canonicalize(items[0])
      case Err(e) => Err(e)
      case Ok(first) =>
        match CanonicalItems(parent, items[1..])
        case Err(e) => Err(e)
        case Ok(rest) => Ok([first] + rest)
  }

  /** The loop over the sorted keys: the first bad key or bad value raises. */
  function CanonicalEntries(ghost parent: PyValue, entries: seq<Entry>): (r: Result<seq<Member>, Error>)
    requires parent.PyDict? && forall e :: e in entries ==> e in parent.entries
    ensures r.Ok? ==> |r.value| == |entries|
    decreases parent, 0, |entries|
  {
    if entries == [] then Ok([])
    else if entries[0].key.OtherKey? then Err(KeyNotStr)
    else
      assert entries[0] in entries;
      match Canonicalize(entries[0].value)
      case Err(e) => Err(e)
      case Ok(first) =>
        match CanonicalEntries(parent, entries[1..])
        case Err(e) => Err(e)
        case Ok(rest) => Ok([Member(entries[0].key.text, first)] + rest)
  }

  // ---------------------------------------------------------------- what it returns

  /** Structures with every object's keys strictly increasing. */
  ghost predicate IsCanonical(v: Value)
    decreases v
  {
    match v
    case Array(items) => forall w :: w in items ==> IsCanonical(w)
    case Object(members) =>
      && KeysClimb(members)
      && (forall m :: m in members ==> IsCanonical(m.value))
    case _ => true
  }

  ghost predicate KeysClimb(members: seq<Member>) {
    forall i, j :: 0 <= i < j < |members| ==> TextLess(members[i].key, members[j].key)
  }

  /** A dict never holds the same str key twice. */
  ghost predicate IsPython(v: PyValue)
    decreases v
  {
    match v
    case PyList(items) => forall w :: w in items ==> IsPython(w)
    case PyTuple(items) => forall w :: w in items ==> IsPython(w)
    case PyDict(entries) => DistinctKeys(entries) && forall e :: e in entries ==> IsPython(e.value)
    case _ => true
  }

  ghost predicate DistinctKeys(entries: seq<Entry>) {
    forall i, j :: 0 <= i < j < |entries| ==>
      entries[i].key.OtherKey? || entries[j].key.OtherKey? || entries[i].key != entries[j].key
  }

  ghost predicate KeyFree(es: seq<Entry>, k: PyKey) {
    forall e :: e in es ==> e.key != k
  }

  lemma {:induction false} InsertKeepsDistinct(e: Entry, es: seq<Entry>)
    requires DistinctKeys(es) && (e.key.OtherKey? || KeyFree(es, e.key))
    ensures DistinctKeys(InsertEntry(e, es))
  {
    var r := InsertEntry(e, es);
    if es == [] || !TextLess(KeyText(es[0].key), KeyText(e.key)) {
      assert r == [e] + es;
    } else {
      var rest := InsertEntry(e, es[1..]);
      assert forall x :: x in es[1..] ==> x in es;
      InsertKeepsDistinct(e, es[1..]);
      forall j | 0 <= j < |rest|
        ensures es[0].key.OtherKey? || rest[j].key != es[0].key
      {
        assert rest[j] in multiset(rest);
        assert es[0] in es;
        HeadKeyFree(es);
      }
    }
  }

  lemma HeadKeyFree(es: seq<Entry>)
    requires es != [] && DistinctKeys(es)
    ensures es[0].key.OtherKey? || KeyFree(es[1..], es[0].key)
  {
    forall e | e in es[1..]
      ensures es[0].key.OtherKey? || e.key != es[0].key
    {
      var k :| 0 <= k < |es[1..]| && es[1..][k] == e;
      assert es[k + 1] == e;
    }
  }

  /** Sorting a dict's entries never brings a key in twice. */
  lemma {:induction false} SortKeepsDistinct(es: seq<Entry>)
    requires DistinctKeys(es)
    ensures DistinctKeys(SortEntries(es))
  {
    if es != [] {
      HeadKeyFree(es);
      SortKeepsDistinct(es[1..]);
      SortKeepsKeyFree(es[1..], es[0].key);
      InsertKeepsDistinct(es[0], SortEntries(es[1..]));
    }
  }

  lemma SortKeepsKeyFree(es: seq<Entry>, k: PyKey)
    ensures KeyFree(SortEntries(es), k) == KeyFree(es, k)
  {
    SortMembers(es);
  }

  lemma SortMembers(es: seq<Entry>)
    ensures forall e :: e in SortEntries(es) <==> e in es
  {
    forall e
      ensures e in SortEntries(es) <==> e in es
    {
      assert e in SortEntries(es) <==> e in multiset(SortEntries(es));
      assert e in es <==> e in multiset(es);
    }
  }

  lemma {:induction false} ItemsCanonical(parent: PyValue, items: seq<PyValue>)
    requires (parent.PyList? || parent.PyTuple?) && forall w :: w in items ==> w in parent.items
    requires IsPython(parent) && CanonicalItems(parent, items).Ok?
    ensures forall w :: w in CanonicalItems(parent, items).value ==> IsCanonical(w)
    decreases parent, 0, |items|
  {
    if items != [] {
      assert items[0] in items;
      CanonicalizeIsCanonical(items[0]);
      ItemsCanonical(parent, items[1..]);
    }
  }

  lemma {:induction false} EntriesCanonical(parent: PyValue, entries: seq<Entry>)
    requires parent.PyDict? && forall e :: e in entries ==> e in parent.entries
    requires IsPython(parent) && CanonicalEntries(parent, entries).Ok?
    ensures forall m :: m in CanonicalEntries(parent, entries).value ==> IsCanonical(m.value)
    decreases parent, 0, |entries|
  {
    if entries != [] {
      assert entries[0] in entries;
      CanonicalizeIsCanonical(entries[0].value);
      EntriesCanonical(parent, entries[1..]);
    }
  }

  /** On success the members are the entries, key for key. */
  lemma {:induction false} EntriesKeys(parent: PyValue, entries: seq<Entry>)
    requires parent.PyDict? && forall e :: e in entries ==> e in parent.entries
    requires CanonicalEntries(parent, entries).Ok?
    ensures var ms := CanonicalEntries(parent, entries).value;
      forall i :: 0 <= i < |ms| ==> entries[i].key == StrKey(ms[i].key)
    decreases |entries|
  {
    if entries != [] {
      assert entries[0] in entries;
      EntriesKeys(parent, entries[1..]);
    }
  }

  lemma SortedDistinctIsStrict(es: seq<Entry>, ms: seq<Member>)
    requires Sorted(es) && DistinctKeys(es) && |es| == |ms|
    requires forall i :: 0 <= i < |ms| ==> es[i].key == StrKey(ms[i].key)
    ensures KeysClimb(ms)
  {
    forall i, j | 0 <= i < j < |ms|
      ensures TextLess(ms[i].key, ms[j].key)
    {
      TextLessTotal(ms[i].key, ms[j].key);
      assert es[i].key == StrKey(ms[i].key) && es[j].key == StrKey(ms[j].key);
    }
  }

  /** canonicalize returns strictly increasing keys at every level. */
  lemma {:induction false} CanonicalizeIsCanonical(v: PyValue)
    requires IsPython(v) && Canonicalize(v).Ok?
    ensures IsCanonical(Canonicalize(v).value)
    decreases v, 1
  {
    match v
    case PyList(items) => ItemsCanonical(v, items);
    case PyTuple(items) => ItemsCanonical(v, items);
    case PyDict(entries) =>
      var sorted := SortEntries(entries);
      SortMembers(entries);
      EntriesCanonical(v, sorted);
      EntriesKeys(v, sorted);
      SortIsSorted(entries);
      SortKeepsDistinct(entries);
      SortedDistinctIsStrict(sorted, CanonicalEntries(v, sorted).value);
    case _ =>
  }

  // ---------------------------------------------------------------- insertion order

  /** Equal up to list against tuple and the order of dict entries, at every depth. */
  ghost predicate SameValue(v: PyValue, w: PyValue)
    decreases v
  {
    match v
    case PyList(items) =>
      (w.PyList? || w.PyTuple?) && |items| == |w.items| && forall i :: 0 <= i < |items| ==> SameValue(items[i], w.items[i])
    case PyTuple(items) =>
      (w.PyList? || w.PyTuple?) && |items| == |w.items| && forall i :: 0 <= i < |items| ==> SameValue(items[i], w.items[i])
    case PyDict(entries) =>
      && w.PyDict? && KeysWithin(w.entries, entries)
      && forall e :: e in entries ==> exists f :: f in w.entries && e.key == f.key && SameValue(e.value, f.value)
    case _ => v == w
  }

  ghost predicate HasKey(es: seq<Entry>, k: PyKey) {
    exists e :: e in es && e.key == k
  }

  ghost predicate KeysWithin(es: seq<Entry>, fs: seq<Entry>) {
    forall k :: HasKey(es, k) ==> HasKey(fs, k)
  }

  ghost predicate AllStr(es: seq<Entry>) {
    forall e :: e in es ==> e.key.StrKey?
  }

  ghost predicate StrKeyed(v: PyValue)
    decreases v
  {
    match v
    case PyList(items) => forall w :: w in items ==> StrKeyed(w)
    case PyTuple(items) => forall w :: w in items ==> StrKeyed(w)
    case PyDict(entries) => AllStr(entries) && forall e :: e in entries ==> StrKeyed(e.value)
    case _ => true
  }

  ghost predicate StrictlySorted(es: seq<Entry>) {
    forall i, j :: 0 <= i < j < |es| ==> TextLess(KeyText(es[i].key), KeyText(es[j].key))
  }

  lemma SortStrictly(es: seq<Entry>)
    requires DistinctKeys(es) && AllStr(es)
    ensures StrictlySorted(SortEntries(es)) && AllStr(SortEntries(es))
  {
    var r := SortEntries(es);
    SortMembers(es);
    SortIsSorted(es);
    SortKeepsDistinct(es);
    forall i, j | 0 <= i < j < |r|
      ensures TextLess(KeyText(r[i].key), KeyText(r[j].key))
    {
      assert r[i] in r && r[j] in r;
      TextLessTotal(KeyText(r[i].key), KeyText(r[j].key));
    }
  }

  /** The least key of one list is no greater than the least key of a list it covers. */
  lemma HeadNotAbove(es: seq<Entry>, fs: seq<Entry>)
    requires StrictlySorted(es) && es != [] && fs != [] && KeysWithin(fs, es)
    ensures !TextLess(KeyText(fs[0].key), KeyText(es[0].key))
  {
    assert fs[0] in fs;
    assert HasKey(fs, fs[0].key);
    var e :| e in es && e.key == fs[0].key;
    var j :| 0 <= j < |es| && es[j] == e;
    TextLessTotal(KeyText(es[0].key), KeyText(es[j].key));
  }

  lemma TailWithin(es: seq<Entry>, fs: seq<Entry>)
    requires StrictlySorted(es) && es != [] && fs != [] && KeysWithin(es, fs) && es[0].key == fs[0].key
    ensures KeysWithin(es[1..], fs[1..])
  {
    forall k | HasKey(es[1..], k)
      ensures HasKey(fs[1..], k)
    {
      var e :| e in es[1..] && e.key == k;
      var i :| 0 <= i < |es[1..]| && es[1..][i] == e;
      assert es[i + 1] == e && e in es;
      assert HasKey(es, k);
      var f :| f in fs && f.key == k;
      TextLessTotal(KeyText(es[0].key), KeyText(es[i + 1].key));
      var j :| 0 <= j < |fs| && fs[j] == f;
      assert fs[1..][j - 1] == f;
    }
  }

  lemma HeadsAgree(es: seq<Entry>, fs: seq<Entry>)
    requires StrictlySorted(es) && StrictlySorted(fs) && AllStr(es) && AllStr(fs) && es != [] && fs != []
    requires KeysWithin(es, fs) && KeysWithin(fs, es)
    ensures es[0].key == fs[0].key
  {
    HeadNotAbove(es, fs);
    HeadNotAbove(fs, es);
    TextLessTotal(KeyText(es[0].key), KeyText(fs[0].key));
    assert es[0] in es && fs[0] in fs;
  }

  lemma SomethingToMatch(es: seq<Entry>, fs: seq<Entry>)
    requires KeysWithin(es, fs) && es != []
    ensures fs != []
  {
    assert es[0] in es;
    assert HasKey(es, es[0].key);
  }

  ghost predicate SameKeys(es: seq<Entry>, fs: seq<Entry>) {
    |es| == |fs| && forall i :: 0 <= i < |es| ==> es[i].key == fs[i].key
  }

  lemma SameKeysCons(es: seq<Entry>, fs: seq<Entry>)
    requires es != [] && fs != [] && es[0].key == fs[0].key && SameKeys(es[1..], fs[1..])
    ensures SameKeys(es, fs)
  {
    assert es == [es[0]] + es[1..] && fs == [fs[0]] + fs[1..];
  }

  /** Two strictly sorted lists with the same keys have them in the same places. */
  lemma {:induction false} SortedKeysAgree(es: seq<Entry>, fs: seq<Entry>)
    requires StrictlySorted(es) && StrictlySorted(fs) && AllStr(es) && AllStr(fs)
    requires KeysWithin(es, fs) && KeysWithin(fs, es)
    ensures SameKeys(es, fs)
  {
    if fs != [] {
      SomethingToMatch(fs, es);
    }
    if es != [] {
      SomethingToMatch(es, fs);
      HeadsAgree(es, fs);
      TailWithin(es, fs);
      TailWithin(fs, es);
      TailStays(es);
      TailStays(fs);
      SortedKeysAgree(es[1..], fs[1..]);
      SameKeysCons(es, fs);
    }
  }

  lemma TailStays(es: seq<Entry>)
    requires StrictlySorted(es) && AllStr(es) && es != []
    ensures StrictlySorted(es[1..]) && AllStr(es[1..])
  {
    assert forall e :: e in es[1..] ==> e in es;
  }

  /** Entry by entry the same, in one order. */
  ghost predicate Aligned(es: seq<Entry>, fs: seq<Entry>) {
    |es| == |fs| && forall i :: 0 <= i < |es| ==> es[i].key == fs[i].key && SameValue(es[i].value, fs[i].value)
  }

  lemma DistinctKeysMember(es: seq<Entry>, a: Entry, c: Entry)
    requires DistinctKeys(es) && a in es && c in es && a.key.StrKey? && a.key == c.key
    ensures a == c
  {
  }

  ghost predicate Covers(es: seq<Entry>, fs: seq<Entry>) {
    forall e :: e in es ==> exists f :: f in fs && e.key == f.key && SameValue(e.value, f.value)
  }

  lemma CoversKeys(es: seq<Entry>, fs: seq<Entry>)
    requires Covers(es, fs)
    ensures KeysWithin(es, fs)
  {
    forall k | HasKey(es, k)
      ensures HasKey(fs, k)
    {
      var e :| e in es && e.key == k;
      var f :| f in fs && e.key == f.key && SameValue(e.value, f.value);
    }
  }

  lemma CoversAligns(es: seq<Entry>, fs: seq<Entry>)
    requires Covers(es, fs) && SameKeys(es, fs) && DistinctKeys(fs) && AllStr(fs)
    ensures Aligned(es, fs)
  {
    forall i | 0 <= i < |es|
      ensures SameValue(es[i].value, fs[i].value)
    {
      assert es[i] in es && fs[i] in fs;
      var f :| f in fs && es[i].key == f.key && SameValue(es[i].value, f.value);
      DistinctKeysMember(fs, f, fs[i]);
    }
  }

  lemma SortCovers(es: seq<Entry>, fs: seq<Entry>)
    requires Covers(es, fs)
    ensures Covers(SortEntries(es), SortEntries(fs))
  {
    SortMembers(es);
    SortMembers(fs);
    forall e | e in SortEntries(es)
      ensures exists f :: f in SortEntries(fs) && e.key == f.key && SameValue(e.value, f.value)
    {
      var f :| f in fs && e.key == f.key && SameValue(e.value, f.value);
      assert f in SortEntries(fs);
    }
  }

  lemma SortKeepsKeys(es: seq<Entry>)
    ensures forall k :: HasKey(SortEntries(es), k) <==> HasKey(es, k)
  {
    SortMembers(es);
  }

  lemma SortKeysWithin(es: seq<Entry>, fs: seq<Entry>)
    requires KeysWithin(es, fs)
    ensures KeysWithin(SortEntries(es), SortEntries(fs))
  {
    SortKeepsKeys(es);
    SortKeepsKeys(fs);
  }

  /** Sorting two dicts with the same content lines their entries up. */
  lemma SortAligns(es: seq<Entry>, fs: seq<Entry>)
    requires Covers(es, fs) && KeysWithin(fs, es)
    requires DistinctKeys(es) && DistinctKeys(fs) && AllStr(es) && AllStr(fs)
    ensures Aligned(SortEntries(es), SortEntries(fs))
  {
    SortStrictly(es);
    SortStrictly(fs);
    SortCovers(es, fs);
    CoversKeys(SortEntries(es), SortEntries(fs));
    SortKeysWithin(fs, es);
    SortedKeysAgree(SortEntries(es), SortEntries(fs));
    SortKeepsDistinct(fs);
    CoversAligns(SortEntries(es), SortEntries(fs));
  }

  lemma {:induction false} SameItemsAgree(v: PyValue, w: PyValue, k: nat)
    requires (v.PyList? || v.PyTuple?) && (w.PyList? || w.PyTuple?) && k <= |v.items|
    requires SameValue(v, w) && IsPython(v) && IsPython(w) && StrKeyed(v) && StrKeyed(w)
    ensures CanonicalItems(v, v.items[k..]) == CanonicalItems(w, w.items[k..])
    decreases v, 0, |v.items| - k
  {
    if k < |v.items| {
      assert v.items[k] in v.items && w.items[k] in w.items;
      SameValueAgrees(v.items[k], w.items[k]);
      SameItemsAgree(v, w, k + 1);
      ItemsUnfold(v, k);
      ItemsUnfold(w, k);
    }
  }

  lemma ItemsUnfold(v: PyValue, k: nat)
    requires (v.PyList? || v.PyTuple?) && k < |v.items|
    ensures CanonicalItems(v, v.items[k..]) ==
      match Canonicalize(v.items[k])
      case Err(e) => Err(e)
      case Ok(first) =>
        match CanonicalItems(v, v.items[k + 1..])
        case Err(e) => Err(e)
        case Ok(rest) => Ok([first] + rest)
  {
    assert v.items[k..][1..] == v.items[k + 1..];
  }

  lemma {:induction false} AlignedEntriesAgree(v: PyValue, w: PyValue, es: seq<Entry>, fs: seq<Entry>)
    requires v.PyDict? && w.PyDict? && IsPython(v) && IsPython(w) && StrKeyed(v) && StrKeyed(w)
    requires forall e :: e in es ==> e in v.entries
    requires forall f :: f in fs ==> f in w.entries
    requires Aligned(es, fs)
    ensures CanonicalEntries(v, es) == CanonicalEntries(w, fs)
    decreases v, 0, |es|
  {
    if es != [] {
      assert es[0] in es && fs[0] in fs;
      SameValueAgrees(es[0].value, fs[0].value);
      AlignedEntriesAgree(v, w, es[1..], fs[1..]);
    }
  }

  /** Two values with the same content canonicalize alike, whatever order their dicts
      were filled in: the same structure, or the same error. */
  lemma {:induction false} SameValueAgrees(v: PyValue, w: PyValue)
    requires SameValue(v, w) && IsPython(v) && IsPython(w) && StrKeyed(v) && StrKeyed(w)
    ensures Canonicalize(v) == Canonicalize(w)
    decreases v, 1
  {
    match v
    case PyList(items) =>
      SameItemsAgree(v, w, 0);
      assert v.items[0..] == v.items && w.items[0..] == w.items;
    case PyTuple(items) =>
      SameItemsAgree(v, w, 0);
      assert v.items[0..] == v.items && w.items[0..] == w.items;
    case PyDict(entries) =>
      SortMembers(v.entries);
      SortMembers(w.entries);
      SortAligns(v.entries, w.entries);
      AlignedEntriesAgree(v, w, SortEntries(v.entries), SortEntries(w.entries));
    case _ =>
  }

  lemma {:induction false} ItemsStrKeyed(parent: PyValue, items: seq<PyValue>)
    requires (parent.PyList? || parent.PyTuple?) && forall w :: w in items ==> w in parent.items
    requires CanonicalItems(parent, items).Ok?
    ensures forall w :: w in items ==> StrKeyed(w)
    decreases parent, 0, |items|
  {
    if items != [] {
      assert items[0] in items;
      OkMeansStrKeyed(items[0]);
      ItemsStrKeyed(parent, items[1..]);
    }
  }

  lemma {:induction false} EntriesStrKeyed(parent: PyValue, entries: seq<Entry>)
    requires parent.PyDict? && forall e :: e in entries ==> e in parent.entries
    requires CanonicalEntries(parent, entries).Ok?
    ensures forall e :: e in entries ==> e.key.StrKey? && StrKeyed(e.value)
    decreases parent, 0, |entries|
  {
    if entries != [] {
      assert entries[0] in entries;
      OkMeansStrKeyed(entries[0].value);
      EntriesStrKeyed(parent, entries[1..]);
    }
  }

  lemma {:induction false} OkMeansStrKeyed(v: PyValue)
    requires Canonicalize(v).Ok?
    ensures StrKeyed(v)
    decreases v, 1
  {
    match v
    case PyList(items) => ItemsStrKeyed(v, items);
    case PyTuple(items) => ItemsStrKeyed(v, items);
    case PyDict(entries) =>
      SortMembers(entries);
      EntriesStrKeyed(v, SortEntries(entries));
    case _ =>
  }

  /** The entry a covering list has for a key. */
  lemma PartnerOf(es: seq<Entry>, fs: seq<Entry>, f: Entry) returns (e: Entry)
    requires Covers(es, fs) && KeysWithin(fs, es) && DistinctKeys(fs) && AllStr(es) && f in fs
    ensures e in es && e.key == f.key && SameValue(e.value, f.value)
  {
    assert HasKey(fs, f.key);
    e :| e in es && e.key == f.key;
    var g :| g in fs && e.key == g.key && SameValue(e.value, g.value);
    DistinctKeysMember(fs, f, g);
  }

  lemma {:induction false} StrKeyedForward(v: PyValue, w: PyValue)
    requires SameValue(v, w) && IsPython(w) && StrKeyed(v)
    ensures StrKeyed(w)
    decreases v
  {
    if v.PyDict? {
      forall f | f in w.entries
        ensures f.key.StrKey? && StrKeyed(f.value)
      {
        var e := PartnerOf(v.entries, w.entries, f);
        StrKeyedForward(e.value, f.value);
      }
    } else if v.PyList? || v.PyTuple? {
      forall y | y in w.items
        ensures StrKeyed(y)
      {
        var i :| 0 <= i < |w.items| && w.items[i] == y;
        assert v.items[i] in v.items;
        StrKeyedForward(v.items[i], w.items[i]);
      }
    }
  }

  lemma CounterpartOf(es: seq<Entry>, fs: seq<Entry>, e: Entry) returns (f: Entry)
    requires Covers(es, fs) && e in es
    ensures f in fs && e.key == f.key && SameValue(e.value, f.value)
  {
    f :| f in fs && e.key == f.key && SameValue(e.value, f.value);
  }

  lemma {:induction false} StrKeyedBack(v: PyValue, w: PyValue)
    requires SameValue(v, w) && StrKeyed(w)
    ensures StrKeyed(v)
    decreases v
  {
    if v.PyDict? {
      forall e | e in v.entries
        ensures e.key.StrKey? && StrKeyed(e.value)
      {
        var f := CounterpartOf(v.entries, w.entries, e);
        StrKeyedBack(e.value, f.value);
      }
    } else if v.PyList? || v.PyTuple? {
      forall x | x in v.items
        ensures StrKeyed(x)
      {
        var i :| 0 <= i < |v.items| && v.items[i] == x;
        assert w.items[i] in w.items;
        StrKeyedBack(v.items[i], w.items[i]);
      }
    }
  }

  /** The order dicts were filled in never decides whether a value is accepted, nor
      the structure it gets. */
  lemma InsertionOrderIgnored(v: PyValue, w: PyValue)
    requires SameValue(v, w) && IsPython(v) && IsPython(w)
    ensures Canonicalize(v).Ok? || Canonicalize(w).Ok? ==> Canonicalize(v) == Canonicalize(w)
  {
    if Canonicalize(v).Ok? {
      OkMeansStrKeyed(v);
      StrKeyedForward(v, w);
      SameValueAgrees(v, w);
    } else if Canonicalize(w).Ok? {
      OkMeansStrKeyed(w);
      StrKeyedBack(v, w);
      SameValueAgrees(v, w);
    }
  }

  lemma {:induction false} ItemsFromStructure(v: PyValue, w: PyValue, k: nat)
    requires (v.PyList? || v.PyTuple?) && (w.PyList? || w.PyTuple?) && k <= |v.items| && k <= |w.items|
    requires CanonicalItems(v, v.items[k..]).Ok? && CanonicalItems(v, v.items[k..]) == CanonicalItems(w, w.items[k..])
    requires IsPython(v) && IsPython(w)
    ensures |v.items| == |w.items| && forall i :: k <= i < |v.items| ==> SameValue(v.items[i], w.items[i])
    decreases v, 0, |v.items| - k
  {
    if k < |v.items| {
      assert v.items[k] in v.items && w.items[k] in w.items;
      assert v.items[k..][1..] == v.items[k + 1..] && w.items[k..][1..] == w.items[k + 1..];
      SameFirst(CanonicalItems(v, v.items[k..]).value, CanonicalItems(w, w.items[k..]).value);
      SameStructureSameValue(v.items[k], w.items[k]);
      ItemsFromStructure(v, w, k + 1);
    }
  }

  lemma SameFirst<T>(a: seq<T>, c: seq<T>)
    requires a == c
    ensures a != [] ==> a[0] == c[0] && a[1..] == c[1..]
  {
  }

  lemma {:induction false} EntriesFromStructure(v: PyValue, w: PyValue, es: seq<Entry>, fs: seq<Entry>)
    requires v.PyDict? && w.PyDict? && IsPython(v) && IsPython(w)
    requires forall e :: e in es ==> e in v.entries
    requires forall f :: f in fs ==> f in w.entries
    requires CanonicalEntries(v, es).Ok? && CanonicalEntries(v, es) == CanonicalEntries(w, fs)
    ensures Aligned(es, fs)
    decreases v, 0, |es|
  {
    if es != [] {
      assert es[0] in es && fs[0] in fs;
      SameFirst(CanonicalEntries(v, es).value, CanonicalEntries(w, fs).value);
      SameStructureSameValue(es[0].value, fs[0].value);
      EntriesFromStructure(v, w, es[1..], fs[1..]);
    }
  }

  lemma AlignedCovers(es: seq<Entry>, fs: seq<Entry>)
    requires Aligned(SortEntries(es), SortEntries(fs))
    ensures Covers(es, fs)
  {
    var se, sf := SortEntries(es), SortEntries(fs);
    SortMembers(es);
    SortMembers(fs);
    forall e | e in es
      ensures exists f :: f in fs && e.key == f.key && SameValue(e.value, f.value)
    {
      assert e in se;
      var i :| 0 <= i < |se| && se[i] == e;
      assert sf[i] in sf;
    }
  }

  lemma AlignedKeys(es: seq<Entry>, fs: seq<Entry>)
    requires Aligned(SortEntries(es), SortEntries(fs))
    ensures KeysWithin(fs, es)
  {
    var se, sf := SortEntries(es), SortEntries(fs);
    SortMembers(es);
    SortMembers(fs);
    forall k | HasKey(fs, k)
      ensures HasKey(es, k)
    {
      var f :| f in fs && f.key == k;
      assert f in sf;
      var i :| 0 <= i < |sf| && sf[i] == f;
      assert se[i] in se;
    }
  }

  /** canonicalize is injective up to list against tuple and dict order. */
  lemma {:induction false} SameStructureSameValue(v: PyValue, w: PyValue)
    requires IsPython(v) && IsPython(w) && Canonicalize(v).Ok? && Canonicalize(v) == Canonicalize(w)
    ensures SameValue(v, w)
    decreases v, 1
  {
    if v.PyList? || v.PyTuple? {
      assert v.items[0..] == v.items && w.items[0..] == w.items;
      ItemsFromStructure(v, w, 0);
    } else if v.PyDict? {
      SortMembers(v.entries);
      SortMembers(w.entries);
      EntriesFromStructure(v, w, SortEntries(v.entries), SortEntries(w.entries));
      AlignedCovers(v.entries, w.entries);
      AlignedKeys(v.entries, w.entries);
    }
  }

  /** Which error a rejected value raises can depend on that order: a str key and
      another key with the same text tie in the sort. */
  lemma TiedKeysChooseTheError()
    ensures var one, nan := Entry(OtherKey([49]), PyNone), Entry(StrKey([49]), PyNotFinite);
      && SameValue(PyDict([one, nan]), PyDict([nan, one]))
      && Canonicalize(PyDict([one, nan])) == Err(KeyNotStr)
      && Canonicalize(PyDict([nan, one])) == Err(NonFiniteFloat)
  {
    var one, nan := Entry(OtherKey([49]), PyNone), Entry(StrKey([49]), PyNotFinite);
    TiedDict(one, nan);
    TiedDict(nan, one);
    SwappedSame(one, nan);
  }

  lemma TiedDict(a: Entry, c: Entry)
    requires KeyText(a.key) == KeyText(c.key)
    ensures Canonicalize(PyDict([a, c])) == AsObject(CanonicalEntries(PyDict([a, c]), [a, c]))
  {
    TextLessTotal(KeyText(a.key), KeyText(a.key));
    TieStays(a, c);
  }

  lemma SwappedSame(a: Entry, c: Entry)
    requires SameValue(a.value, a.value) && SameValue(c.value, c.value)
    ensures SameValue(PyDict([a, c]), PyDict([c, a]))
  {
    assert a in [c, a] && c in [c, a] && a in [a, c] && c in [a, c];
    assert KeysWithin([c, a], [a, c]) by {
      assert forall e :: e in [c, a] ==> e in [a, c];
    }
  }

  lemma TieStays(a: Entry, c: Entry)
    requires !TextLess(KeyText(c.key), KeyText(a.key))
    ensures SortEntries([a, c]) == [a, c]
  {
    assert SortEntries([c]) == [c];
    assert [a, c][1..] == [c];
  }

  // ---------------------------------------------------------------- back to Python

  /** The Python value json.loads builds from a structure. */
  function AsPy(v: Value): PyValue {
    match v
    case Null => PyNone
    case Bool(b) => PyBool(b)
    case Int(i) => PyInt(i)
    case Float(f) => PyFloat(f)
    case Str(t) => PyStr(t)
    case Array(items) => PyList(seq(|items|, i requires 0 <= i < |items| => AsPy(items[i])))
    case Object(members) =>
      PyDict(seq(|members|, i requires 0 <= i < |members| => Entry(StrKey(members[i].key), AsPy(members[i].value))))
  }

  lemma InsertLeast(e: Entry, es: seq<Entry>)
    requires es != [] ==> TextLess(KeyText(e.key), KeyText(es[0].key))
    ensures InsertEntry(e, es) == [e] + es
  {
    if es != [] {
      TextLessTotal(KeyText(e.key), KeyText(es[0].key));
    }
  }

  lemma {:induction false} SortFixesSorted(es: seq<Entry>)
    requires StrictlySorted(es)
    ensures SortEntries(es) == es
  {
    if es != [] {
      SortFixesSorted(es[1..]);
      InsertLeast(es[0], es[1..]);
      assert es == [es[0]] + es[1..];
    }
  }

  lemma FirstItem(v: PyValue, k: nat)
    requires (v.PyList? || v.PyTuple?) && k < |v.items|
    requires Canonicalize(v.items[k]).Ok? && CanonicalItems(v, v.items[k + 1..]).Ok?
    ensures CanonicalItems(v, v.items[k..]) ==
            Ok([Canonicalize(v.items[k]).value] + CanonicalItems(v, v.items[k + 1..]).value)
  {
    assert v.items[k..][1..] == v.items[k + 1..];
  }

  lemma FirstEntry(v: PyValue, k: nat)
    requires v.PyDict? && k < |v.entries| && v.entries[k].key.StrKey?
    requires Canonicalize(v.entries[k].value).Ok? && CanonicalEntries(v, v.entries[k + 1..]).Ok?
    ensures CanonicalEntries(v, v.entries[k..]) ==
            Ok([Member(v.entries[k].key.text, Canonicalize(v.entries[k].value).value)] +
               CanonicalEntries(v, v.entries[k + 1..]).value)
  {
    assert v.entries[k..][1..] == v.entries[k + 1..];
  }

  lemma {:induction false} ItemsCollect(w: PyValue, vs: seq<Value>, k: nat)
    requires (w.PyList? || w.PyTuple?) && |w.items| == |vs| && k <= |vs|
    requires forall i :: 0 <= i < |vs| ==> Canonicalize(w.items[i]) == Ok(vs[i])
    ensures CanonicalItems(w, w.items[k..]) == Ok(vs[k..])
    decreases |vs| - k
  {
    if k < |vs| {
      ItemsCollect(w, vs, k + 1);
      FirstItem(w, k);
      assert vs[k..] == [vs[k]] + vs[k + 1..];
    } else {
      assert w.items[k..] == [] && vs[k..] == [];
    }
  }

  lemma {:induction false} EntriesCollect(w: PyValue, ms: seq<Member>, k: nat)
    requires w.PyDict? && |w.entries| == |ms| && k <= |ms|
    requires forall i :: 0 <= i < |ms| ==>
      w.entries[i].key == StrKey(ms[i].key) && Canonicalize(w.entries[i].value) == Ok(ms[i].value)
    ensures CanonicalEntries(w, w.entries[k..]) == Ok(ms[k..])
    decreases |ms| - k
  {
    if k < |ms| {
      EntriesCollect(w, ms, k + 1);
      FirstEntry(w, k);
      assert ms[k..] == [ms[k]] + ms[k + 1..];
    } else {
      assert w.entries[k..] == [] && ms[k..] == [];
    }
  }

  lemma DictCollects(w: PyValue, ms: seq<Member>)
    requires w.PyDict? && |w.entries| == |ms| && KeysClimb(ms)
    requires forall i :: 0 <= i < |ms| ==>
      w.entries[i].key == StrKey(ms[i].key) && Canonicalize(w.entries[i].value) == Ok(ms[i].value)
    ensures Canonicalize(w) == Ok(Object(ms))
  {
    EntriesCollect(w, ms, 0);
    KeysClimbSorted(w.entries, ms);
    SortFixesSorted(w.entries);
    assert w.entries[0..] == w.entries && ms[0..] == ms;
  }

  lemma KeysClimbSorted(es: seq<Entry>, ms: seq<Member>)
    requires |es| == |ms| && KeysClimb(ms) && forall i :: 0 <= i < |ms| ==> es[i].key == StrKey(ms[i].key)
    ensures StrictlySorted(es)
  {
  }

  lemma {:induction false} ArrayIsSettled(v: Value)
    requires v.Array? && IsCanonical(v)
    ensures Canonicalize(AsPy(v)) == Ok(v)
    decreases v, 0
  {
    var w := AsPy(v);
    forall i | 0 <= i < |v.items|
      ensures Canonicalize(w.items[i]) == Ok(v.items[i])
    {
      assert v.items[i] in v.items;
      CanonicalIsSettled(v.items[i]);
    }
    ItemsCollect(w, v.items, 0);
    assert w.items[0..] == w.items && v.items[0..] == v.items;
  }

  lemma {:induction false} ObjectIsSettled(v: Value)
    requires v.Object? && IsCanonical(v)
    ensures Canonicalize(AsPy(v)) == Ok(v)
    decreases v, 0
  {
    var w := AsPy(v);
    forall i | 0 <= i < |v.members|
      ensures Canonicalize(w.entries[i].value) == Ok(v.members[i].value)
    {
      assert v.members[i] in v.members;
      CanonicalIsSettled(v.members[i].value);
    }
    DictCollects(w, v.members);
  }

  /** Canonicalizing what was already canonical changes nothing. */
  lemma {:induction false} CanonicalIsSettled(v: Value)
    requires IsCanonical(v)
    ensures Canonicalize(AsPy(v)) == Ok(v)
    decreases v, 1
  {
    match v
    case Array(_) => ArrayIsSettled(v);
    case Object(_) => ObjectIsSettled(v);
    case _ =>
  }
}
