/**
 Which error canonicalize raises, as far as the order dicts were filled in decides it:
 exactly the errors that some order can bring out, at every depth, and the one situation
 in which there is more than one of them.
 */
module CanonicalOrder {
  import opened Prelude
  import opened JsonNumbers
  import opened CanonicalJson

  // ---------------------------------------------------------------- the first offender

  /** An entry that makes the loop over the keys raise. */
  predicate Offends(e: Entry) {
    e.key.OtherKey? || Canonicalize(e.value).Err?
  }

  function Raised(e: Entry): Error
    requires Offends(e)
  {
    if e.key.OtherKey? then KeyNotStr else Canonicalize(e.value).error
  }

  predicate TextBelow(e: Entry, f: Entry) {
    TextLess(KeyText(e.key), KeyText(f.key))
  }

  /** An offender with the least key text of all. */
  ghost predicate Least(es: seq<Entry>, e: Entry) {
    e in es && Offends(e) && forall f :: f in es && Offends(f) ==> !TextBelow(f, e)
  }

  lemma {:induction false} FirstOffender(parent: PyValue, es: seq<Entry>) returns (k: nat)
    requires parent.PyDict? && forall e :: e in es ==> e in parent.entries
    requires CanonicalEntries(parent, es).Err?
    ensures k < |es| && Offends(es[k]) && forall j :: 0 <= j < k ==> !Offends(es[j])
    ensures CanonicalEntries(parent, es).error == Raised(es[k])
    decreases |es|
  {
    if Offends(es[0]) {
      k := 0;
    } else {
      assert forall e :: e in es[1..] ==> e in es;
      k := FirstOffender(parent, es[1..]);
      k := k + 1;
    }
  }

  lemma {:induction false} NoOffender(parent: PyValue, es: seq<Entry>)
    requires parent.PyDict? && forall e :: e in es ==> e in parent.entries
    ensures CanonicalEntries(parent, es).Ok? <==> forall e :: e in es ==> !Offends(e)
    decreases |es|
  {
    if es != [] {
      assert es[0] in es && forall e :: e in es <==> e == es[0] || e in es[1..];
      assert CanonicalEntries(parent, es).Ok? <==> !Offends(es[0]) && CanonicalEntries(parent, es[1..]).Ok?;
      NoOffender(parent, es[1..]);
    }
  }

  /** A dict raises for one of its least offenders. */
  lemma DictRaises(es: seq<Entry>) returns (e: Entry)
    requires Canonicalize(PyDict(es)).Err?
    ensures Least(es, e) && Canonicalize(PyDict(es)) == Err(Raised(e))
  {
    var sorted := SortEntries(es);
    SortMembers(es);
    SortIsSorted(es);
    var k := FirstOffender(PyDict(es), sorted);
    e := sorted[k];
    forall f | f in es && Offends(f)
      ensures !TextBelow(f, e)
    {
      assert f in sorted;
      var j :| 0 <= j < |sorted| && sorted[j] == f;
      TextLessTotal(KeyText(e.key), KeyText(e.key));
    }
  }

  // ---------------------------------------------------------------- putting an entry first

  lemma {:induction false} InsertedFirst(parent: PyValue, e: Entry, sorted: seq<Entry>)
    requires parent.PyDict? && forall f :: f in InsertEntry(e, sorted) ==> f in parent.entries
    requires Offends(e) && forall f :: f in sorted && Offends(f) ==> !TextBelow(f, e)
    ensures CanonicalEntries(parent, InsertEntry(e, sorted)) == Err(Raised(e))
    decreases |sorted|
  {
    if sorted == [] || !TextBelow(sorted[0], e) {
      assert InsertEntry(e, sorted)[0] == e;
    } else {
      assert sorted[0] in sorted && forall f :: f in sorted[1..] ==> f in sorted;
      var rest := InsertEntry(e, sorted[1..]);
      assert InsertEntry(e, sorted) == [sorted[0]] + rest;
      InsertedFirst(parent, e, sorted[1..]);
    }
  }

  /** Filled in first, a least offender is the one that raises. */
  lemma FirstRaises(e: Entry, rest: seq<Entry>)
    requires Offends(e) && forall f :: f in rest && Offends(f) ==> !TextBelow(f, e)
    ensures Canonicalize(PyDict([e] + rest)) == Err(Raised(e))
  {
    var es := [e] + rest;
    assert es[1..] == rest;
    SortMembers(rest);
    SortMembers(es);
    InsertedFirst(PyDict(es), e, SortEntries(rest));
  }

  function Without(es: seq<Entry>, i: nat): seq<Entry>
    requires i < |es|
  {
    es[..i] + es[i + 1..]
  }

  lemma WithoutMembers(es: seq<Entry>, i: nat)
    requires i < |es|
    ensures multiset([es[i]] + Without(es, i)) == multiset(es)
    ensures forall f :: f in es <==> f == es[i] || f in Without(es, i)
  {
    assert es == es[..i] + [es[i]] + es[i + 1..];
    forall f
      ensures f in es <==> f == es[i] || f in Without(es, i)
    {
      assert f in es <==> f in es[..i] + [es[i]] + es[i + 1..];
    }
  }

  // ---------------------------------------------------------------- one dict

  lemma {:induction false} SameAsItself(v: PyValue)
    ensures SameValue(v, v)
    decreases v
  {
    match v
    case PyList(items) =>
      forall i | 0 <= i < |items|
        ensures SameValue(items[i], items[i])
      {
        SameAsItself(items[i]);
      }
    case PyTuple(items) =>
      forall i | 0 <= i < |items|
        ensures SameValue(items[i], items[i])
      {
        SameAsItself(items[i]);
      }
    case PyDict(entries) =>
      forall e | e in entries
        ensures SameValue(e.value, e.value)
      {
        SameAsItself(e.value);
      }
    case _ =>
  }

  lemma SameMembers(es: seq<Entry>, fs: seq<Entry>)
    requires multiset(es) == multiset(fs)
    ensures forall e :: e in es <==> e in fs
  {
    forall e
      ensures e in es <==> e in fs
    {
      assert e in es <==> e in multiset(es);
      assert e in fs <==> e in multiset(fs);
    }
  }

  lemma ReorderedSame(es: seq<Entry>, fs: seq<Entry>)
    requires multiset(es) == multiset(fs)
    ensures SameValue(PyDict(es), PyDict(fs))
  {
    SameMembers(es, fs);
    forall e | e in es
      ensures e in fs && SameValue(e.value, e.value)
    {
      SameAsItself(e.value);
    }
  }

  /** Str keys are still different after reordering. */
  lemma {:induction false} ReorderedDistinct(es: seq<Entry>, fs: seq<Entry>)
    requires DistinctKeys(es) && multiset(es) == multiset(fs)
    ensures DistinctKeys(fs)
  {
    forall i, j | 0 <= i < j < |fs|
      ensures fs[i].key.OtherKey? || fs[j].key.OtherKey? || fs[i].key != fs[j].key
    {
      if fs[i] == fs[j] {
        TwiceIn(fs, i, j);
        TwoPlaces(es, fs[i]);
      } else {
        SameMembers(es, fs);
        assert fs[i] in es && fs[j] in es;
        var k :| 0 <= k < |es| && es[k] == fs[i];
        var m :| 0 <= m < |es| && es[m] == fs[j];
        assert k != m;
      }
    }
  }

  lemma TwiceIn(fs: seq<Entry>, i: nat, j: nat)
    requires i < j < |fs| && fs[i] == fs[j]
    ensures multiset(fs)[fs[i]] >= 2
  {
    assert fs == fs[..i] + [fs[i]] + fs[i + 1..j] + [fs[j]] + fs[j + 1..];
  }

  /** An entry with a str key is in a dict at most once. */
  lemma {:induction false} TwoPlaces(es: seq<Entry>, e: Entry)
    requires DistinctKeys(es) && multiset(es)[e] >= 2
    ensures e.key.OtherKey?
  {
    assert es != [];
    assert es == [es[0]] + es[1..];
    if es[0] == e {
      assert e in multiset(es[1..]);
      var k :| 0 <= k < |es[1..]| && es[1..][k] == e;
      assert es[k + 1] == e;
    } else {
      TwoPlaces(es[1..], e);
    }
  }

  lemma ReorderedIsPython(es: seq<Entry>, fs: seq<Entry>)
    requires IsPython(PyDict(es)) && multiset(es) == multiset(fs)
    ensures IsPython(PyDict(fs))
  {
    ReorderedDistinct(es, fs);
    SameMembers(es, fs);
  }

  /** At the least text that offends there are both a key that is not a str and a str key
      whose own value fails, with another error than that of a bad key. */
  ghost predicate Torn(es: seq<Entry>) {
    exists a, c :: Least(es, a) && Least(es, c) && a.key.OtherKey? && c.key.StrKey? && Raised(c) != KeyNotStr
  }

  lemma TwoLeast(es: seq<Entry>, a: Entry, c: Entry)
    requires DistinctKeys(es) && Least(es, a) && Least(es, c) && Raised(a) != Raised(c)
    ensures Torn(es)
  {
    TextLessTotal(KeyText(a.key), KeyText(c.key));
    assert KeyText(a.key) == KeyText(c.key);
    if a.key.StrKey? && c.key.StrKey? {
      DistinctKeysMember(es, a, c);
      assert false;
    } else if a.key.OtherKey? {
      assert c.key.StrKey?;
    }
  }

  lemma LeastFirst(es: seq<Entry>, e: Entry) returns (fs: seq<Entry>)
    requires Least(es, e)
    ensures multiset(fs) == multiset(es) && Canonicalize(PyDict(fs)) == Err(Raised(e))
  {
    var i :| 0 <= i < |es| && es[i] == e;
    WithoutMembers(es, i);
    FirstRaises(e, Without(es, i));
    fs := [e] + Without(es, i);
  }

  lemma LeastReordered(es: seq<Entry>, fs: seq<Entry>, e: Entry)
    requires multiset(fs) == multiset(es) && Least(fs, e)
    ensures Least(es, e)
  {
    SameMembers(es, fs);
  }

  lemma ReorderedFails(es: seq<Entry>, fs: seq<Entry>)
    requires IsPython(PyDict(es)) && multiset(fs) == multiset(es)
    requires Canonicalize(PyDict(fs)) != Canonicalize(PyDict(es))
    ensures Canonicalize(PyDict(es)).Err? && Canonicalize(PyDict(fs)).Err?
  {
    ReorderedSame(es, fs);
    ReorderedIsPython(es, fs);
    InsertionOrderIgnored(PyDict(es), PyDict(fs));
  }

  lemma ReorderedError(es: seq<Entry>, fs: seq<Entry>)
    requires IsPython(PyDict(es)) && multiset(fs) == multiset(es)
    requires Canonicalize(PyDict(fs)) != Canonicalize(PyDict(es))
    ensures Torn(es)
  {
    ReorderedFails(es, fs);
    var a := DictRaises(es);
    var c := DictRaises(fs);
    LeastReordered(es, fs, c);
    TwoLeast(es, a, c);
  }

  /** Filling one dict in another order changes what canonicalize raises for it exactly
      when it is torn. */
  lemma ReorderingChoosesExactly(es: seq<Entry>)
    requires IsPython(PyDict(es))
    ensures (exists fs :: multiset(fs) == multiset(es) && Canonicalize(PyDict(fs)) != Canonicalize(PyDict(es))) <==> Torn(es)
  {
    if fs :| multiset(fs) == multiset(es) && Canonicalize(PyDict(fs)) != Canonicalize(PyDict(es)) {
      ReorderedError(es, fs);
    }
    if Torn(es) {
      var a, c :| Least(es, a) && Least(es, c) && a.key.OtherKey? && c.key.StrKey? && Raised(c) != KeyNotStr;
      var fs := LeastFirst(es, a);
      var gs := LeastFirst(es, c);
      assert Canonicalize(PyDict(fs)) != Canonicalize(PyDict(gs));
      assert Canonicalize(PyDict(fs)) != Canonicalize(PyDict(es)) || Canonicalize(PyDict(gs)) != Canonicalize(PyDict(es));
    }
  }

  // ---------------------------------------------------------------- every depth

  /** The errors some order of the dicts inside v brings out: that of the first item that
      fails, and that of any least offender. */
  ghost predicate MayRaise(v: PyValue, x: Error)
    decreases v
  {
    match v
    case PyNotFinite => x == NonFiniteFloat
    case PyOther(_) => x == UnsupportedType
    case PyList(items) => exists i :: FirstFailing(items, i) && MayRaise(items[i], x)
    case PyTuple(items) => exists i :: FirstFailing(items, i) && MayRaise(items[i], x)
    case PyDict(entries) => exists e :: e in entries && Least(entries, e) && EntryMayRaise(e, x)
    case _ => false
  }

  ghost predicate EntryMayRaise(e: Entry, x: Error)
    decreases e
  {
    if e.key.OtherKey? then x == KeyNotStr else MayRaise(e.value, x)
  }

  ghost predicate FirstFailing(items: seq<PyValue>, i: int) {
    && 0 <= i < |items| && Canonicalize(items[i]).Err?
    && forall j :: 0 <= j < i ==> Canonicalize(items[j]).Ok?
  }

  lemma {:induction false} ItemsFail(v: PyValue, k: nat, i: nat)
    requires (v.PyList? || v.PyTuple?) && k <= i && FirstFailing(v.items, i)
    ensures CanonicalItems(v, v.items[k..]) == Err(Canonicalize(v.items[i]).error)
    decreases i - k
  {
    assert v.items[k..][0] == v.items[k] && v.items[k..][1..] == v.items[k + 1..];
    if k < i {
      ItemsFail(v, k + 1, i);
    }
  }

  lemma {:induction false} SomeItemFails(v: PyValue, k: nat) returns (i: nat)
    requires (v.PyList? || v.PyTuple?) && k <= |v.items| && CanonicalItems(v, v.items[k..]).Err?
    requires forall j :: 0 <= j < k ==> Canonicalize(v.items[j]).Ok?
    ensures FirstFailing(v.items, i)
    decreases |v.items| - k
  {
    assert v.items[k..] != [];
    assert v.items[k..][0] == v.items[k] && v.items[k..][1..] == v.items[k + 1..];
    if Canonicalize(v.items[k]).Err? {
      i := k;
    } else {
      i := SomeItemFails(v, k + 1);
    }
  }

  /** A list or tuple raises what its first failing item raises. */
  lemma ListRaises(v: PyValue, i: nat)
    requires (v.PyList? || v.PyTuple?) && FirstFailing(v.items, i)
    ensures Canonicalize(v) == Err(Canonicalize(v.items[i]).error)
  {
    ItemsFail(v, 0, i);
    assert v.items[0..] == v.items;
  }

  /** Whatever is raised is an error that may be raised. */
  lemma {:induction false} RaisedMay(v: PyValue)
    requires Canonicalize(v).Err?
    ensures MayRaise(v, Canonicalize(v).error)
    decreases v
  {
    if v.PyList? || v.PyTuple? {
      assert v.items[0..] == v.items;
      var i := SomeItemFails(v, 0);
      ListRaises(v, i);
      RaisedMay(v.items[i]);
    } else if v.PyDict? {
      var e := DictRaises(v.entries);
      if e.key.StrKey? {
        RaisedMay(e.value);
      }
    }
  }

  /** Whether a value is accepted does not depend on order. */
  lemma SameAccepted(v: PyValue, w: PyValue)
    requires SameValue(v, w) && IsPython(v) && IsPython(w)
    ensures Canonicalize(v).Err? <==> Canonicalize(w).Err?
  {
    InsertionOrderIgnored(v, w);
  }

  /** An entry of one dict seen in another with the same content. */
  ghost predicate Counterparts(e: Entry, f: Entry) {
    e.key == f.key && (e.key.StrKey? ==> SameValue(e.value, f.value))
  }

  lemma CounterpartOffends(e: Entry, f: Entry)
    requires Counterparts(e, f) && IsPython(e.value) && IsPython(f.value)
    ensures Offends(e) <==> Offends(f)
  {
    if e.key.StrKey? {
      SameAccepted(e.value, f.value);
    }
  }

  lemma Forth(v: PyValue, w: PyValue, e: Entry) returns (f: Entry)
    requires v.PyDict? && SameValue(v, w) && e in v.entries
    ensures w.PyDict? && f in w.entries && Counterparts(e, f)
  {
    f := CounterpartOf(v.entries, w.entries, e);
  }

  lemma Back(v: PyValue, w: PyValue, f: Entry) returns (e: Entry)
    requires v.PyDict? && SameValue(v, w) && IsPython(w) && f in w.entries
    ensures e in v.entries && Counterparts(e, f)
  {
    assert HasKey(w.entries, f.key);
    assert HasKey(v.entries, f.key);
    e :| e in v.entries && e.key == f.key;
    if f.key.StrKey? {
      var g := CounterpartOf(v.entries, w.entries, e);
      DistinctKeysMember(w.entries, f, g);
    }
  }

  lemma LeastForth(v: PyValue, w: PyValue, e: Entry, f: Entry)
    requires v.PyDict? && SameValue(v, w) && IsPython(v) && IsPython(w)
    requires e in v.entries && f in w.entries && Counterparts(e, f)
    ensures Least(v.entries, e) <==> Least(w.entries, f)
  {
    CounterpartOffends(e, f);
    if Least(v.entries, e) {
      forall g | g in w.entries && Offends(g)
        ensures !TextBelow(g, f)
      {
        var d := Back(v, w, g);
        CounterpartOffends(d, g);
      }
    }
    if Least(w.entries, f) {
      forall d | d in v.entries && Offends(d)
        ensures !TextBelow(d, e)
      {
        var g := Forth(v, w, d);
        CounterpartOffends(d, g);
      }
    }
  }

  lemma SameFirstFailing(v: PyValue, w: PyValue, i: int)
    requires (v.PyList? || v.PyTuple?) && (w.PyList? || w.PyTuple?)
    requires SameValue(v, w) && IsPython(v) && IsPython(w)
    ensures FirstFailing(v.items, i) <==> FirstFailing(w.items, i)
  {
    forall j | 0 <= j < |v.items|
      ensures Canonicalize(v.items[j]).Err? <==> Canonicalize(w.items[j]).Err?
    {
      assert v.items[j] in v.items && w.items[j] in w.items;
      SameAccepted(v.items[j], w.items[j]);
    }
  }

  lemma {:induction false} SameItemsMayRaise(v: PyValue, w: PyValue, x: Error)
    requires (v.PyList? || v.PyTuple?) && (w.PyList? || w.PyTuple?)
    requires SameValue(v, w) && IsPython(v) && IsPython(w)
    ensures MayRaise(v, x) <==> MayRaise(w, x)
    decreases v, 0
  {
    forall i | 0 <= i < |v.items|
      ensures FirstFailing(v.items, i) <==> FirstFailing(w.items, i)
      ensures MayRaise(v.items[i], x) <==> MayRaise(w.items[i], x)
    {
      assert v.items[i] in v.items && w.items[i] in w.items;
      SameFirstFailing(v, w, i);
      SameMayRaise(v.items[i], w.items[i], x);
    }
    ItemCarriesOver(v, w, x);
    ItemCarriesOver(w, v, x);
  }

  lemma ItemCarriesOver(v: PyValue, w: PyValue, x: Error)
    requires (v.PyList? || v.PyTuple?) && (w.PyList? || w.PyTuple?) && |v.items| == |w.items|
    requires forall i :: 0 <= i < |v.items| && FirstFailing(v.items, i) ==> FirstFailing(w.items, i)
    requires forall i :: 0 <= i < |v.items| && MayRaise(v.items[i], x) ==> MayRaise(w.items[i], x)
    ensures MayRaise(v, x) ==> MayRaise(w, x)
  {
    if MayRaise(v, x) {
      var i :| FirstFailing(v.items, i) && MayRaise(v.items[i], x);
      assert FirstFailing(w.items, i) && MayRaise(w.items[i], x);
    }
  }

  lemma {:induction false} DictForth(v: PyValue, w: PyValue, x: Error)
    requires v.PyDict? && SameValue(v, w) && IsPython(v) && IsPython(w) && MayRaise(v, x)
    ensures MayRaise(w, x)
    decreases v, 0
  {
    var e :| e in v.entries && Least(v.entries, e) && EntryMayRaise(e, x);
    var f := Forth(v, w, e);
    LeastForth(v, w, e, f);
    if e.key.StrKey? {
      SameMayRaise(e.value, f.value, x);
    }
    assert EntryMayRaise(f, x);
  }

  lemma {:induction false} DictBack(v: PyValue, w: PyValue, x: Error)
    requires v.PyDict? && SameValue(v, w) && IsPython(v) && IsPython(w) && MayRaise(w, x)
    ensures MayRaise(v, x)
    decreases v, 0
  {
    var f :| f in w.entries && Least(w.entries, f) && EntryMayRaise(f, x);
    var e := Back(v, w, f);
    LeastForth(v, w, e, f);
    if e.key.StrKey? {
      SameMayRaise(e.value, f.value, x);
    }
    assert EntryMayRaise(e, x);
  }

  /** The errors that may be raised are the same for all orders. */
  lemma {:induction false} SameMayRaise(v: PyValue, w: PyValue, x: Error)
    requires SameValue(v, w) && IsPython(v) && IsPython(w)
    ensures MayRaise(v, x) <==> MayRaise(w, x)
    decreases v, 1
  {
    if v.PyList? || v.PyTuple? {
      SameItemsMayRaise(v, w, x);
    } else if v.PyDict? {
      if MayRaise(v, x) {
        DictForth(v, w, x);
      }
      if MayRaise(w, x) {
        DictBack(v, w, x);
      }
    }
  }

  // ---------------------------------------------------------------- bringing an error out

  lemma ItemReplaced(v: PyValue, i: nat, u: PyValue) returns (w: PyValue)
    requires (v.PyList? || v.PyTuple?) && FirstFailing(v.items, i) && IsPython(v)
    requires SameValue(v.items[i], u) && IsPython(u) && Canonicalize(u).Err?
    ensures SameValue(v, w) && IsPython(w) && Canonicalize(w) == Err(Canonicalize(u).error)
  {
    w := PyList(v.items[i := u]);
    forall j | 0 <= j < |v.items|
      ensures SameValue(v.items[j], w.items[j])
    {
      if j != i {
        SameAsItself(v.items[j]);
      }
    }
    forall y | y in w.items
      ensures IsPython(y)
    {
      var j :| 0 <= j < |w.items| && w.items[j] == y;
      assert v.items[j] in v.items;
    }
    ListRaises(w, i);
  }

  /** A least offender with another value of the same content, put first. */
  lemma EntryReplaced(v: PyValue, e: Entry, u: PyValue) returns (w: PyValue)
    requires v.PyDict? && Least(v.entries, e) && IsPython(v)
    requires SameValue(e.value, u) && IsPython(u) && Offends(Entry(e.key, u))
    ensures SameValue(v, w) && IsPython(w) && Canonicalize(w) == Err(Raised(Entry(e.key, u)))
  {
    var es := v.entries;
    var i :| 0 <= i < |es| && es[i] == e;
    var f, rest := Entry(e.key, u), Without(es, i);
    WithoutMembers(es, i);
    w := PyDict([f] + rest);
    ReorderedDistinct(es, [e] + rest);
    ReplacedDistinct(e, f, rest);
    forall g | g in w.entries
      ensures IsPython(g.value)
    {
      assert g == f || g in es;
    }
    ReplacedCovers(es, e, f, rest);
    FirstRaises(f, rest);
  }

  lemma ReplacedDistinct(e: Entry, f: Entry, rest: seq<Entry>)
    requires DistinctKeys([e] + rest) && f.key == e.key
    ensures DistinctKeys([f] + rest)
  {
    forall i, j | 0 <= i < j < |[f] + rest|
      ensures ([f] + rest)[i].key.OtherKey? || ([f] + rest)[j].key.OtherKey? || ([f] + rest)[i].key != ([f] + rest)[j].key
    {
      assert ([f] + rest)[i].key == ([e] + rest)[i].key && ([f] + rest)[j].key == ([e] + rest)[j].key;
    }
  }

  lemma ReplacedCovers(es: seq<Entry>, e: Entry, f: Entry, rest: seq<Entry>)
    requires forall g :: g in es <==> g == e || g in rest
    requires f.key == e.key && SameValue(e.value, f.value)
    ensures SameValue(PyDict(es), PyDict([f] + rest))
  {
    var fs := [f] + rest;
    assert forall g :: g in fs <==> g == f || g in rest;
    forall g | g in es
      ensures exists h :: h in fs && g.key == h.key && SameValue(g.value, h.value)
    {
      if g == e {
        assert f in fs;
      } else {
        SameAsItself(g.value);
        assert g in fs;
      }
    }
    forall k | HasKey(fs, k)
      ensures HasKey(es, k)
    {
      var h :| h in fs && h.key == k;
      assert (if h == f then e else h) in es;
    }
  }

  /** Every error that may be raised is raised in some order. */
  lemma {:induction false} BroughtOut(v: PyValue, x: Error) returns (w: PyValue)
    requires IsPython(v) && MayRaise(v, x)
    ensures SameValue(v, w) && IsPython(w) && Canonicalize(w) == Err(x)
    decreases v
  {
    if v.PyList? || v.PyTuple? {
      var i :| FirstFailing(v.items, i) && MayRaise(v.items[i], x);
      assert v.items[i] in v.items;
      var u := BroughtOut(v.items[i], x);
      w := ItemReplaced(v, i, u);
    } else if v.PyDict? {
      var e :| e in v.entries && Least(v.entries, e) && EntryMayRaise(e, x);
      if e.key.OtherKey? {
        SameAsItself(e.value);
        w := EntryReplaced(v, e, e.value);
      } else {
        var u := BroughtOut(e.value, x);
        w := EntryReplaced(v, e, u);
      }
    } else {
      w := v;
    }
  }

  /** The errors a value can raise, over all orders of all the dicts inside it, are
      exactly those MayRaise names. */
  lemma OrderChoosesExactly(v: PyValue, x: Error)
    requires IsPython(v)
    ensures (exists w :: SameValue(v, w) && IsPython(w) && Canonicalize(w) == Err(x)) <==> MayRaise(v, x)
  {
    if w :| SameValue(v, w) && IsPython(w) && Canonicalize(w) == Err(x) {
      RaisedMay(w);
      SameMayRaise(v, w, x);
    }
    if MayRaise(v, x) {
      var w := BroughtOut(v, x);
    }
  }

  // ---------------------------------------------------------------- when there is no choice

  /** No dict at any depth has a str key with the text of a key that is not a str. */
  ghost predicate TieFree(v: PyValue)
    decreases v
  {
    match v
    case PyList(items) => forall w :: w in items ==> TieFree(w)
    case PyTuple(items) => forall w :: w in items ==> TieFree(w)
    case PyDict(entries) => NoTies(entries) && forall e :: e in entries ==> TieFree(e.value)
    case _ => true
  }

  ghost predicate NoTies(es: seq<Entry>) {
    forall e, f :: e in es && f in es && e.key.OtherKey? && f.key.StrKey? ==> KeyText(e.key) != KeyText(f.key)
  }

  lemma LeastWithoutTies(es: seq<Entry>, e: Entry, f: Entry)
    requires DistinctKeys(es) && NoTies(es) && Least(es, e) && Least(es, f)
    ensures e.key.OtherKey? <==> f.key.OtherKey?
    ensures e.key.StrKey? ==> e == f
  {
    TextLessTotal(KeyText(e.key), KeyText(f.key));
    if e.key.StrKey? && f.key.StrKey? {
      DistinctKeysMember(es, e, f);
    }
  }

  lemma {:induction false} OneErrorWithoutTies(v: PyValue, x: Error, y: Error)
    requires IsPython(v) && TieFree(v) && MayRaise(v, x) && MayRaise(v, y)
    ensures x == y
    decreases v
  {
    if v.PyList? || v.PyTuple? {
      var i :| FirstFailing(v.items, i) && MayRaise(v.items[i], x);
      var j :| FirstFailing(v.items, j) && MayRaise(v.items[j], y);
      assert i == j && v.items[i] in v.items;
      OneErrorWithoutTies(v.items[i], x, y);
    } else if v.PyDict? {
      var e :| e in v.entries && Least(v.entries, e) && EntryMayRaise(e, x);
      var f :| f in v.entries && Least(v.entries, f) && EntryMayRaise(f, y);
      LeastWithoutTies(v.entries, e, f);
      if e.key.StrKey? {
        OneErrorWithoutTies(e.value, x, y);
      }
    }
  }

  /** Without ties the order decides nothing at all: the structure or the error is the
      same, whether or not all keys are str. */
  lemma NoTiesNoChoice(v: PyValue, w: PyValue)
    requires SameValue(v, w) && IsPython(v) && IsPython(w) && TieFree(v)
    ensures Canonicalize(v) == Canonicalize(w)
  {
    InsertionOrderIgnored(v, w);
    if Canonicalize(v).Err? {
      RaisedMay(v);
      RaisedMay(w);
      SameMayRaise(v, w, Canonicalize(w).error);
      OneErrorWithoutTies(v, Canonicalize(v).error, Canonicalize(w).error);
    }
  }
}
