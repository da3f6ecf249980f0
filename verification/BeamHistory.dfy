/**
 The beam of src/verifierlab/attacks/inference.py against its history: a heap that is
 pushed to and pruned in any order still holds, after every pruning, the best
 beam_width entries of everything ever pushed.
 */
module BeamHistory {
  import opened Prelude
  import opened BeamHeap

  // ---------------------------------------------------------------- the best k of a history

  ghost function Insert(e: Entry, s: seq<Entry>): (r: seq<Entry>)
    ensures |r| == |s| + 1
  {
    if s == [] || Below(e, s[0]) then [e] + s else [s[0]] + Insert(e, s[1..])
  }

  /** All entries in ascending order. */
  ghost function Ranked(es: seq<Entry>): (r: seq<Entry>)
    ensures |r| == |es|
  {
    if es == [] then [] else Insert(es[0], Ranked(es[1..]))
  }

  lemma {:induction false} InsertKeeps(e: Entry, s: seq<Entry>)
    ensures multiset(Insert(e, s)) == multiset(s) + multiset{e}
  {
    if s != [] && !Below(e, s[0]) {
      InsertKeeps(e, s[1..]);
      assert s == [s[0]] + s[1..];
    }
  }

  lemma {:induction false} RankedKeeps(es: seq<Entry>)
    ensures multiset(Ranked(es)) == multiset(es)
  {
    if es != [] {
      RankedKeeps(es[1..]);
      InsertKeeps(es[0], Ranked(es[1..]));
      assert es == [es[0]] + es[1..];
    }
  }

  ghost function LastK(k: nat, s: seq<Entry>): seq<Entry> {
    if |s| <= k then s else s[|s| - k..]
  }

  /** Sort everything, keep the last k: what the beam is meant to be. */
  ghost function Best(k: nat, ever: seq<Entry>): seq<Entry> {
    LastK(k, Ranked(ever))
  }

  ghost predicate Ascending(s: seq<Entry>) {
    forall i, j :: 0 <= i < j < |s| ==> Below(s[i], s[j])
  }

  ghost predicate NewTo(s: seq<Entry>, e: Entry) {
    forall x :: x in s ==> x.counter != e.counter
  }

  lemma {:induction false} InsertAscending(e: Entry, s: seq<Entry>)
    requires Ascending(s) && NewTo(s, e)
    ensures Ascending(Insert(e, s))
  {
    var r := Insert(e, s);
    if s == [] || Below(e, s[0]) {
      assert r == [e] + s;
    } else {
      var rest := Insert(e, s[1..]);
      InsertAscending(e, s[1..]);
      InsertKeeps(e, s[1..]);
      forall j | 0 <= j < |rest|
        ensures Below(s[0], rest[j])
      {
        assert rest[j] in multiset(rest);
        assert s[0] in s;
        assert rest[j] == e || rest[j] in s[1..];
      }
    }
  }

  lemma SameMembers(a: seq<Entry>, c: seq<Entry>)
    requires multiset(a) == multiset(c)
    ensures |a| == |c| && forall e :: e in a <==> e in c
  {
    assert |multiset(a)| == |a| && |multiset(c)| == |c|;
    forall e
      ensures e in a <==> e in c
    {
      assert e in a <==> e in multiset(a);
      assert e in c <==> e in multiset(c);
    }
  }

  lemma {:induction false} RankedAscending(es: seq<Entry>)
    requires Distinct(es)
    ensures Ascending(Ranked(es))
  {
    if es != [] {
      RankedAscending(es[1..]);
      RankedKeeps(es[1..]);
      SameMembers(es[1..], Ranked(es[1..]));
      InsertAscending(es[0], Ranked(es[1..]));
    }
  }

  lemma AscendingTail(s: seq<Entry>)
    requires s != [] && Ascending(s)
    ensures Ascending(s[1..]) && multiset(s[1..]) == multiset(s) - multiset{s[0]}
  {
    assert s == [s[0]] + s[1..];
  }

  lemma SameLeast(a: seq<Entry>, c: seq<Entry>)
    requires Ascending(a) && Ascending(c) && a != [] && c != [] && a[0] in c && c[0] in a
    ensures a[0] == c[0]
  {
  }

  /** There is only one ascending order of a set of entries. */
  lemma {:induction false} AscendingUnique(a: seq<Entry>, c: seq<Entry>)
    requires Ascending(a) && Ascending(c) && multiset(a) == multiset(c)
    ensures a == c
  {
    SameMembers(a, c);
    if a != [] {
      SameLeast(a, c);
      AscendingTail(a);
      AscendingTail(c);
      AscendingUnique(a[1..], c[1..]);
      assert a == [a[0]] + a[1..] && c == [c[0]] + c[1..];
    }
  }

  lemma RankedFromMultiset(h: seq<Entry>, s: seq<Entry>)
    requires Distinct(h) && Ascending(s) && multiset(h) == multiset(s)
    ensures Ranked(h) == s
  {
    RankedAscending(h);
    RankedKeeps(h);
    AscendingUnique(Ranked(h), s);
  }

  lemma RankedWith(h: seq<Entry>, e: Entry, after: seq<Entry>)
    requires Distinct(h) && Distinct(after) && NewTo(h, e) && multiset(after) == multiset(h) + multiset{e}
    ensures Ranked(after) == Insert(e, Ranked(h))
  {
    RankedAscending(h);
    RankedKeeps(h);
    SameMembers(h, Ranked(h));
    InsertAscending(e, Ranked(h));
    InsertKeeps(e, Ranked(h));
    RankedFromMultiset(after, Insert(e, Ranked(h)));
  }

  // ---------------------------------------------------------------- one push, one pop

  /** Inserting into the best k, or into everything, has the same best k. */
  lemma {:induction false} BestAbsorbs(k: nat, e: Entry, s: seq<Entry>)
    requires Ascending(s)
    ensures LastK(k, Insert(e, s)) == LastK(k, Insert(e, LastK(k, s)))
  {
    if |s| > k {
      var t := s[1..];
      LastKOfTail(k, s);
      assert s == [s[0]] + t;
      if Below(e, s[0]) {
        BelowAll(k, e, s);
      } else {
        BestAbsorbs(k, e, t);
        assert Insert(e, s) == [s[0]] + Insert(e, t);
        LastKOfTail(k, Insert(e, s));
      }
    }
  }

  lemma LastKOfTail(k: nat, s: seq<Entry>)
    requires |s| > k
    ensures LastK(k, s) == LastK(k, s[1..])
  {
  }

  /** An entry below all the others is never among the best k of more than k. */
  lemma BelowAll(k: nat, e: Entry, s: seq<Entry>)
    requires Ascending(s) && |s| > k && Below(e, s[0])
    ensures LastK(k, Insert(e, s)) == LastK(k, Insert(e, LastK(k, s)))
  {
    var kept := LastK(k, s);
    assert Insert(e, s) == [e] + s;
    assert kept == [] || Below(e, kept[0]);
    assert Insert(e, kept) == [e] + kept;
    assert LastK(k, [e] + s) == kept;
    assert LastK(k, [e] + kept) == kept;
  }

  /** The beam and the history agree on the best k. */
  ghost predicate Faithful(k: nat, beam: seq<Entry>, ever: seq<Entry>) {
    LastK(k, Ranked(beam)) == Best(k, ever)
  }

  lemma PushIsFaithful(k: nat, beam: seq<Entry>, ever: seq<Entry>, e: Entry)
    requires Distinct(beam) && Distinct(ever) && Fresh(beam, e) && NewTo(ever, e) && Faithful(k, beam, ever)
    ensures Faithful(k, Push(beam, e), ever + [e])
  {
    RankedAscending(beam);
    RankedAscending(ever);
    PushKeeps(beam, e);
    RankedWith(beam, e, Push(beam, e));
    RankedWith(ever, e, ever + [e]);
    BestAbsorbs(k, e, Ranked(beam));
    BestAbsorbs(k, e, Ranked(ever));
  }

  lemma RankedStartsAtRoot(h: seq<Entry>)
    requires h != [] && IsHeap(h) && Distinct(h)
    ensures Ranked(h) != [] && Ranked(h)[0] == h[0]
  {
    var r := Ranked(h);
    RankedAscending(h);
    RankedKeeps(h);
    SameMembers(h, r);
    assert h[0] in r && r[0] in h;
    var i :| 0 <= i < |h| && h[i] == r[0];
    var j :| 0 <= j < |r| && r[j] == h[0];
    if i > 0 {
      RootIsLeast(h, i);
    }
    assert j > 0 ==> Below(r[0], r[j]);
  }

  lemma RankedPop(h: seq<Entry>)
    requires h != [] && IsHeap(h) && Distinct(h)
    ensures Ranked(Pop(h)) == Ranked(h)[1..]
  {
    RankedStartsAtRoot(h);
    RankedAscending(h);
    RankedKeeps(h);
    AscendingTail(Ranked(h));
    PopKeeps(h);
    RankedFromMultiset(Pop(h), Ranked(h)[1..]);
  }

  lemma PopIsFaithful(k: nat, beam: seq<Entry>, ever: seq<Entry>)
    requires |beam| > k && IsHeap(beam) && Distinct(beam) && Faithful(k, beam, ever)
    ensures Faithful(k, Pop(beam), ever)
  {
    RankedPop(beam);
    LastKOfTail(k, Ranked(beam));
  }

  // ---------------------------------------------------------------- the beam and its counter

  ghost predicate Under(h: seq<Entry>, n: int) {
    forall i :: 0 <= i < |h| ==> h[i].counter < n
  }

  /** The heap list and the next counter. */
  datatype Beam = Beam(heap: seq<Entry>, next: int)

  ghost predicate WellNumbered(b: Beam) {
    Distinct(b.heap) && Under(b.heap, b.next)
  }

  datatype Scored = Scored(score: real, action: Action)

  function Named(n: int, c: Scored): Entry {
    Entry(c.score, n, c.action)
  }

  /** heappush(beam, (score, counter, action)); counter += 1. */
  function PushNext(b: Beam, c: Scored): (r: Beam)
    requires WellNumbered(b)
    ensures WellNumbered(r) && r.next == b.next + 1 && |r.heap| == |b.heap| + 1
  {
    UnderPush(b, c);
    Beam(Push(b.heap, Named(b.next, c)), b.next + 1)
  }

  lemma UnderPush(b: Beam, c: Scored)
    requires WellNumbered(b)
    ensures Fresh(b.heap, Named(b.next, c)) && Under(Push(b.heap, Named(b.next, c)), b.next + 1)
  {
    var r := Push(b.heap, Named(b.next, c));
    PushKeeps(b.heap, Named(b.next, c));
    forall i | 0 <= i < |r|
      ensures r[i].counter < b.next + 1
    {
      assert r[i] in multiset(r);
      assert r[i] == Named(b.next, c) || r[i] in b.heap;
    }
  }

  function PushAll(b: Beam, cs: seq<Scored>): (r: Beam)
    requires WellNumbered(b)
    ensures WellNumbered(r) && r.next == b.next + |cs| && |r.heap| == |b.heap| + |cs|
    decreases |cs|
  {
    if cs == [] then b else PushAll(PushNext(b, cs[0]), cs[1..])
  }

  /** while len(beam) > beam_width: heappop(beam), for a width that is not negative. */
  function Prune(k: nat, b: Beam): (r: Beam)
    requires WellNumbered(b)
    ensures WellNumbered(r) && r.next == b.next && |r.heap| == if |b.heap| > k then k else |b.heap|
    decreases |b.heap|
  {
    if |b.heap| > k then
      UnderPop(b);
      Prune(k, b.(heap := Pop(b.heap)))
    else b
  }

  lemma UnderPop(b: Beam)
    requires WellNumbered(b) && b.heap != []
    ensures WellNumbered(b.(heap := Pop(b.heap)))
  {
    var r := Pop(b.heap);
    PopKeeps(b.heap);
    forall i | 0 <= i < |r|
      ensures r[i].counter < b.next
    {
      assert r[i] in multiset(r);
      assert r[i] in b.heap;
    }
  }

  // ---------------------------------------------------------------- the beam against its history

  /** What holds between the beam and everything ever pushed, after any pushes and
      prunings. */
  ghost predicate Tracks(k: nat, b: Beam, ever: seq<Entry>) {
    && WellNumbered(b) && IsHeap(b.heap)
    && Distinct(ever) && Under(ever, b.next)
    && Faithful(k, b.heap, ever)
  }

  /** What a run pushes, entry by entry. */
  ghost function History(n: int, cs: seq<Scored>): seq<Entry>
    decreases |cs|
  {
    if cs == [] then [] else [Named(n, cs[0])] + History(n + 1, cs[1..])
  }

  lemma PushTracks(k: nat, b: Beam, ever: seq<Entry>, c: Scored)
    requires Tracks(k, b, ever)
    ensures Tracks(k, PushNext(b, c), ever + [Named(b.next, c)])
  {
    UnderPush(b, c);
    PushKeepsHeap(b.heap, Named(b.next, c));
    PushIsFaithful(k, b.heap, ever, Named(b.next, c));
  }

  lemma ConcatAssociates<T>(a: seq<T>, c: seq<T>, d: seq<T>)
    ensures a + c + d == a + (c + d)
  {
  }

  lemma {:induction false} PushAllUnfolds(k: nat, b: Beam, ever: seq<Entry>, cs: seq<Scored>)
    requires cs != [] && WellNumbered(b)
    requires Tracks(k, PushAll(PushNext(b, cs[0]), cs[1..]),
                    ever + [Named(b.next, cs[0])] + History(b.next + 1, cs[1..]))
    ensures Tracks(k, PushAll(b, cs), ever + History(b.next, cs))
  {
    ConcatAssociates(ever, [Named(b.next, cs[0])], History(b.next + 1, cs[1..]));
  }

  lemma {:induction false} PushAllTracks(k: nat, b: Beam, ever: seq<Entry>, cs: seq<Scored>)
    requires Tracks(k, b, ever)
    ensures Tracks(k, PushAll(b, cs), ever + History(b.next, cs))
    decreases |cs|
  {
    if cs == [] {
      assert ever + [] == ever;
    } else {
      PushTracks(k, b, ever, cs[0]);
      PushAllTracks(k, PushNext(b, cs[0]), ever + [Named(b.next, cs[0])], cs[1..]);
      PushAllUnfolds(k, b, ever, cs);
    }
  }

  lemma PopTracks(k: nat, b: Beam, ever: seq<Entry>)
    requires Tracks(k, b, ever) && |b.heap| > k
    ensures Tracks(k, b.(heap := Pop(b.heap)), ever)
  {
    UnderPop(b);
    PopKeepsHeap(b.heap);
    PopIsFaithful(k, b.heap, ever);
  }

  lemma {:induction false} PruneTracks(k: nat, b: Beam, ever: seq<Entry>)
    requires Tracks(k, b, ever)
    ensures Tracks(k, Prune(k, b), ever)
    decreases |b.heap|
  {
    if |b.heap| > k {
      PopTracks(k, b, ever);
      PruneTracks(k, b.(heap := Pop(b.heap)), ever);
    }
  }

  /** A beam no larger than its width is the best of its history. */
  lemma SmallBeamIsBest(k: nat, b: Beam, ever: seq<Entry>)
    requires Tracks(k, b, ever) && |b.heap| <= k
    ensures Ranked(b.heap) == Best(k, ever)
  {
  }

  // ---------------------------------------------------------------- whole runs

  function Flatten(batches: seq<seq<Scored>>): seq<Scored> {
    if batches == [] then [] else batches[0] + Flatten(batches[1..])
  }

  /** One round: push a batch, prune. */
  function Round(k: nat, b: Beam, cs: seq<Scored>): (r: Beam)
    requires WellNumbered(b)
    ensures WellNumbered(r) && r.next == b.next + |cs| && |r.heap| <= k
  {
    Prune(k, PushAll(b, cs))
  }

  function Learn(k: nat, b: Beam, batches: seq<seq<Scored>>): (r: Beam)
    requires WellNumbered(b)
    ensures WellNumbered(r)
    ensures batches != [] ==> |r.heap| <= k
    decreases |batches|
  {
    if batches == [] then b else Learn(k, Round(k, b, batches[0]), batches[1..])
  }

  lemma RoundTracks(k: nat, b: Beam, ever: seq<Entry>, cs: seq<Scored>)
    requires Tracks(k, b, ever)
    ensures Tracks(k, Round(k, b, cs), ever + History(b.next, cs))
  {
    PushAllTracks(k, b, ever, cs);
    PruneTracks(k, PushAll(b, cs), ever + History(b.next, cs));
  }

  lemma {:induction false} HistorySplits(n: int, a: seq<Scored>, c: seq<Scored>)
    ensures History(n, a + c) == History(n, a) + History(n + |a|, c)
    decreases |a|
  {
    if a == [] {
      assert a + c == c;
    } else {
      assert (a + c)[1..] == a[1..] + c;
      HistorySplits(n + 1, a[1..], c);
    }
  }

  lemma {:induction false} LearnUnfolds(k: nat, b: Beam, ever: seq<Entry>, batches: seq<seq<Scored>>)
    requires batches != [] && WellNumbered(b)
    requires Tracks(k, Learn(k, Round(k, b, batches[0]), batches[1..]),
                    ever + History(b.next, batches[0]) + History(b.next + |batches[0]|, Flatten(batches[1..])))
    ensures Tracks(k, Learn(k, b, batches), ever + History(b.next, Flatten(batches)))
  {
    var first, others := History(b.next, batches[0]), History(b.next + |batches[0]|, Flatten(batches[1..]));
    HistorySplits(b.next, batches[0], Flatten(batches[1..]));
    ConcatAssociates(ever, first, others);
  }

  lemma {:induction false} LearnTracks(k: nat, b: Beam, ever: seq<Entry>, batches: seq<seq<Scored>>)
    requires Tracks(k, b, ever)
    ensures Tracks(k, Learn(k, b, batches), ever + History(b.next, Flatten(batches)))
    decreases |batches|
  {
    if batches == [] {
      assert ever + [] == ever;
    } else {
      RoundTracks(k, b, ever, batches[0]);
      LearnTracks(k, Round(k, b, batches[0]), ever + History(b.next, batches[0]), batches[1..]);
      LearnUnfolds(k, b, ever, batches);
    }
  }

  /** After any run the beam is a heap of exactly the best k of the whole history. */
  lemma LearnKeepsBest(k: nat, b: Beam, ever: seq<Entry>, batches: seq<seq<Scored>>)
    requires Tracks(k, b, ever) && batches != []
    ensures IsHeap(Learn(k, b, batches).heap)
    ensures Ranked(Learn(k, b, batches).heap) == Best(k, ever + History(b.next, Flatten(batches)))
  {
    LearnTracks(k, b, ever, batches);
    SmallBeamIsBest(k, Learn(k, b, batches), ever + History(b.next, Flatten(batches)));
  }

  /** How the history was cut into batches does not matter to what is kept. */
  lemma BatchingIrrelevant(k: nat, b: Beam, a: seq<seq<Scored>>, c: seq<seq<Scored>>)
    requires WellNumbered(b) && IsHeap(b.heap) && a != [] && c != [] && Flatten(a) == Flatten(c)
    ensures multiset(Learn(k, b, a).heap) == multiset(Learn(k, b, c).heap)
  {
    LearnKeepsBest(k, b, b.heap, a);
    LearnKeepsBest(k, b, b.heap, c);
    RankedKeeps(Learn(k, b, a).heap);
    RankedKeeps(Learn(k, b, c).heap);
  }

  /** An entry left out of the beam is below every entry in it. */
  lemma DroppedAreBelow(k: nat, b: Beam, ever: seq<Entry>, kept: Entry, dropped: Entry)
    requires Tracks(k, b, ever) && |b.heap| <= k && kept in b.heap && dropped in ever && dropped !in b.heap
    ensures |b.heap| == k && Below(dropped, kept)
  {
    var r := Ranked(ever);
    SmallBeamIsBest(k, b, ever);
    RankedKeeps(b.heap);
    RankedKeeps(ever);
    SameMembers(b.heap, Ranked(b.heap));
    SameMembers(ever, r);
    RankedAscending(ever);
    assert kept in LastK(k, r) && dropped in r && dropped !in LastK(k, r);
    var i :| 0 <= i < |r| && r[i] == dropped;
    var j :| 0 <= j < |LastK(k, r)| && LastK(k, r)[j] == kept;
    assert |r| > k;
    assert r[|r| - k + j] == kept;
    OutsideLastK(k, r, i);
  }

  lemma OutsideLastK(k: nat, s: seq<Entry>, i: nat)
    requires |s| > k && i < |s| && s[i] !in LastK(k, s)
    ensures i < |s| - k
  {
    assert forall m :: 0 <= m < k ==> LastK(k, s)[m] == s[|s| - k + m];
    assert forall m :: |s| - k <= m < |s| ==> s[m] == LastK(k, s)[m - (|s| - k)];
  }
}
