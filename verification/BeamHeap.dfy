/**
 heapq as CPython implements it, on the entries (score, counter, action) of
 src/verifierlab/attacks/inference.py: a binary min-heap kept in a list. Entries are
 ordered by score, then counter; two entries may be compared only when their counters
 differ, which is what keeps tuple comparison away from the action dict.
 */
module BeamHeap {
  import opened Prelude

  /** An action dict, known only by its text: the search never looks inside. */
  type Action = string

  datatype Entry = Entry(score: real, counter: int, action: Action)

  ghost predicate Below(a: Entry, c: Entry) {
    a.score < c.score || (a.score == c.score && a.counter < c.counter)
  }

  /** The tuple comparison a < c. With equal scores and equal counters Python would go
      on to compare the two dicts and raise: the precondition rules that out. */
  predicate Less(a: Entry, c: Entry)
    requires a.counter != c.counter
    ensures Less(a, c) <==> Below(a, c)
    ensures Less(a, c) <==> !Below(c, a)
  {
    if a.score == c.score then a.counter < c.counter else a.score < c.score
  }

  ghost predicate Distinct(h: seq<Entry>) {
    forall i, j :: 0 <= i < j < |h| ==> h[i].counter != h[j].counter
  }

  function Parent(i: nat): nat
    requires i > 0
  {
    (i - 1) / 2
  }

  ghost predicate Edge(h: seq<Entry>, i: nat)
    requires 0 < i < |h|
  {
    Below(h[Parent(i)], h[i])
  }

  /** The heap property: every entry is above its parent. */
  ghost predicate IsHeap(h: seq<Entry>) {
    forall i :: 0 < i < |h| ==> Edge(h, i)
  }

  // ---------------------------------------------------------------- swapping

  function Swap(h: seq<Entry>, i: nat, j: nat): (r: seq<Entry>)
    requires i < |h| && j < |h|
    ensures |r| == |h|
  {
    h[i := h[j]][j := h[i]]
  }

  lemma SwapKeeps(h: seq<Entry>, i: nat, j: nat)
    requires i < j < |h|
    ensures multiset(Swap(h, i, j)) == multiset(h)
  {
  }

  lemma SwapDistinct(h: seq<Entry>, i: nat, j: nat)
    requires i < j < |h| && Distinct(h)
    ensures Distinct(Swap(h, i, j))
  {
  }

  // ---------------------------------------------------------------- moving up

  /** _siftdown(heap, 0, pos): the entry at pos climbs past every larger parent. */
  function Climb(h: seq<Entry>, pos: nat): (r: seq<Entry>)
    requires pos < |h| && Distinct(h)
    ensures |r| == |h| && Distinct(r)
    decreases pos
  {
    if pos > 0 && Less(h[pos], h[Parent(pos)]) then
      SwapDistinct(h, Parent(pos), pos);
      Climb(Swap(h, Parent(pos), pos), Parent(pos))
    else h
  }

  lemma {:induction false} ClimbKeeps(h: seq<Entry>, pos: nat)
    requires pos < |h| && Distinct(h)
    ensures multiset(Climb(h, pos)) == multiset(h)
    decreases pos
  {
    if pos > 0 && Less(h[pos], h[Parent(pos)]) {
      SwapDistinct(h, Parent(pos), pos);
      SwapKeeps(h, Parent(pos), pos);
      ClimbKeeps(Swap(h, Parent(pos), pos), Parent(pos));
    }
  }

  /** A heap but for the entry at pos, which may belong higher up. */
  ghost predicate HeapButUp(h: seq<Entry>, pos: nat) {
    && pos < |h|
    && (forall i :: 0 < i < |h| && i != pos ==> Edge(h, i))
    && (pos > 0 ==> forall i :: 0 < i < |h| && Parent(i) == pos ==> Below(h[Parent(pos)], h[i]))
  }

  lemma SwapUp(h: seq<Entry>, pos: nat)
    requires Distinct(h) && HeapButUp(h, pos) && pos > 0 && Below(h[pos], h[Parent(pos)])
    ensures HeapButUp(Swap(h, Parent(pos), pos), Parent(pos))
  {
    var p := Parent(pos);
    var r := Swap(h, p, pos);
    forall i | 0 < i < |r| && i != p
      ensures Edge(r, i)
    {
      assert i != pos ==> Edge(h, i);
    }
    if p > 0 {
      assert Edge(h, p);
      forall i | 0 < i < |r| && Parent(i) == p
        ensures Below(r[Parent(p)], r[i])
      {
        assert i != pos ==> Edge(h, i);
      }
    }
  }

  lemma {:induction false} ClimbRestores(h: seq<Entry>, pos: nat)
    requires Distinct(h) && HeapButUp(h, pos)
    ensures IsHeap(Climb(h, pos))
    decreases pos
  {
    if pos > 0 && Less(h[pos], h[Parent(pos)]) {
      SwapDistinct(h, Parent(pos), pos);
      SwapUp(h, pos);
      ClimbRestores(Swap(h, Parent(pos), pos), Parent(pos));
    }
  }

  // ---------------------------------------------------------------- moving down

  function LeastChild(h: seq<Entry>, pos: nat): (c: nat)
    requires Distinct(h) && 2 * pos + 1 < |h|
    ensures pos < c < |h| && Parent(c) == pos
  {
    var left := 2 * pos + 1;
    if left + 1 < |h| && !Less(h[left], h[left + 1]) then left + 1 else left
  }

  /** The first loop of _siftup: the entry at pos trades places with its least child
      until it is a leaf. */
  function Sink(h: seq<Entry>, pos: nat): (r: (seq<Entry>, nat))
    requires pos < |h| && Distinct(h)
    ensures |r.0| == |h| && Distinct(r.0) && r.1 < |h|
    ensures 2 * r.1 + 1 >= |h|
    decreases |h| - pos
  {
    if 2 * pos + 1 >= |h| then (h, pos)
    else
      var c := LeastChild(h, pos);
      SwapDistinct(h, pos, c);
      Sink(Swap(h, pos, c), c)
  }

  lemma {:induction false} SinkKeeps(h: seq<Entry>, pos: nat)
    requires pos < |h| && Distinct(h)
    ensures multiset(Sink(h, pos).0) == multiset(h)
    decreases |h| - pos
  {
    if 2 * pos + 1 < |h| {
      var c := LeastChild(h, pos);
      SwapDistinct(h, pos, c);
      SwapKeeps(h, pos, c);
      SinkKeeps(Swap(h, pos, c), c);
    }
  }

  /** A heap but for the entry at pos, which may belong anywhere below. */
  ghost predicate HeapButDown(h: seq<Entry>, pos: nat) {
    && pos < |h|
    && (forall i :: 0 < i < |h| && i != pos && Parent(i) != pos ==> Edge(h, i))
    && (pos > 0 ==> forall i :: 0 < i < |h| && Parent(i) == pos ==> Below(h[Parent(pos)], h[i]))
  }

  lemma LeastOfChildren(h: seq<Entry>, pos: nat, i: nat)
    requires Distinct(h) && 2 * pos + 1 < |h| && 0 < i < |h| && Parent(i) == pos && i != LeastChild(h, pos)
    ensures Below(h[LeastChild(h, pos)], h[i])
  {
    assert i == 2 * pos + 1 || i == 2 * pos + 2;
  }

  lemma SwapDown(h: seq<Entry>, pos: nat)
    requires Distinct(h) && HeapButDown(h, pos) && 2 * pos + 1 < |h|
    ensures HeapButDown(Swap(h, pos, LeastChild(h, pos)), LeastChild(h, pos))
  {
    var c := LeastChild(h, pos);
    var r := Swap(h, pos, c);
    forall i | 0 < i < |r| && i != c && Parent(i) != c
      ensures Edge(r, i)
    {
      if Parent(i) == pos {
        LeastOfChildren(h, pos, i);
      } else if i != pos {
        assert Edge(h, i);
      }
    }
    forall i | 0 < i < |r| && Parent(i) == c
      ensures Below(r[Parent(c)], r[i])
    {
      assert Edge(h, i);
    }
  }

  lemma {:induction false} SinkReachesLeaf(h: seq<Entry>, pos: nat)
    requires Distinct(h) && HeapButDown(h, pos)
    ensures HeapButUp(Sink(h, pos).0, Sink(h, pos).1)
    decreases |h| - pos
  {
    if 2 * pos + 1 < |h| {
      var c := LeastChild(h, pos);
      SwapDistinct(h, pos, c);
      SwapDown(h, pos);
      SinkReachesLeaf(Swap(h, pos, c), c);
    }
  }

  // ---------------------------------------------------------------- heappush, heappop

  ghost predicate Fresh(h: seq<Entry>, e: Entry) {
    forall i :: 0 <= i < |h| ==> h[i].counter != e.counter
  }

  function Push(h: seq<Entry>, e: Entry): (r: seq<Entry>)
    requires Distinct(h) && Fresh(h, e)
    ensures |r| == |h| + 1 && Distinct(r)
  {
    Climb(h + [e], |h|)
  }

  lemma PushKeeps(h: seq<Entry>, e: Entry)
    requires Distinct(h) && Fresh(h, e)
    ensures multiset(Push(h, e)) == multiset(h) + multiset{e}
  {
    ClimbKeeps(h + [e], |h|);
  }

  /** The last entry put in place of the first. */
  function Topped(h: seq<Entry>): (r: seq<Entry>)
    requires |h| > 1
    ensures |r| == |h| - 1
  {
    [h[|h| - 1]] + h[1..|h| - 1]
  }

  /** The list after heappop; the entry it returns is the first of h. */
  function Pop(h: seq<Entry>): (r: seq<Entry>)
    requires h != [] && Distinct(h)
    ensures |r| == |h| - 1 && Distinct(r)
  {
    if |h| == 1 then []
    else
      ToppedDistinct(h);
      var leaf := Sink(Topped(h), 0);
      Climb(leaf.0, leaf.1)
  }

  lemma ToppedKeeps(h: seq<Entry>)
    requires |h| > 1
    ensures multiset(Topped(h)) == multiset(h) - multiset{h[0]}
  {
    assert h == [h[0]] + h[1..|h| - 1] + [h[|h| - 1]];
  }

  lemma PopKeeps(h: seq<Entry>)
    requires h != [] && Distinct(h)
    ensures multiset(Pop(h)) == multiset(h) - multiset{h[0]}
  {
    if |h| == 1 {
      assert h == [h[0]];
    } else {
      ToppedDistinct(h);
      ToppedKeeps(h);
      SinkKeeps(Topped(h), 0);
      ClimbKeeps(Sink(Topped(h), 0).0, Sink(Topped(h), 0).1);
    }
  }

  lemma ToppedDistinct(h: seq<Entry>)
    requires |h| > 1 && Distinct(h)
    ensures Distinct(Topped(h))
  {
  }

  lemma PushKeepsHeap(h: seq<Entry>, e: Entry)
    requires IsHeap(h) && Distinct(h) && Fresh(h, e)
    ensures IsHeap(Push(h, e))
  {
    var a := h + [e];
    forall i | 0 < i < |a| && i != |h|
      ensures Edge(a, i)
    {
      assert Edge(h, i);
    }
    ClimbRestores(a, |h|);
  }

  lemma PopKeepsHeap(h: seq<Entry>)
    requires h != [] && IsHeap(h) && Distinct(h)
    ensures IsHeap(Pop(h))
  {
    if |h| > 1 {
      var topped := Topped(h);
      ToppedDistinct(h);
      forall i | 0 < i < |topped| && Parent(i) != 0
        ensures Edge(topped, i)
      {
        assert Edge(h, i);
      }
      SinkReachesLeaf(topped, 0);
      ClimbRestores(Sink(topped, 0).0, Sink(topped, 0).1);
    }
  }

  /** heappop hands out the least entry. */
  lemma {:induction false} RootIsLeast(h: seq<Entry>, i: nat)
    requires IsHeap(h) && 0 < i < |h|
    ensures Below(h[0], h[i])
  {
    assert Edge(h, i);
    if Parent(i) > 0 {
      RootIsLeast(h, Parent(i));
    }
  }

  // ---------------------------------------------------------------- rebuilding

  /** Pushing a list's entries one by one, in order. */
  function Rebuild(items: seq<Entry>): (h: seq<Entry>)
    requires Distinct(items)
    ensures |h| == |items| && Distinct(h)
    decreases |items|, 1
  {
    if items == [] then []
    else
      LastIsFresh(items);
      Push(Rebuild(items[..|items| - 1]), items[|items| - 1])
  }

  lemma {:induction false} RebuildKeeps(items: seq<Entry>)
    requires Distinct(items)
    ensures multiset(Rebuild(items)) == multiset(items)
    decreases |items|, 2
  {
    if items != [] {
      RebuildKeeps(items[..|items| - 1]);
      LastIsFresh(items);
      PushKeeps(Rebuild(items[..|items| - 1]), items[|items| - 1]);
      assert items == items[..|items| - 1] + [items[|items| - 1]];
    }
  }

  lemma {:induction false} LastIsFresh(items: seq<Entry>)
    requires items != [] && Distinct(items)
    ensures Fresh(Rebuild(items[..|items| - 1]), items[|items| - 1])
    decreases |items|, 0
  {
    var front := items[..|items| - 1];
    var h := Rebuild(front);
    RebuildKeeps(front);
    forall i | 0 <= i < |h|
      ensures h[i].counter != items[|items| - 1].counter
    {
      assert h[i] in multiset(h);
      assert h[i] in front;
      var k :| 0 <= k < |front| && front[k] == h[i];
      assert items[k] == h[i];
    }
  }

  /** Rebuilding always gives a heap. */
  lemma {:induction false} RebuildIsHeap(items: seq<Entry>)
    requires Distinct(items)
    ensures IsHeap(Rebuild(items))
  {
    if items != [] {
      RebuildIsHeap(items[..|items| - 1]);
      LastIsFresh(items);
      PushKeepsHeap(Rebuild(items[..|items| - 1]), items[|items| - 1]);
    }
  }

  lemma PrefixIsHeap(items: seq<Entry>, n: nat)
    requires IsHeap(items) && n <= |items|
    ensures IsHeap(items[..n])
  {
    forall i | 0 < i < n
      ensures Edge(items[..n], i)
    {
      assert Edge(items, i);
    }
  }

  lemma ClimbStays(h: seq<Entry>, pos: nat)
    requires pos < |h| && Distinct(h) && (pos > 0 ==> Edge(h, pos))
    ensures Climb(h, pos) == h
  {
  }

  lemma PushStays(front: seq<Entry>, last: Entry)
    requires Distinct(front) && Fresh(front, last)
    requires front != [] ==> Below(front[Parent(|front|)], last)
    ensures Push(front, last) == front + [last]
  {
    ClimbStays(front + [last], |front|);
  }

  /** What is a heap already is rebuilt to the very same list. */
  lemma {:induction false} RebuildFixesHeaps(items: seq<Entry>)
    requires Distinct(items) && IsHeap(items)
    ensures Rebuild(items) == items
  {
    if items != [] {
      var front, last := items[..|items| - 1], items[|items| - 1];
      PrefixIsHeap(items, |front|);
      RebuildFixesHeaps(front);
      LastIsFresh(items);
      assert front != [] ==> Edge(items, |front|);
      PushStays(front, last);
      assert items == front + [last];
    }
  }

  // ---------------------------------------------------------------- entries that tie

  /** The tuple comparison a < c on any two entries. None stands for the TypeError of
      comparing two different dicts; equal ones are not compared. */
  function Compare(a: Entry, c: Entry): Option<bool> {
    if a.score != c.score then Some(a.score < c.score)
    else if a.counter != c.counter then Some(a.counter < c.counter)
    else if a.action == c.action then Some(false)
    else None
  }

  function TryClimb(h: seq<Entry>, pos: nat): Option<seq<Entry>>
    requires pos < |h|
    decreases pos
  {
    if pos == 0 then Some(h)
    else
      match Compare(h[pos], h[Parent(pos)])
      case None => None
      case Some(less) => if less then TryClimb(Swap(h, Parent(pos), pos), Parent(pos)) else Some(h)
  }

  function TryPush(h: seq<Entry>, e: Entry): Option<seq<Entry>> {
    TryClimb(h + [e], |h|)
  }

  /** Pushing any list's entries one by one, until a comparison raises. */
  function TryRebuild(items: seq<Entry>): Option<seq<Entry>> {
    if items == [] then Some([])
    else
      match TryRebuild(items[..|items| - 1])
      case None => None
      case Some(h) => TryPush(h, items[|items| - 1])
  }

  lemma {:induction false} DistinctClimbs(h: seq<Entry>, pos: nat)
    requires pos < |h| && Distinct(h)
    ensures TryClimb(h, pos) == Some(Climb(h, pos))
    decreases pos
  {
    if pos > 0 && Less(h[pos], h[Parent(pos)]) {
      SwapDistinct(h, Parent(pos), pos);
      DistinctClimbs(Swap(h, Parent(pos), pos), Parent(pos));
    }
  }

  /** With counters all different no comparison raises. */
  lemma {:induction false} DistinctRebuilds(items: seq<Entry>)
    requires Distinct(items)
    ensures TryRebuild(items) == Some(Rebuild(items))
  {
    if items != [] {
      var front, last := items[..|items| - 1], items[|items| - 1];
      DistinctRebuilds(front);
      LastIsFresh(items);
      DistinctClimbs(Rebuild(front) + [last], |front|);
    }
  }

  /** No two different actions under one score and counter. */
  ghost predicate Comparable(h: seq<Entry>) {
    forall a, c :: a in h && c in h && a.score == c.score && a.counter == c.counter ==> a == c
  }

  lemma {:induction false} ComparableClimbs(h: seq<Entry>, pos: nat)
    requires pos < |h| && Comparable(h)
    ensures TryClimb(h, pos).Some? && multiset(TryClimb(h, pos).value) == multiset(h)
    decreases pos
  {
    if pos > 0 {
      assert h[pos] in h && h[Parent(pos)] in h;
      if Compare(h[pos], h[Parent(pos)]) == Some(true) {
        var r := Swap(h, Parent(pos), pos);
        SwapKeeps(h, Parent(pos), pos);
        MembersStay(h, r);
        ComparableClimbs(r, Parent(pos));
      }
    }
  }

  lemma MembersStay(h: seq<Entry>, r: seq<Entry>)
    requires Comparable(h) && multiset(r) == multiset(h)
    ensures Comparable(r)
  {
    forall e | e in r
      ensures e in h
    {
      assert e in multiset(r);
    }
  }

  /** Without such a pair every push succeeds, and the heap holds just the entries. */
  lemma {:induction false} ComparableRebuilds(items: seq<Entry>)
    requires Comparable(items)
    ensures TryRebuild(items).Some? && multiset(TryRebuild(items).value) == multiset(items)
  {
    if items != [] {
      var front, last := items[..|items| - 1], items[|items| - 1];
      assert items == front + [last];
      assert forall e :: e in front ==> e in items;
      ComparableRebuilds(front);
      var h := TryRebuild(front).value;
      assert multiset(h + [last]) == multiset(items);
      MembersStay(items, h + [last]);
      ComparableClimbs(h + [last], |h|);
    }
  }
}
