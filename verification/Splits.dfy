/**
 Split governance of src/verifierlab/campaigns/splits.py: exact counts assigned through a
 shuffled order, and the manifest's two views of who is in which split.
 */
module Splits {
  import opened Prelude

  datatype SplitSpec = SplitSpec(name: string, fraction: Option<real>, count: Option<nat>)

  /** A declared split has a count or a fraction, and the fraction is one. */
  predicate Declared(s: SplitSpec) {
    (s.count.Some? || s.fraction.Some?) && (s.fraction.Some? ==> 0.0 <= s.fraction.value <= 1.0)
  }

  // ---------------------------------------------------------------- counts

  /** Python's round: to the nearest integer, a half to the even one. */
  function RoundHalfEven(x: real): (r: int)
    ensures -0.5 <= r as real - x <= 0.5
    ensures x >= 0.0 ==> r >= 0
  {
    var f := x.Floor;
    var over := x - f as real;
    if over < 0.5 then f else if over > 0.5 then f + 1 else if f % 2 == 0 then f else f + 1
  }

  function Least(a: int, c: int): int {
    if c < a then c else a
  }

  function FractionOf(s: SplitSpec): real {
    match s.fraction case None => 0.0 case Some(f) => f
  }

  /** What a split asks for, whatever is left. */
  function Wanted(n: nat, s: SplitSpec): (c: nat)
    requires Declared(s)
    ensures s.count.Some? ==> c == s.count.value
    ensures s.count.None? ==> -0.5 <= c as real - s.fraction.value * n as real <= 0.5
  {
    if s.count.Some? then s.count.value
    else
      assert FractionOf(s) * n as real >= 0.0;
      RoundHalfEven(FractionOf(s) * n as real)
  }

  function WantedOf(n: nat, splits: seq<SplitSpec>): (ws: seq<nat>)
    requires forall s :: s in splits ==> Declared(s)
    ensures |ws| == |splits|
    ensures forall i :: 0 <= i < |splits| ==> splits[i] in splits && ws[i] == Wanted(n, splits[i])
  {
    seq(|splits|, i requires 0 <= i < |splits| => assert splits[i] in splits; Wanted(n, splits[i]))
  }

  /** How many units a split takes of those that remain. */
  function Share(n: nat, s: SplitSpec, last: bool, remaining: nat): (c: nat)
    requires Declared(s)
    ensures c <= remaining
  {
    if s.count.Some? then Least(s.count.value, remaining)
    else if last then remaining
    else
      assert FractionOf(s) * n as real >= 0.0;
      Least(remaining, RoundHalfEven(FractionOf(s) * n as real))
  }

  type Counts = seq<(string, nat)>

  function Total(counts: Counts): nat {
    if counts == [] then 0 else Total(counts[..|counts| - 1]) + counts[|counts| - 1].1
  }

  /** The units promised to a name over all the splits that carry it. */
  function TotalOf(counts: Counts, name: string): nat {
    if counts == [] then 0
    else
      TotalOf(counts[..|counts| - 1], name) +
      if counts[|counts| - 1].0 == name then counts[|counts| - 1].1 else 0
  }

  /** The last split absorbs what is left over. */
  function Adjusted(counts: Counts, remaining: nat): Counts {
    if counts == [] then counts
    else
      var last := counts[|counts| - 1];
      counts[..|counts| - 1] + [(last.0, last.1 + remaining)]
  }

  lemma AdjustedTotal(counts: Counts, remaining: nat)
    requires counts != []
    ensures Total(Adjusted(counts, remaining)) == Total(counts) + remaining
  {
    assert Adjusted(counts, remaining)[..|counts| - 1] == counts[..|counts| - 1];
  }

  method SplitCounts(n: nat, splits: seq<SplitSpec>) returns (counts: Counts)
    requires splits != [] && forall s :: s in splits ==> Declared(s)
    ensures |counts| == |splits| && forall i :: 0 <= i < |splits| ==> counts[i].0 == splits[i].name
    ensures Total(counts) == n
    ensures Takes(n, WantedOf(n, splits), counts)
  {
    ghost var wants := WantedOf(n, splits);
    counts := [];
    var remaining := n;
    for i := 0 to |splits|
      invariant |counts| == i && Total(counts) + remaining == n
      invariant forall j :: 0 <= j < i ==> counts[j].0 == splits[j].name
      invariant Takes(n, wants, counts)
    {
      assert splits[i] in splits;
      var c := Share(n, splits[i], i == |splits| - 1, remaining);
      TakesNext(n, wants, counts, splits[i].name, c);
      TotalAppend(counts, splits[i].name, c);
      counts := counts + [(splits[i].name, c)];
      remaining := remaining - c;
    }
    AdjustedTotal(counts, remaining);
    AdjustedTakes(n, wants, counts, remaining);
    counts := Adjusted(counts, remaining);
  }

  ghost predicate TakesAt(n: nat, want: nat, counts: Counts, j: nat)
    requires j < |counts|
  {
    counts[j].1 == Least(want, n - Total(counts[..j]))
  }

  /** A split but the last gets what it asks for, as far as the splits before it leave
      that much. */
  ghost predicate Takes(n: nat, wants: seq<nat>, counts: Counts) {
    |counts| <= |wants| && forall j :: 0 <= j < |counts| && j < |wants| - 1 ==> TakesAt(n, wants[j], counts, j)
  }

  lemma TakesAtPrefix(n: nat, want: nat, counts: Counts, after: Counts, j: nat)
    requires j < |counts| <= |after| && counts[..j] == after[..j] && counts[j] == after[j] && TakesAt(n, want, counts, j)
    ensures TakesAt(n, want, after, j)
  {
  }

  lemma TotalAppend(counts: Counts, name: string, c: nat)
    ensures Total(counts + [(name, c)]) == Total(counts) + c
  {
    assert (counts + [(name, c)])[..|counts|] == counts;
  }

  lemma TakesNext(n: nat, wants: seq<nat>, counts: Counts, name: string, c: nat)
    requires Takes(n, wants, counts) && |counts| < |wants|
    requires |counts| < |wants| - 1 ==> c == Least(wants[|counts|], n - Total(counts))
    ensures Takes(n, wants, counts + [(name, c)])
  {
    var after := counts + [(name, c)];
    forall j | 0 <= j < |after| && j < |wants| - 1
      ensures TakesAt(n, wants[j], after, j)
    {
      if j < |counts| {
        TakesAtPrefix(n, wants[j], counts, after, j);
      } else {
        TakesAtLast(n, wants[j], counts, name, c);
      }
    }
  }

  lemma TakesAtLast(n: nat, want: nat, counts: Counts, name: string, c: nat)
    requires c == Least(want, n - Total(counts))
    ensures TakesAt(n, want, counts + [(name, c)], |counts|)
  {
    assert (counts + [(name, c)])[..|counts|] == counts;
  }

  lemma AdjustedTakes(n: nat, wants: seq<nat>, counts: Counts, remaining: nat)
    requires Takes(n, wants, counts) && |counts| == |wants| && counts != []
    ensures Takes(n, wants, Adjusted(counts, remaining))
  {
    var after := Adjusted(counts, remaining);
    forall j | 0 <= j < |after| && j < |wants| - 1
      ensures TakesAt(n, wants[j], after, j)
    {
      TakesAtPrefix(n, wants[j], counts, after, j);
    }
  }

  // ---------------------------------------------------------------- filling through a permutation

  /** The names in split order, each as often as its count. */
  function Expanded(counts: Counts): (s: seq<string>)
    ensures |s| == Total(counts)
  {
    if counts == [] then []
    else Expanded(counts[..|counts| - 1]) + seq(counts[|counts| - 1].1, _ => counts[|counts| - 1].0)
  }

  function CountIn(s: seq<string>, name: string): nat {
    if s == [] then 0 else CountIn(s[..|s| - 1], name) + if s[|s| - 1] == name then 1 else 0
  }

  lemma {:induction false} CountInConcat(a: seq<string>, c: seq<string>, name: string)
    ensures CountIn(a + c, name) == CountIn(a, name) + CountIn(c, name)
    decreases |c|
  {
    if c == [] {
      assert a + c == a;
    } else {
      assert (a + c)[..|a + c| - 1] == a + c[..|c| - 1];
      CountInConcat(a, c[..|c| - 1], name);
    }
  }

  lemma {:induction false} CountInRun(n: nat, x: string, name: string)
    ensures CountIn(seq(n, _ => x), name) == if x == name then n else 0
    decreases n
  {
    if n > 0 {
      assert seq(n, _ => x)[..n - 1] == seq(n - 1, _ => x);
      CountInRun(n - 1, x, name);
    }
  }

  lemma {:induction false} ExpandedCounts(counts: Counts, name: string)
    ensures CountIn(Expanded(counts), name) == TotalOf(counts, name)
    decreases |counts|
  {
    if counts != [] {
      var front, last := counts[..|counts| - 1], counts[|counts| - 1];
      ExpandedCounts(front, name);
      CountInConcat(Expanded(front), seq(last.1, _ => last.0), name);
      CountInRun(last.1, last.0, name);
    }
  }

  ghost predicate IsPermutation(order: seq<nat>, n: nat) {
    && |order| == n
    && (forall i :: 0 <= i < n ==> order[i] < n)
    && (forall i, j :: 0 <= i < j < n ==> order[i] != order[j])
  }

  /** The positions of a name. */
  ghost function At(s: seq<string>, name: string): set<nat> {
    set i: nat | i < |s| && s[i] == name
  }

  lemma {:induction false} CountIsPositions(s: seq<string>, name: string)
    ensures CountIn(s, name) == |At(s, name)|
  {
    if s != [] {
      var front, n := s[..|s| - 1], |s| - 1;
      CountIsPositions(front, name);
      assert At(s, name) == At(front, name) + if s[n] == name then {n} else {};
      assert n !in At(front, name);
    } else {
      assert At(s, name) == {};
    }
  }

  lemma {:induction false} ImageSize(order: seq<nat>, n: nat, from: set<nat>, image: set<nat>)
    requires IsPermutation(order, n) && forall i :: i in from ==> i < n
    requires image == set i | i in from :: order[i]
    ensures |image| == |from|
    decreases |from|
  {
    if from == {} {
      assert image == {};
    } else {
      var i :| i in from;
      var rest := set j | j in from - {i} :: order[j];
      assert forall j :: j in from - {i} ==> order[j] != order[i];
      assert image == rest + {order[i]} && order[i] !in rest;
      ImageSize(order, n, from - {i}, rest);
    }
  }

  ghost function Range(n: nat): (r: set<nat>)
    ensures |r| == n && forall i: nat :: i in r <==> i < n
  {
    if n == 0 then {} else Range(n - 1) + {n - 1}
  }

  lemma FullRange(s: set<nat>, n: nat)
    requires s <= Range(n) && |s| == n
    ensures s == Range(n)
  {
    var missing := Range(n) - s;
    assert Range(n) == s + missing && |Range(n)| == |s| + |missing|;
  }

  ghost function Image(order: seq<nat>, from: set<nat>): set<nat>
    requires forall i :: i in from ==> i < |order|
  {
    set i | i in from :: order[i]
  }

  lemma ImageInRange(order: seq<nat>, n: nat)
    requires IsPermutation(order, n)
    ensures Image(order, Range(n)) <= Range(n)
  {
  }

  lemma FullImage(order: seq<nat>, n: nat, image: set<nat>)
    requires IsPermutation(order, n) && image == Image(order, Range(n))
    ensures image == Range(n)
  {
    ImageSize(order, n, Range(n), image);
    ImageInRange(order, n);
    FullRange(image, n);
  }

  lemma InImage(order: seq<nat>, n: nat, p: nat, image: set<nat>)
    requires IsPermutation(order, n) && p < n && image == Image(order, Range(n))
    ensures p in image
  {
    FullImage(order, n, image);
  }

  /** A permutation reaches every position. */
  lemma Reaches(order: seq<nat>, n: nat, p: nat)
    requires IsPermutation(order, n) && p < n
    ensures exists k :: 0 <= k < n && order[k] == p
  {
    InImage(order, n, p, Image(order, Range(n)));
    var k :| k in Range(n) && order[k] == p;
  }

  /** Writing a list through a permutation keeps how often each name occurs. */
  lemma CountThroughPermutation(a: seq<string>, s: seq<string>, order: seq<nat>, name: string)
    requires |a| == |s| && IsPermutation(order, |s|)
    requires forall k :: 0 <= k < |s| ==> a[order[k]] == s[k]
    ensures CountIn(a, name) == CountIn(s, name)
  {
    CountIsPositions(a, name);
    CountIsPositions(s, name);
    var image := set k | k in At(s, name) :: order[k];
    forall p | p in At(a, name)
      ensures p in image
    {
      Reaches(order, |s|, p);
      var k: nat :| k < |s| && order[k] == p;
      assert k in At(s, name);
    }
    assert image == At(a, name);
    ImageSize(order, |s|, At(s, name), image);
  }

  /** The shuffle comes in as `order`. Each position is written once, and every name gets
      exactly the units counted for it. */
  method AssignSplitIndices(n: int, splits: seq<SplitSpec>, order: seq<nat>)
    returns (assignment: seq<string>, ghost counts: Counts)
    requires n > 0 ==> IsPermutation(order, n)
    requires forall s :: s in splits ==> Declared(s)
    ensures |assignment| == if n <= 0 then 0 else n
    ensures n > 0 && splits == [] ==> forall i :: 0 <= i < n ==> assignment[i] == "train"
    ensures n > 0 && splits != [] ==>
      && |counts| == |splits| && (forall i :: 0 <= i < |splits| ==> counts[i].0 == splits[i].name)
      && Total(counts) == n
      && Takes(n, WantedOf(n, splits), counts)
      && (forall k :: 0 <= k < n ==> assignment[order[k]] == Expanded(counts)[k])
      && (forall name :: CountIn(assignment, name) == TotalOf(counts, name))
  {
    counts := [];
    if n <= 0 {
      return [], [];
    }
    assignment := seq(n, _ => "train");
    if splits == [] {
      return;
    }
    var shares := SplitCounts(n, splits);
    counts := shares;
    assignment := Fill(n, shares, order);
    forall name
      ensures CountIn(assignment, name) == TotalOf(shares, name)
    {
      CountThroughPermutation(assignment, Expanded(shares), order, name);
      ExpandedCounts(shares, name);
    }
  }

  /** The first positions of the shuffled order hold the first names of the target. */
  ghost predicate FilledTo(assignment: seq<string>, order: seq<nat>, n: nat, target: seq<string>, cursor: nat) {
    && IsPermutation(order, n) && |assignment| == n && cursor <= n && cursor <= |target|
    && forall k :: 0 <= k < cursor ==> assignment[order[k]] == target[k]
  }

  lemma FillOne(assignment: seq<string>, order: seq<nat>, n: nat, target: seq<string>, cursor: nat)
    requires FilledTo(assignment, order, n, target, cursor) && cursor < n && cursor < |target|
    ensures FilledTo(assignment[order[cursor] := target[cursor]], order, n, target, cursor + 1)
  {
  }

  lemma FillFurther(assignment: seq<string>, order: seq<nat>, n: nat, target: seq<string>, more: seq<string>, cursor: nat)
    requires FilledTo(assignment, order, n, target, cursor)
    ensures FilledTo(assignment, order, n, target + more, cursor)
  {
  }

  lemma ExpandedNext(counts: Counts, i: nat)
    requires i < |counts|
    ensures Expanded(counts[..i + 1]) == Expanded(counts[..i]) + seq(counts[i].1, _ => counts[i].0)
    ensures Total(counts[..i + 1]) == Total(counts[..i]) + counts[i].1
  {
    assert counts[..i + 1][..i] == counts[..i];
  }

  /** The filling loops: a cursor runs over the shuffled positions, split by split. */
  method Fill(n: nat, counts: Counts, order: seq<nat>) returns (assignment: seq<string>)
    requires IsPermutation(order, n) && Total(counts) == n
    ensures FilledTo(assignment, order, n, Expanded(counts), n)
  {
    assignment := seq(n, _ => "train");
    var cursor := 0;
    for i := 0 to |counts|
      invariant cursor == Total(counts[..i]) && FilledTo(assignment, order, n, Expanded(counts[..i]), cursor)
    {
      ghost var start, target := cursor, Expanded(counts[..i + 1]);
      ExpandedNext(counts, i);
      FillFurther(assignment, order, n, Expanded(counts[..i]), seq(counts[i].1, _ => counts[i].0), cursor);
      PrefixTotal(counts, i + 1);
      for j := 0 to counts[i].1
        invariant cursor == start + j && FilledTo(assignment, order, n, target, cursor)
      {
        if cursor >= n {
          break;
        }
        FillOne(assignment, order, n, target, cursor);
        assert target[cursor] == counts[i].0;
        assignment := assignment[order[cursor] := counts[i].0];
        cursor := cursor + 1;
      }
    }
    assert counts[..|counts|] == counts;
  }

  lemma {:induction false} PrefixTotal(counts: Counts, i: nat)
    requires i <= |counts|
    ensures Total(counts[..i]) <= Total(counts)
    decreases |counts|
  {
    if i < |counts| {
      PrefixTotal(counts[..|counts| - 1], i);
      assert counts[..|counts| - 1][..i] == counts[..i];
    } else {
      assert counts[..i] == counts;
    }
  }

  // ---------------------------------------------------------------- the manifest

  datatype Unit = Unit(unitId: string, split: string, learning: bool, tier: string, visible: bool)

  datatype Lookup = Lookup(split: string, learning: bool, tier: string, visible: bool)

  const PRIVATE_HOLDOUT := "private_holdout"

  /** Python's order on str, less or equal. */
  predicate AtMost(a: string, c: string) {
    a == [] || (c != [] && (a[0] < c[0] || (a[0] == c[0] && AtMost(a[1..], c[1..]))))
  }

  lemma {:induction false} AtMostTotal(a: string, c: string)
    ensures AtMost(a, c) || AtMost(c, a)
  {
    if a != [] && c != [] && a[0] == c[0] {
      AtMostTotal(a[1..], c[1..]);
    }
  }

  lemma {:induction false} AtMostTransitive(a: string, c: string, e: string)
    requires AtMost(a, c) && AtMost(c, e)
    ensures AtMost(a, e)
  {
    if a != [] && a[0] == c[0] && c[0] == e[0] {
      AtMostTransitive(a[1..], c[1..], e[1..]);
    }
  }

  ghost predicate Ascending(ids: seq<string>) {
    forall i, j :: 0 <= i < j < |ids| ==> AtMost(ids[i], ids[j])
  }

  function InsertId(id: string, ids: seq<string>): seq<string> {
    if ids == [] || AtMost(id, ids[0]) then [id] + ids else [ids[0]] + InsertId(id, ids[1..])
  }

  function SortIds(ids: seq<string>): seq<string> {
    if ids == [] then [] else InsertId(ids[0], SortIds(ids[1..]))
  }

  lemma {:induction false} InsertIdKeeps(id: string, ids: seq<string>)
    ensures multiset(InsertId(id, ids)) == multiset(ids) + multiset{id}
  {
    if ids != [] && !AtMost(id, ids[0]) {
      InsertIdKeeps(id, ids[1..]);
      assert ids == [ids[0]] + ids[1..];
    }
  }

  lemma {:induction false} SortIdsKeeps(ids: seq<string>)
    ensures multiset(SortIds(ids)) == multiset(ids)
  {
    if ids != [] {
      SortIdsKeeps(ids[1..]);
      InsertIdKeeps(ids[0], SortIds(ids[1..]));
      assert ids == [ids[0]] + ids[1..];
    }
  }

  lemma FirstAtMost(id: string, ids: seq<string>)
    requires Ascending(ids) && (ids != [] ==> AtMost(id, ids[0]))
    ensures Ascending([id] + ids)
  {
    forall j | 0 <= j < |ids|
      ensures AtMost(id, ids[j])
    {
      if j > 0 {
        AtMostTransitive(id, ids[0], ids[j]);
      }
    }
  }

  lemma {:induction false} InsertIdAscends(id: string, ids: seq<string>)
    requires Ascending(ids)
    ensures Ascending(InsertId(id, ids))
    ensures ids != [] && AtMost(ids[0], id) ==> AtMost(ids[0], InsertId(id, ids)[0])
  {
    if ids == [] || AtMost(id, ids[0]) {
      FirstAtMost(id, ids);
      if ids != [] {
        AtMostTotal(ids[0], ids[0]);
      }
    } else {
      var rest := InsertId(id, ids[1..]);
      AtMostTotal(id, ids[0]);
      AtMostTotal(ids[0], ids[0]);
      InsertIdAscends(id, ids[1..]);
      InsertIdHead(id, ids[1..]);
      FirstAtMost(ids[0], rest);
    }
  }

  lemma InsertIdHead(id: string, ids: seq<string>)
    ensures InsertId(id, ids) != []
    ensures InsertId(id, ids)[0] == id || (ids != [] && InsertId(id, ids)[0] == ids[0])
  {
  }

  lemma {:induction false} SortIdsAscends(ids: seq<string>)
    ensures Ascending(SortIds(ids))
  {
    if ids != [] {
      SortIdsAscends(ids[1..]);
      InsertIdAscends(ids[0], SortIds(ids[1..]));
    }
  }

  /** by_split before its lists are sorted: the ids of a split in unit order. */
  function IdsOf(ids: seq<string>, names: seq<string>, name: string): seq<string>
    requires |ids| == |names|
  {
    if ids == [] then []
    else
      IdsOf(ids[..|ids| - 1], names[..|names| - 1], name) +
      if names[|names| - 1] == name then [ids[|ids| - 1]] else []
  }

  function Listed(bySplit: map<string, seq<string>>, name: string): seq<string> {
    if name in bySplit then bySplit[name] else []
  }

  function UnitOf(id: string, name: string, tier: string -> string, holdout: string -> bool): Unit {
    Unit(id, name, !holdout(name), tier(name), tier(name) != PRIVATE_HOLDOUT)
  }

  function UnitsOf(ids: seq<string>, names: seq<string>, tier: string -> string, holdout: string -> bool): seq<Unit>
    requires |ids| == |names|
  {
    seq(|ids|, i requires 0 <= i < |ids| => UnitOf(ids[i], names[i], tier, holdout))
  }

  lemma UnitsNext(ids: seq<string>, names: seq<string>, tier: string -> string, holdout: string -> bool, i: nat)
    requires |ids| == |names| && i < |ids|
    ensures UnitsOf(ids[..i + 1], names[..i + 1], tier, holdout) ==
            UnitsOf(ids[..i], names[..i], tier, holdout) + [UnitOf(ids[i], names[i], tier, holdout)]
  {
  }

  lemma IdsOfNext(ids: seq<string>, names: seq<string>, i: nat, name: string)
    requires |ids| == |names| && i < |ids|
    ensures IdsOf(ids[..i + 1], names[..i + 1], name) ==
            IdsOf(ids[..i], names[..i], name) + if names[i] == name then [ids[i]] else []
    ensures name in names[..i + 1] <==> name in names[..i] || name == names[i]
  {
    assert ids[..i + 1][..i] == ids[..i] && names[..i + 1][..i] == names[..i];
    assert names[..i + 1] == names[..i] + [names[i]];
  }

  /** by_split after the first i units. */
  ghost predicate Grouped(bySplit: map<string, seq<string>>, ids: seq<string>, names: seq<string>)
    requires |ids| == |names|
  {
    forall name :: Listed(bySplit, name) == IdsOf(ids, names, name) && (name in bySplit <==> name in names)
  }

  lemma GroupedNext(bySplit: map<string, seq<string>>, ids: seq<string>, names: seq<string>, i: nat)
    requires |ids| == |names| && i < |ids| && Grouped(bySplit, ids[..i], names[..i])
    ensures Grouped(bySplit[names[i] := Listed(bySplit, names[i]) + [ids[i]]], ids[..i + 1], names[..i + 1])
  {
    var after := bySplit[names[i] := Listed(bySplit, names[i]) + [ids[i]]];
    forall name
      ensures Listed(after, name) == IdsOf(ids[..i + 1], names[..i + 1], name) && (name in after <==> name in names[..i + 1])
    {
      IdsOfNext(ids, names, i, name);
      assert Listed(bySplit, name) == IdsOf(ids[..i], names[..i], name);
    }
  }

  /** The loop over units and names; the tier and holdout rules of a name come in as
      functions. */
  method MaterializeUnits(ids: seq<string>, names: seq<string>, tier: string -> string, holdout: string -> bool)
    returns (bySplit: map<string, seq<string>>, units: seq<Unit>)
    requires |ids| == |names|
    ensures units == UnitsOf(ids, names, tier, holdout)
    ensures forall name :: name in bySplit <==> name in names
    ensures forall name :: name in bySplit ==> SortedCopy(bySplit[name], IdsOf(ids, names, name))
  {
    bySplit, units := map[], [];
    for i := 0 to |ids|
      invariant units == UnitsOf(ids[..i], names[..i], tier, holdout)
      invariant Grouped(bySplit, ids[..i], names[..i])
    {
      GroupedNext(bySplit, ids, names, i);
      UnitsNext(ids, names, tier, holdout, i);
      bySplit := bySplit[names[i] := Listed(bySplit, names[i]) + [ids[i]]];
      units := units + [UnitOf(ids[i], names[i], tier, holdout)];
    }
    assert ids[..|ids|] == ids && names[..|names|] == names;
    ghost var groups := bySplit;
    bySplit := map name | name in bySplit :: SortIds(bySplit[name]);
    forall name | name in bySplit
      ensures SortedCopy(bySplit[name], IdsOf(ids, names, name))
    {
      assert Listed(groups, name) == IdsOf(ids, names, name);
      SortIdsKeeps(groups[name]);
      SortIdsAscends(groups[name]);
    }
    forall name
      ensures name in bySplit <==> name in names
    {
      assert Listed(groups, name) == IdsOf(ids, names, name) && (name in groups <==> name in names);
    }
  }

  /** The same ids, in order. */
  ghost predicate SortedCopy(sorted: seq<string>, ids: seq<string>) {
    Ascending(sorted) && multiset(sorted) == multiset(ids)
  }

  lemma SortedMembers(sorted: seq<string>, ids: seq<string>, id: string)
    requires SortedCopy(sorted, ids)
    ensures id in sorted <==> id in ids
  {
    assert id in sorted <==> id in multiset(sorted);
    assert id in ids <==> id in multiset(ids);
  }

  /** split_lookup: the last row of an id wins. */
  function SplitLookup(units: seq<Unit>): map<string, Lookup> {
    if units == [] then map[]
    else
      var u := units[|units| - 1];
      SplitLookup(units[..|units| - 1])[u.unitId := Lookup(u.split, u.learning, u.tier, u.visible)]
  }

  ghost predicate Unique(ids: seq<string>) {
    forall i, j :: 0 <= i < j < |ids| ==> ids[i] != ids[j]
  }

  lemma {:induction false} LookupAt(units: seq<Unit>, i: nat)
    requires i < |units| && forall j, k :: 0 <= j < k < |units| ==> units[j].unitId != units[k].unitId
    ensures units[i].unitId in SplitLookup(units)
    ensures SplitLookup(units)[units[i].unitId] ==
            Lookup(units[i].split, units[i].learning, units[i].tier, units[i].visible)
    decreases |units|
  {
    if i < |units| - 1 {
      LookupAt(units[..|units| - 1], i);
    }
  }

  lemma {:induction false} LookupOnly(units: seq<Unit>, id: string)
    requires id in SplitLookup(units)
    ensures exists i :: 0 <= i < |units| && units[i].unitId == id
    decreases |units|
  {
    if units[|units| - 1].unitId != id {
      LookupOnly(units[..|units| - 1], id);
      var i :| 0 <= i < |units[..|units| - 1]| && units[..|units| - 1][i].unitId == id;
      assert units[i].unitId == id;
    }
  }

  lemma {:induction false} InIdsOf(ids: seq<string>, names: seq<string>, name: string, id: string)
    requires |ids| == |names|
    ensures id in IdsOf(ids, names, name) <==> exists i :: 0 <= i < |ids| && ids[i] == id && names[i] == name
    decreases |ids|
  {
    if ids != [] {
      var n := |ids| - 1;
      InIdsOf(ids[..n], names[..n], name, id);
      if exists i :: 0 <= i < |ids| && ids[i] == id && names[i] == name {
        var i :| 0 <= i < |ids| && ids[i] == id && names[i] == name;
        if i < n {
          assert ids[..n][i] == id && names[..n][i] == name;
        }
      }
      if id in IdsOf(ids[..n], names[..n], name) {
        var i :| 0 <= i < n && ids[..n][i] == id && names[..n][i] == name;
        assert ids[i] == id && names[i] == name;
      }
    }
  }

  /** For unique ids the two views agree: a unit is listed under a split exactly when
      looking it up gives that split. */
  lemma ViewsAgree(ids: seq<string>, names: seq<string>, units: seq<Unit>, name: string, id: string, group: seq<string>)
    requires |ids| == |names| == |units| && Unique(ids)
    requires forall i :: 0 <= i < |ids| ==> units[i].unitId == ids[i] && units[i].split == names[i]
    requires SortedCopy(group, IdsOf(ids, names, name))
    ensures id in group <==> id in SplitLookup(units) && SplitLookup(units)[id].split == name
  {
    SortedMembers(group, IdsOf(ids, names, name), id);
    InIdsOf(ids, names, name, id);
    if id in SplitLookup(units) {
      LookupOnly(units, id);
      var i :| 0 <= i < |units| && units[i].unitId == id;
      LookupAt(units, i);
      assert ids[i] == id;
    }
    if exists i :: 0 <= i < |ids| && ids[i] == id && names[i] == name {
      var i :| 0 <= i < |ids| && ids[i] == id && names[i] == name;
      LookupAt(units, i);
    }
  }

  /** So the splits partition the units: every id is listed under exactly one name. */
  lemma SplitsPartition(ids: seq<string>, names: seq<string>, i: nat, name: string, group: seq<string>)
    requires |ids| == |names| && Unique(ids) && i < |ids|
    requires SortedCopy(group, IdsOf(ids, names, name))
    ensures ids[i] in group <==> name == names[i]
  {
    SortedMembers(group, IdsOf(ids, names, name), ids[i]);
    InIdsOf(ids, names, name, ids[i]);
  }
}
