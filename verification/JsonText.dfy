/**
 json.dumps of a canonical structure (compact, keys sorted, ensure_ascii=False) and
 the json.loads grammar of RFC 8259, sections 2 to 7, with the theorem that the
 reader undoes the printer.
 */
module JsonText {
  import opened Prelude
  import opened Utf8
  import opened JsonNumbers
  import opened CanonicalJson

  const QUOTE: CodePoint := '"' as int
  const BACKSLASH: CodePoint := '\\' as int
  const SLASH: CodePoint := '/' as int
  const COMMA: CodePoint := ',' as int
  const COLON: CodePoint := ':' as int
  const OPEN_LIST: CodePoint := '[' as int
  const CLOSE_LIST: CodePoint := ']' as int
  const OPEN_OBJECT: CodePoint := '{' as int
  const CLOSE_OBJECT: CodePoint := '}' as int
  const SMALL_A: CodePoint := 'a' as int
  const BIG_A: CodePoint := 'A' as int
  const SMALL_B: CodePoint := 'b' as int
  const SMALL_F: CodePoint := 'f' as int
  const SMALL_N: CodePoint := 'n' as int
  const SMALL_R: CodePoint := 'r' as int
  const SMALL_T: CodePoint := 't' as int
  const SMALL_U: CodePoint := 'u' as int

  const NULL_TEXT: Text := [110, 117, 108, 108]
  const TRUE_TEXT: Text := [116, 114, 117, 101]
  const FALSE_TEXT: Text := [102, 97, 108, 115, 101]

  // ---------------------------------------------------------------- strings

  function HexDigit(n: nat): CodePoint
    requires n < 16
  {
    if n < 10 then ZERO + n else SMALL_A + (n - 10)
  }

  function HexValue(c: CodePoint): Option<nat> {
    if IsDigit(c) then Some(c - ZERO)
    else if SMALL_A <= c < SMALL_A + 6 then Some(c - SMALL_A + 10)
    else if BIG_A <= c < BIG_A + 6 then Some(c - BIG_A + 10)
    else None
  }

  /** Quote, backslash and the C0 controls are escaped; everything else stands as is. */
  function Escaped(c: CodePoint): Text {
    if c == QUOTE || c == BACKSLASH then [BACKSLASH, c]
    else if c == 8 then [BACKSLASH, SMALL_B]
    else if c == 12 then [BACKSLASH, SMALL_F]
    else if c == 10 then [BACKSLASH, SMALL_N]
    else if c == 13 then [BACKSLASH, SMALL_R]
    else if c == 9 then [BACKSLASH, SMALL_T]
    else if c < 32 then [BACKSLASH, SMALL_U, ZERO, ZERO, HexDigit(c / 16), HexDigit(c % 16)]
    else [c]
  }

  /** The body of a string literal and its closing quote. */
  function StringTail(t: Text): Text {
    if t == [] then [QUOTE] else Escaped(t[0]) + StringTail(t[1..])
  }

  function Hex4(s: Text): Option<(CodePoint, Text)> {
    if |s| < 4 then None
    else
      match (HexValue(s[0]), HexValue(s[1]), HexValue(s[2]), HexValue(s[3]))
      case (Some(a), Some(b), Some(c), Some(d)) => HexJoin(a, b, c, d, s[4..])
      case _ => None
  }

  function HexJoin(a: nat, b: nat, c: nat, d: nat, rest: Text): Option<(CodePoint, Text)> {
    var n := ((a * 16 + b) * 16 + c) * 16 + d;
    if n < 0x11_0000 then Some((n, rest)) else None
  }

  /** A u-escape: a high surrogate followed by an escaped low one is a single character. */
  function ReadUnicode(s: Text): Option<(CodePoint, Text)> {
    match Hex4(s)
    case None => None
    case Some((high, rest)) =>
      if 0xD800 <= high < 0xDC00 && |rest| >= 6 && rest[0] == BACKSLASH && rest[1] == SMALL_U then
        match Hex4(rest[2..])
        case None => None
        case Some((low, after)) =>
          if 0xDC00 <= low < 0xE000 then Some((0x1_0000 + (high - 0xD800) * 1024 + (low - 0xDC00), after))
          else Some((high, rest))
      else Some((high, rest))
  }

  /** What stands after a backslash. */
  function ReadEscape(s: Text): Option<(CodePoint, Text)> {
    if s == [] then None
    else if s[0] == QUOTE || s[0] == BACKSLASH || s[0] == SLASH then Some((s[0], s[1..]))
    else if s[0] == SMALL_B then Some((8, s[1..]))
    else if s[0] == SMALL_F then Some((12, s[1..]))
    else if s[0] == SMALL_N then Some((10, s[1..]))
    else if s[0] == SMALL_R then Some((13, s[1..]))
    else if s[0] == SMALL_T then Some((9, s[1..]))
    else if s[0] == SMALL_U then ReadUnicode(s[1..])
    else None
  }

  lemma EscapeConsumes(s: Text)
    ensures ReadEscape(s).Some? ==> |ReadEscape(s).value.1| < |s|
  {
  }

  function PrependText(c: CodePoint, r: Option<(Text, Text)>): Option<(Text, Text)> {
    match r
    case None => None
    case Some((t, rest)) => Some(([c] + t, rest))
  }

  /** A string after its opening quote; a raw control character is refused. */
  function ReadString(s: Text): (r: Option<(Text, Text)>)
    ensures r.Some? ==> |r.value.1| < |s|
    decreases |s|
  {
    if s == [] then None
    else if s[0] == QUOTE then Some(([], s[1..]))
    else if s[0] == BACKSLASH then
      match ReadEscape(s[1..])
      case None => None
      case Some((c, rest)) => EscapeConsumes(s[1..]); PrependText(c, ReadString(rest))
    else if s[0] < 32 then None
    else PrependText(s[0], ReadString(s[1..]))
  }

  lemma ReadControl(c: CodePoint, rest: Text)
    requires c < 32
    ensures Hex4([ZERO, ZERO, HexDigit(c / 16), HexDigit(c % 16)] + rest) == Some((c, rest))
  {
    var s := [ZERO, ZERO, HexDigit(c / 16), HexDigit(c % 16)] + rest;
    assert s[0] == ZERO && s[1] == ZERO && s[2] == HexDigit(c / 16) && s[3] == HexDigit(c % 16);
    assert s[4..] == rest;
  }

  lemma ReadEscaped(c: CodePoint, tail: Text)
    ensures ReadString(Escaped(c) + tail) == PrependText(c, ReadString(tail))
  {
    var s := Escaped(c) + tail;
    if |Escaped(c)| == 1 {
      assert s[1..] == tail;
    } else if |Escaped(c)| == 2 {
      assert s[1..] == [Escaped(c)[1]] + tail;
      assert s[1..][1..] == tail;
    } else {
      var hex := [ZERO, ZERO, HexDigit(c / 16), HexDigit(c % 16)];
      assert s[1..] == [SMALL_U] + (hex + tail);
      assert s[1..][1..] == hex + tail;
      ReadControl(c, tail);
    }
  }

  lemma {:induction false} StringRoundTrip(t: Text, rest: Text)
    ensures ReadString(StringTail(t) + rest) == Some((t, rest))
  {
    if t == [] {
      assert (StringTail(t) + rest)[1..] == rest;
    } else {
      assert StringTail(t) + rest == Escaped(t[0]) + (StringTail(t[1..]) + rest);
      ReadEscaped(t[0], StringTail(t[1..]) + rest);
      StringRoundTrip(t[1..], rest);
      assert t == [t[0]] + t[1..];
    }
  }

  // ---------------------------------------------------------------- printing

  function Render(v: Value): Text
    decreases v, 1
  {
    match v
    case Null => NULL_TEXT
    case Bool(b) => if b then TRUE_TEXT else FALSE_TEXT
    case Int(i) => IntText(i)
    case Float(f) => FloatText(f)
    case Str(t) => [QUOTE] + StringTail(t)
    case Array(items) => if items == [] then [OPEN_LIST, CLOSE_LIST] else [OPEN_LIST] + RenderItems(v, 0)
    case Object(members) => if members == [] then [OPEN_OBJECT, CLOSE_OBJECT] else [OPEN_OBJECT] + RenderMembers(v, 0)
  }

  /** The items from the k-th on, and the closing bracket. */
  function RenderItems(v: Value, k: nat): Text
    requires v.Array? && k < |v.items|
    decreases v, 0, |v.items| - k
  {
    Render(v.items[k]) + (if k + 1 == |v.items| then [CLOSE_LIST] else [COMMA] + RenderItems(v, k + 1))
  }

  function RenderMembers(v: Value, k: nat): Text
    requires v.Object? && k < |v.members|
    decreases v, 0, |v.members| - k
  {
    [QUOTE] + StringTail(v.members[k].key) + [COLON] + Render(v.members[k].value) +
    (if k + 1 == |v.members| then [CLOSE_OBJECT] else [COMMA] + RenderMembers(v, k + 1))
  }

  // ---------------------------------------------------------------- reading

  predicate IsSpace(c: CodePoint) {
    c == 32 || c == 9 || c == 10 || c == 13
  }

  function SkipSpace(s: Text): (r: Text)
    ensures |r| <= |s|
  {
    if s != [] && IsSpace(s[0]) then SkipSpace(s[1..]) else s
  }

  predicate StartsWith(s: Text, p: Text) {
    |p| <= |s| && s[..|p|] == p
  }

  /** dict(pairs): a key met again takes the later value, in its first place. */
  function PutMember(ms: seq<Member>, m: Member): seq<Member> {
    if ms == [] then [m]
    else if ms[0].key == m.key then [m] + ms[1..]
    else [ms[0]] + PutMember(ms[1..], m)
  }

  function PutMembers(ms: seq<Member>): seq<Member> {
    if ms == [] then [] else PutMember(PutMembers(ms[..|ms| - 1]), ms[|ms| - 1])
  }

  function ReadScalar(s: Text): (r: Option<(Value, Text)>)
    ensures r.Some? ==> |r.value.1| < |s|
  {
    if StartsWith(s, NULL_TEXT) then Some((Null, s[4..]))
    else if StartsWith(s, TRUE_TEXT) then Some((Bool(true), s[4..]))
    else if StartsWith(s, FALSE_TEXT) then Some((Bool(false), s[5..]))
    else
      match ReadNumber(s)
      case None => None
      case Some((n, rest)) =>
        ReadsDecimals(s);
        match n
        case Whole(i) => Some((Int(i), rest))
        case Real(f) => Some((Float(f), rest))
  }

  function AsString(r: Option<(Text, Text)>): Option<(Value, Text)> {
    match r case None => None case Some((t, rest)) => Some((Str(t), rest))
  }

  function AsList(r: Option<(seq<Value>, Text)>): Option<(Value, Text)> {
    match r case None => None case Some((vs, rest)) => Some((Array(vs), rest))
  }

  function AsDict(r: Option<(seq<Member>, Text)>): Option<(Value, Text)> {
    match r case None => None case Some((ms, rest)) => Some((Object(PutMembers(ms)), rest))
  }

  function ReadValue(s: Text): (r: Option<(Value, Text)>)
    ensures r.Some? ==> |r.value.1| < |s|
    decreases |s|, 0
  {
    if s == [] then None
    else if s[0] == QUOTE then AsString(ReadString(s[1..]))
    else if s[0] == OPEN_LIST then
      var body := SkipSpace(s[1..]);
      if body != [] && body[0] == CLOSE_LIST then Some((Array([]), body[1..])) else AsList(ReadItems(body))
    else if s[0] == OPEN_OBJECT then
      var body := SkipSpace(s[1..]);
      if body != [] && body[0] == CLOSE_OBJECT then Some((Object([]), body[1..])) else AsDict(ReadMembers(body))
    else ReadScalar(s)
  }

  /** Items separated by commas, up to the closing bracket. */
  function ReadItems(s: Text): (r: Option<(seq<Value>, Text)>)
    ensures r.Some? ==> |r.value.1| < |s|
    decreases |s|, 1
  {
    match ReadValue(s)
    case None => None
    case Some((v, after)) =>
      var next := SkipSpace(after);
      if next == [] then None
      else if next[0] == CLOSE_LIST then Some(([v], next[1..]))
      else if next[0] == COMMA then
        match ReadItems(SkipSpace(next[1..]))
        case None => None
        case Some((vs, rest)) => Some(([v] + vs, rest))
      else None
  }

  /** A key, a colon and what follows them. */
  function ReadKey(s: Text): (r: Option<(Text, Text)>)
    ensures r.Some? ==> |r.value.1| < |s|
  {
    if s == [] || s[0] != QUOTE then None
    else
      match ReadString(s[1..])
      case None => None
      case Some((key, after)) =>
        var colon := SkipSpace(after);
        if colon == [] || colon[0] != COLON then None else Some((key, SkipSpace(colon[1..])))
  }

  function ReadMembers(s: Text): (r: Option<(seq<Member>, Text)>)
    ensures r.Some? ==> |r.value.1| < |s|
    decreases |s|, 1
  {
    match ReadKey(s)
    case None => None
    case Some((key, start)) =>
      match ReadValue(start)
      case None => None
      case Some((v, after)) =>
        var next := SkipSpace(after);
        if next == [] then None
        else if next[0] == CLOSE_OBJECT then Some(([Member(key, v)], next[1..]))
        else if next[0] == COMMA then
          match ReadMembers(SkipSpace(next[1..]))
          case None => None
          case Some((ms, rest)) => Some(([Member(key, v)] + ms, rest))
        else None
  }

  /** json.loads of a str: one value, with white space around it, and nothing else. */
  function Loads(s: Text): Option<Value> {
    match ReadValue(SkipSpace(s))
    case None => None
    case Some((v, rest)) => if SkipSpace(rest) == [] then Some(v) else None
  }

  // ---------------------------------------------------------------- round trip

  predicate StartsToken(s: Text) {
    s != [] && !IsSpace(s[0])
  }

  lemma {:induction false} PutNew(ms: seq<Member>, m: Member)
    requires forall x :: x in ms ==> x.key != m.key
    ensures PutMember(ms, m) == ms + [m]
  {
    if ms != [] {
      assert ms[0] in ms;
      PutNew(ms[1..], m);
      assert ms == [ms[0]] + ms[1..];
    }
  }

  /** Keys that climb are all new: building the dict keeps the pairs as read. */
  lemma {:induction false} PutClimbing(ms: seq<Member>)
    requires KeysClimb(ms)
    ensures PutMembers(ms) == ms
  {
    if ms != [] {
      var front, last := ms[..|ms| - 1], ms[|ms| - 1];
      PutClimbing(front);
      forall x | x in front
        ensures x.key != last.key
      {
        var i :| 0 <= i < |front| && front[i] == x;
        TextLessTotal(ms[i].key, last.key);
      }
      PutNew(front, last);
      assert ms == front + [last];
    }
  }

  lemma NumberStarts(v: Value)
    requires v.Int? || v.Float?
    ensures Render(v) != [] && (IsDigit(Render(v)[0]) || Render(v)[0] == MINUS)
  {
  }

  /** Every rendered value starts with a character that is not white space. */
  lemma RenderStarts(v: Value, rest: Text)
    ensures StartsToken(Render(v) + rest)
    ensures Render(v)[0] != CLOSE_LIST
  {
    if v.Int? || v.Float? {
      NumberStarts(v);
    }
  }

  lemma NumberBranch(s: Text)
    requires s != [] && (IsDigit(s[0]) || s[0] == MINUS)
    ensures ReadValue(s) == ReadScalar(s)
    ensures !StartsWith(s, NULL_TEXT) && !StartsWith(s, TRUE_TEXT) && !StartsWith(s, FALSE_TEXT)
  {
    assert |s| >= 4 ==> s[..4][0] == s[0];
    assert |s| >= 5 ==> s[..5][0] == s[0];
  }

  lemma ReadNumberToken(v: Value, rest: Text)
    requires (v.Int? || v.Float?) && EndsNumber(rest)
    ensures ReadValue(Render(v) + rest) == Some((v, rest))
  {
    var s := Render(v) + rest;
    NumberStarts(v);
    assert s[0] == Render(v)[0];
    NumberBranch(s);
    match v
    case Int(i) => IntRoundTrip(i, rest);
    case Float(f) => FloatRoundTrip(f, rest);
  }

  lemma ReadWord(v: Value, rest: Text)
    requires v.Null? || v.Bool?
    ensures ReadValue(Render(v) + rest) == Some((v, rest))
  {
    var s := Render(v) + rest;
    assert s[..|Render(v)|] == Render(v) && s[|Render(v)|..] == rest;
    assert s[0] == Render(v)[0];
    if v == Bool(false) {
      assert s[..4][0] == FALSE_TEXT[0];
    } else if v == Bool(true) {
      assert s[..4][0] == TRUE_TEXT[0];
    }
  }

  lemma ReadText(t: Text, rest: Text)
    ensures ReadValue(Render(Str(t)) + rest) == Some((Str(t), rest))
  {
    assert (Render(Str(t)) + rest)[1..] == StringTail(t) + rest;
    StringRoundTrip(t, rest);
  }

  lemma SkipNothing(s: Text)
    requires StartsToken(s)
    ensures SkipSpace(s) == s
  {
  }

  lemma {:induction false} ReadRenderedItems(v: Value, k: nat, rest: Text)
    requires v.Array? && IsCanonical(v) && k < |v.items|
    ensures ReadItems(RenderItems(v, k) + rest) == Some((v.items[k..], rest))
    decreases v, 0, |v.items| - k
  {
    var item := v.items[k];
    assert item in v.items;
    if k + 1 == |v.items| {
      var after := [CLOSE_LIST] + rest;
      assert RenderItems(v, k) + rest == Render(item) + after;
      ReadRendered(item, after);
      SkipNothing(after);
      assert after[1..] == rest && v.items[k..] == [item];
    } else {
      var next := RenderItems(v, k + 1) + rest;
      var after := [COMMA] + next;
      assert RenderItems(v, k) + rest == Render(item) + after;
      ReadRendered(item, after);
      SkipNothing(after);
      assert after[1..] == next;
      ItemsStart(v, k + 1, rest);
      SkipNothing(next);
      ReadRenderedItems(v, k + 1, rest);
      assert v.items[k..] == [item] + v.items[k + 1..];
    }
  }

  lemma ItemsStart(v: Value, k: nat, rest: Text)
    requires v.Array? && k < |v.items|
    ensures StartsToken(RenderItems(v, k) + rest) && RenderItems(v, k)[0] != CLOSE_LIST
  {
    RenderStarts(v.items[k], []);
    assert Render(v.items[k]) + [] == Render(v.items[k]);
  }

  lemma ReadRenderedKey(key: Text, rest: Text)
    requires StartsToken(rest)
    ensures ReadKey([QUOTE] + StringTail(key) + [COLON] + rest) == Some((key, rest))
  {
    var s := [QUOTE] + StringTail(key) + [COLON] + rest;
    var colon := [COLON] + rest;
    assert s[1..] == StringTail(key) + colon;
    StringRoundTrip(key, colon);
    SkipNothing(colon);
    assert colon[1..] == rest;
    SkipNothing(rest);
  }

  lemma MembersEnd(s: Text, m: Member, start: Text, rest: Text)
    requires ReadKey(s) == Some((m.key, start)) && ReadValue(start) == Some((m.value, [CLOSE_OBJECT] + rest))
    ensures ReadMembers(s) == Some(([m], rest))
  {
    SkipNothing([CLOSE_OBJECT] + rest);
    assert ([CLOSE_OBJECT] + rest)[1..] == rest;
  }

  lemma MembersMore(s: Text, m: Member, start: Text, next: Text, ms: seq<Member>, rest: Text)
    requires ReadKey(s) == Some((m.key, start)) && ReadValue(start) == Some((m.value, [COMMA] + next))
    requires StartsToken(next) && ReadMembers(next) == Some((ms, rest))
    ensures ReadMembers(s) == Some(([m] + ms, rest))
  {
    SkipNothing([COMMA] + next);
    assert ([COMMA] + next)[1..] == next;
    SkipNothing(next);
  }

  lemma LastMemberText(v: Value, k: nat, rest: Text)
    requires v.Object? && k + 1 == |v.members|
    ensures RenderMembers(v, k) + rest ==
            [QUOTE] + StringTail(v.members[k].key) + [COLON] + (Render(v.members[k].value) + ([CLOSE_OBJECT] + rest))
  {
    MemberLayout(v.members[k], [CLOSE_OBJECT], rest);
  }

  lemma NextMemberText(v: Value, k: nat, rest: Text)
    requires v.Object? && k + 1 < |v.members|
    ensures RenderMembers(v, k) + rest ==
            [QUOTE] + StringTail(v.members[k].key) + [COLON] +
            (Render(v.members[k].value) + ([COMMA] + (RenderMembers(v, k + 1) + rest)))
    ensures StartsToken(RenderMembers(v, k + 1) + rest)
  {
    MemberLayout(v.members[k], [COMMA] + RenderMembers(v, k + 1), rest);
    assert [COMMA] + RenderMembers(v, k + 1) + rest == [COMMA] + (RenderMembers(v, k + 1) + rest);
  }

  lemma {:induction false} ReadRenderedMembers(v: Value, k: nat, rest: Text)
    requires v.Object? && IsCanonical(v) && k < |v.members|
    ensures ReadMembers(RenderMembers(v, k) + rest) == Some((v.members[k..], rest))
    decreases v, 0, |v.members| - k
  {
    var m := v.members[k];
    assert m in v.members;
    if k + 1 == |v.members| {
      var after := [CLOSE_OBJECT] + rest;
      ReadMember(m, after);
      LastMemberText(v, k, rest);
      MembersEnd(RenderMembers(v, k) + rest, m, Render(m.value) + after, rest);
      assert v.members[k..] == [m];
    } else {
      var next := RenderMembers(v, k + 1) + rest;
      ReadMember(m, [COMMA] + next);
      NextMemberText(v, k, rest);
      ReadRenderedMembers(v, k + 1, rest);
      MembersMore(RenderMembers(v, k) + rest, m, Render(m.value) + ([COMMA] + next), next, v.members[k + 1..], rest);
      assert v.members[k..] == [m] + v.members[k + 1..];
    }
  }

  lemma MemberLayout(m: Member, tail: Text, rest: Text)
    ensures [QUOTE] + StringTail(m.key) + [COLON] + Render(m.value) + tail + rest ==
            [QUOTE] + StringTail(m.key) + [COLON] + (Render(m.value) + (tail + rest))
  {
  }

  /** Reading one member: its key, then its value. */
  lemma {:induction false} ReadMember(m: Member, after: Text)
    requires IsCanonical(m.value) && EndsNumber(after)
    ensures ReadKey([QUOTE] + StringTail(m.key) + [COLON] + (Render(m.value) + after)) ==
            Some((m.key, Render(m.value) + after))
    ensures ReadValue(Render(m.value) + after) == Some((m.value, after))
    decreases m.value, 3
  {
    RenderStarts(m.value, after);
    ReadRenderedKey(m.key, Render(m.value) + after);
    ReadRendered(m.value, after);
  }

  lemma {:induction false} ReadRenderedArray(v: Value, rest: Text)
    requires v.Array? && IsCanonical(v)
    ensures ReadValue(Render(v) + rest) == Some((v, rest))
    decreases v, 1
  {
    var s := Render(v) + rest;
    if v.items == [] {
      assert s[1..] == [CLOSE_LIST] + rest && s[1..][1..] == rest;
    } else {
      var body := RenderItems(v, 0) + rest;
      assert s[1..] == body;
      ItemsStart(v, 0, rest);
      SkipNothing(body);
      ReadRenderedItems(v, 0, rest);
      assert v.items[0..] == v.items;
    }
  }

  lemma {:induction false} ReadRenderedObject(v: Value, rest: Text)
    requires v.Object? && IsCanonical(v)
    ensures ReadValue(Render(v) + rest) == Some((v, rest))
    decreases v, 1
  {
    var s := Render(v) + rest;
    if v.members == [] {
      assert s[1..] == [CLOSE_OBJECT] + rest && s[1..][1..] == rest;
    } else {
      var body := RenderMembers(v, 0) + rest;
      assert s[1..] == body;
      SkipNothing(body);
      ReadRenderedMembers(v, 0, rest);
      assert v.members[0..] == v.members;
      PutClimbing(v.members);
    }
  }

  /** The reader undoes the printer, whatever follows that cannot continue a number. */
  lemma {:induction false} ReadRendered(v: Value, rest: Text)
    requires IsCanonical(v) && EndsNumber(rest)
    ensures ReadValue(Render(v) + rest) == Some((v, rest))
    decreases v, 2
  {
    match v
    case Str(t) => ReadText(t, rest);
    case Array(_) => ReadRenderedArray(v, rest);
    case Object(_) => ReadRenderedObject(v, rest);
    case Null => ReadWord(v, rest);
    case Bool(_) => ReadWord(v, rest);
    case _ => ReadNumberToken(v, rest);
  }

  lemma LoadsUndoesRender(v: Value)
    requires IsCanonical(v)
    ensures Loads(Render(v)) == Some(v)
  {
    RenderStarts(v, []);
    assert Render(v) + [] == Render(v);
    SkipNothing(Render(v));
    ReadRendered(v, []);
  }

  // ---------------------------------------------------------------- bytes

  /** canonical_dumps: canonicalize, print, encode. */
  function CanonicalDumps(v: PyValue): Result<seq<Byte>, Error> {
    match Canonicalize(v)
    case Err(e) => Err(e)
    case Ok(canonical) =>
      match Encode(Render(canonical))
      case None => Err(Surrogate)
      case Some(bytes) => Ok(bytes)
  }

  /** json.loads(raw.decode("utf-8")). */
  function LoadBytes(bytes: seq<Byte>): Option<Value> {
    match Decode(bytes)
    case None => None
    case Some(text) => Loads(text)
  }

  /** What canonical_dumps wrote reads back as canonicalize(v). */
  lemma DumpsRoundTrip(v: PyValue)
    requires IsPython(v) && CanonicalDumps(v).Ok?
    ensures Canonicalize(v).Ok? && LoadBytes(CanonicalDumps(v).value) == Some(Canonicalize(v).value)
  {
    var canonical := Canonicalize(v).value;
    CanonicalizeIsCanonical(v);
    Utf8RoundTrip(Render(canonical));
    LoadsUndoesRender(canonical);
  }

  // A surrogate is never produced by an escape, so the text has one only where a string
  // or a key of the value has.

  ghost predicate Dirty(t: Text) {
    exists i :: 0 <= i < |t| && IsSurrogate(t[i])
  }

  lemma DirtyConcat(a: Text, c: Text)
    ensures Dirty(a + c) <==> Dirty(a) || Dirty(c)
  {
    if Dirty(a + c) {
      var i :| 0 <= i < |a + c| && IsSurrogate((a + c)[i]);
      if i < |a| {
        assert IsSurrogate(a[i]);
      } else {
        assert IsSurrogate(c[i - |a|]);
      }
    }
    if Dirty(a) {
      var i :| 0 <= i < |a| && IsSurrogate(a[i]);
      assert IsSurrogate((a + c)[i]);
    }
    if Dirty(c) {
      var i :| 0 <= i < |c| && IsSurrogate(c[i]);
      assert IsSurrogate((a + c)[|a| + i]);
    }
  }

  lemma DirtyEscaped(c: CodePoint)
    ensures Dirty(Escaped(c)) <==> IsSurrogate(c)
  {
    if IsSurrogate(c) {
      assert IsSurrogate(Escaped(c)[0]);
    }
  }

  lemma DirtyCons(t: Text)
    requires t != []
    ensures Dirty(t) <==> IsSurrogate(t[0]) || Dirty(t[1..])
  {
    assert t == [t[0]] + t[1..];
    DirtyConcat([t[0]], t[1..]);
    assert Dirty([t[0]]) <==> IsSurrogate([t[0]][0]);
  }

  lemma {:induction false} DirtyTail(t: Text)
    ensures Dirty(StringTail(t)) <==> Dirty(t)
  {
    if t != [] {
      DirtyCons(t);
      DirtyEscaped(t[0]);
      DirtyTail(t[1..]);
      DirtyConcat(Escaped(t[0]), StringTail(t[1..]));
    }
  }

  /** Some string or key in the value has a lone surrogate. */
  ghost predicate HasSurrogate(v: Value)
    decreases v
  {
    match v
    case Str(t) => Dirty(t)
    case Array(items) => exists i :: 0 <= i < |items| && HasSurrogate(items[i])
    case Object(members) => exists i :: 0 <= i < |members| && (Dirty(members[i].key) || HasSurrogate(members[i].value))
    case _ => false
  }

  lemma {:induction false} DigitsClean(ds: seq<Digit>)
    ensures !Dirty(Shown(ds))
  {
  }

  lemma NumbersClean(v: Value)
    requires v.Int? || v.Float?
    ensures !Dirty(Render(v))
  {
    match v
    case Int(i) =>
    case Float(f) => FloatClean(f);
  }

  lemma FixedClean(f: Decimal)
    ensures !Dirty(FixedText(f))
  {
    DirtyConcat(Shown(FixedParts(f).0) + [DOT], Shown(FixedParts(f).1));
    DirtyConcat(Shown(FixedParts(f).0), [DOT]);
  }

  lemma PowerClean(e: int)
    ensures !Dirty([SMALL_E] + PowerText(e))
  {
  }

  lemma FractionClean(ds: seq<Digit>)
    ensures !Dirty(FractionText(ds))
  {
    DirtyConcat([DOT], Shown(ds));
  }

  lemma CleanThree(a: Text, c: Text, e: Text)
    requires !Dirty(a) && !Dirty(c) && !Dirty(e)
    ensures !Dirty(a + c + e)
  {
    DirtyConcat(a, c);
    DirtyConcat(a + c, e);
  }

  lemma ExponentClean(f: Decimal)
    requires f.digits != []
    ensures !Dirty(ExponentText(f))
  {
    DigitsClean(f.digits[..1]);
    FractionClean(f.digits[1..]);
    PowerClean(f.point - 1);
    CleanThree(Shown(f.digits[..1]), FractionText(f.digits[1..]), [SMALL_E] + PowerText(f.point - 1));
  }

  lemma FloatClean(f: FiniteFloat)
    ensures !Dirty(FloatText(f))
  {
    var t := if f.point <= -4 || f.point > 16 then ExponentText(f) else FixedText(f);
    if f.point <= -4 || f.point > 16 {
      ExponentClean(f);
    } else {
      FixedClean(f);
    }
    DirtyConcat([MINUS], t);
  }

  lemma {:induction false} DirtyItems(v: Value, k: nat)
    requires v.Array? && k < |v.items|
    ensures Dirty(RenderItems(v, k)) <==> exists i :: k <= i < |v.items| && HasSurrogate(v.items[i])
    decreases v, 0, |v.items| - k
  {
    DirtyRender(v.items[k]);
    if k + 1 == |v.items| {
      DirtyConcat(Render(v.items[k]), [CLOSE_LIST]);
    } else {
      DirtyItems(v, k + 1);
      DirtyConcat([COMMA], RenderItems(v, k + 1));
      DirtyConcat(Render(v.items[k]), [COMMA] + RenderItems(v, k + 1));
    }
  }

  lemma {:induction false} DirtyMember(m: Member, tail: Text)
    ensures Dirty([QUOTE] + StringTail(m.key) + [COLON] + Render(m.value) + tail) <==>
            Dirty(m.key) || HasSurrogate(m.value) || Dirty(tail)
    decreases m.value, 3
  {
    var a := [QUOTE] + StringTail(m.key);
    DirtyRender(m.value);
    DirtyTail(m.key);
    DirtyConcat([QUOTE], StringTail(m.key));
    DirtyConcat(a, [COLON]);
    DirtyConcat(a + [COLON], Render(m.value));
    DirtyConcat(a + [COLON] + Render(m.value), tail);
  }

  lemma {:induction false} DirtyMembers(v: Value, k: nat)
    requires v.Object? && k < |v.members|
    ensures Dirty(RenderMembers(v, k)) <==>
      exists i :: k <= i < |v.members| && (Dirty(v.members[i].key) || HasSurrogate(v.members[i].value))
    decreases v, 0, |v.members| - k
  {
    if k + 1 == |v.members| {
      DirtyMember(v.members[k], [CLOSE_OBJECT]);
    } else {
      DirtyMembers(v, k + 1);
      DirtyConcat([COMMA], RenderMembers(v, k + 1));
      DirtyMember(v.members[k], [COMMA] + RenderMembers(v, k + 1));
    }
  }

  lemma {:induction false} DirtyRender(v: Value)
    ensures Dirty(Render(v)) <==> HasSurrogate(v)
    decreases v, 2
  {
    match v
    case Str(t) =>
      DirtyTail(t);
      DirtyConcat([QUOTE], StringTail(t));
    case Array(items) =>
      if items != [] {
        DirtyItems(v, 0);
        DirtyConcat([OPEN_LIST], RenderItems(v, 0));
      }
    case Object(members) =>
      if members != [] {
        DirtyMembers(v, 0);
        DirtyConcat([OPEN_OBJECT], RenderMembers(v, 0));
      }
    case Null =>
    case Bool(_) =>
    case _ => NumbersClean(v);
  }

  /** A value that canonicalizes fails to encode exactly when some string or key in it
      has a lone surrogate. */
  lemma DumpsFailsExactly(v: PyValue)
    requires Canonicalize(v).Ok?
    ensures CanonicalDumps(v).Err? <==> HasSurrogate(Canonicalize(v).value)
    ensures CanonicalDumps(v).Err? ==> CanonicalDumps(v).error == Surrogate
  {
    EncodeFailsExactly(Render(Canonicalize(v).value));
    DirtyRender(Canonicalize(v).value);
  }

  /** Two accepted values have the same bytes exactly when they have the same content:
      the encoding ignores nothing but list against tuple and the order of dict keys. */
  lemma SameBytesExactly(v: PyValue, w: PyValue)
    requires IsPython(v) && IsPython(w) && CanonicalDumps(v).Ok? && CanonicalDumps(w).Ok?
    ensures CanonicalDumps(v) == CanonicalDumps(w) <==> SameValue(v, w)
  {
    if SameValue(v, w) {
      InsertionOrderIgnored(v, w);
    }
    if CanonicalDumps(v) == CanonicalDumps(w) {
      DumpsRoundTrip(v);
      DumpsRoundTrip(w);
      SameStructureSameValue(v, w);
    }
  }

  /** Loading and dumping again writes the same bytes. */
  lemma DumpsIsStable(v: PyValue)
    requires IsPython(v) && CanonicalDumps(v).Ok?
    ensures LoadBytes(CanonicalDumps(v).value).Some?
    ensures CanonicalDumps(AsPy(LoadBytes(CanonicalDumps(v).value).value)) == CanonicalDumps(v)
  {
    DumpsRoundTrip(v);
    CanonicalizeIsCanonical(v);
    CanonicalIsSettled(Canonicalize(v).value);
  }
}
