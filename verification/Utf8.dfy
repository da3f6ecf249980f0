/**
 Text as Python keeps it, a list of code points in which lone surrogates may occur,
 and its strict UTF-8 encoding (RFC 3629).
 */
module Utf8 {
  import opened Prelude

  type CodePoint = c: int | 0 <= c < 0x11_0000

  type Text = seq<CodePoint>

  type Byte = b: int | 0 <= b < 256

  predicate IsSurrogate(c: CodePoint) {
    0xD800 <= c < 0xE000
  }

  function EncodePoint(c: CodePoint): (bs: seq<Byte>)
    ensures 1 <= |bs| <= 4
  {
    if c < 0x80 then [c]
    else if c < 0x800 then [0xC0 + c / 64, 0x80 + c % 64]
    else if c < 0x1_0000 then [0xE0 + c / 4096, 0x80 + c / 64 % 64, 0x80 + c % 64]
    else [0xF0 + c / 262144, 0x80 + c / 4096 % 64, 0x80 + c / 64 % 64, 0x80 + c % 64]
  }

  /** str.encode("utf-8"): a surrogate anywhere makes it raise. */
  function Encode(t: Text): Option<seq<Byte>> {
    if t == [] then Some([])
    else if IsSurrogate(t[0]) then None
    else
      match Encode(t[1..])
      case None => None
      case Some(bs) => Some(EncodePoint(t[0]) + bs)
  }

  function Point2(a: int, b: int): int {
    (a - 0xC0) * 64 + (b - 0x80)
  }

  function Point3(a: int, b: int, c: int): int {
    (a - 0xE0) * 4096 + (b - 0x80) * 64 + (c - 0x80)
  }

  function Point4(a: int, b: int, c: int, d: int): int {
    (a - 0xF0) * 262144 + (b - 0x80) * 4096 + (c - 0x80) * 64 + (d - 0x80)
  }

  predicate Continues(bs: seq<Byte>, n: nat) {
    n < |bs| && 0x80 <= bs[n] < 0xC0
  }

  /** bytes.decode("utf-8"): overlong forms, surrogates and stray bytes make it raise. */
  function Decode(bs: seq<Byte>): Option<Text>
    decreases |bs|
  {
    if bs == [] then Some([])
    else if bs[0] < 0x80 then Prepend(bs[0], Decode(bs[1..]))
    else if 0xC2 <= bs[0] < 0xE0 && Continues(bs, 1) then
      Prepend(Point2(bs[0], bs[1]), Decode(bs[2..]))
    else if 0xE0 <= bs[0] < 0xF0 && Continues(bs, 1) && Continues(bs, 2) then
      var c := Point3(bs[0], bs[1], bs[2]);
      if c < 0x800 || 0xD800 <= c < 0xE000 then None else Prepend(c, Decode(bs[3..]))
    else if 0xF0 <= bs[0] < 0xF8 && Continues(bs, 1) && Continues(bs, 2) && Continues(bs, 3) then
      var c := Point4(bs[0], bs[1], bs[2], bs[3]);
      if c < 0x1_0000 || c >= 0x11_0000 then None else Prepend(c, Decode(bs[4..]))
    else None
  }

  function Prepend(c: CodePoint, rest: Option<Text>): Option<Text> {
    match rest
    case None => None
    case Some(t) => Some([c] + t)
  }

  lemma Split2(c: int)
    requires 0x80 <= c < 0x800
    ensures 2 <= c / 64 < 32 && Point2(0xC0 + c / 64, 0x80 + c % 64) == c
  {
  }

  lemma Split3(c: int)
    requires 0x800 <= c < 0x1_0000
    ensures 0 <= c / 4096 < 16 && Point3(0xE0 + c / 4096, 0x80 + c / 64 % 64, 0x80 + c % 64) == c
  {
    assert c / 64 / 64 == c / 4096;
  }

  lemma Split4(c: int)
    requires 0x1_0000 <= c < 0x11_0000
    ensures 0 <= c / 262144 < 8
    ensures Point4(0xF0 + c / 262144, 0x80 + c / 4096 % 64, 0x80 + c / 64 % 64, 0x80 + c % 64) == c
  {
    assert c / 64 / 64 == c / 4096;
    assert c / 4096 / 64 == c / 262144;
  }

  lemma DecodeShort(c: CodePoint, rest: seq<Byte>)
    requires c < 0x800
    ensures Decode(EncodePoint(c) + rest) == Prepend(c, Decode(rest))
  {
    var bs := EncodePoint(c) + rest;
    assert bs[|EncodePoint(c)|..] == rest;
    if c >= 0x80 {
      Split2(c);
      assert bs[0] == 0xC0 + c / 64 && bs[1] == 0x80 + c % 64;
    }
  }

  lemma DecodeThree(c: CodePoint, rest: seq<Byte>)
    requires 0x800 <= c < 0x1_0000 && !IsSurrogate(c)
    ensures Decode(EncodePoint(c) + rest) == Prepend(c, Decode(rest))
  {
    var bs := EncodePoint(c) + rest;
    Split3(c);
    assert bs[0] == 0xE0 + c / 4096 && bs[1] == 0x80 + c / 64 % 64 && bs[2] == 0x80 + c % 64;
    assert bs[3..] == rest;
  }

  lemma DecodeFour(c: CodePoint, rest: seq<Byte>)
    requires 0x1_0000 <= c
    ensures Decode(EncodePoint(c) + rest) == Prepend(c, Decode(rest))
  {
    var bs := EncodePoint(c) + rest;
    Split4(c);
    assert bs[0] == 0xF0 + c / 262144 && bs[1] == 0x80 + c / 4096 % 64;
    assert bs[2] == 0x80 + c / 64 % 64 && bs[3] == 0x80 + c % 64;
    assert bs[4..] == rest;
  }

  lemma DecodePoint(c: CodePoint, rest: seq<Byte>)
    requires !IsSurrogate(c)
    ensures Decode(EncodePoint(c) + rest) == Prepend(c, Decode(rest))
  {
    if c < 0x800 {
      DecodeShort(c, rest);
    } else if c < 0x1_0000 {
      DecodeThree(c, rest);
    } else {
      DecodeFour(c, rest);
    }
  }

  /** What can be encoded decodes to itself. */
  lemma {:induction false} Utf8RoundTrip(t: Text)
    requires Encode(t).Some?
    ensures Decode(Encode(t).value) == Some(t)
  {
    if t != [] {
      Utf8RoundTrip(t[1..]);
      DecodePoint(t[0], Encode(t[1..]).value);
      assert t == [t[0]] + t[1..];
    }
  }

  lemma {:induction false} EncodeFailsExactly(t: Text)
    ensures Encode(t).None? <==> exists i :: 0 <= i < |t| && IsSurrogate(t[i])
  {
    if t != [] {
      EncodeFailsExactly(t[1..]);
      if exists i :: 0 <= i < |t| && IsSurrogate(t[i]) {
        var i :| 0 <= i < |t| && IsSurrogate(t[i]);
        if i > 0 {
          assert IsSurrogate(t[1..][i - 1]);
        }
      }
      if Encode(t).None? && !IsSurrogate(t[0]) {
        var i :| 0 <= i < |t[1..]| && IsSurrogate(t[1..][i]);
        assert IsSurrogate(t[i + 1]);
      }
    }
  }
}
