/**
 The Unicode codecs of miniutf.cpp: encoding and decoding one code point, validity, and the whole
 string conversions. Shifts and masks on disjoint bit fields are written as division, remainder and
 sum. A UTF-8 string is valid as miniutf.hpp defines it: surrogate code points are allowed.
 */
module Utf {
  import opened Bytes

  type unit = u: int | 0 <= u < 0x1_0000
  type point = p: int | 0 <= p < 0x1_0000_0000

  const REPLACEMENT: point := 0xFFFD

  /** A decoded code point and the number of code units it took. */
  datatype Decoded = Decoded(len: nat, pt: point)

  // ---------- One code point ----------

  function Encode8(pt: point): (b: seq<byte>)
    ensures 1 <= |b| <= 4
  {
    if pt < 0x80 then [pt]
    else if pt < 0x800 then [0xC0 + pt / 0x40, 0x80 + pt % 0x40]
    else if pt < 0x1_0000 then [0xE0 + pt / 0x1000, 0x80 + pt / 0x40 % 0x40, 0x80 + pt % 0x40]
    else if pt < 0x11_0000 then
      [0xF0 + pt / 0x4_0000, 0x80 + pt / 0x1000 % 0x40, 0x80 + pt / 0x40 % 0x40, 0x80 + pt % 0x40]
    else [0xEF, 0xBF, 0xBD]
  }

  function Encode16(pt: point): (u: seq<unit>)
    ensures 1 <= |u| <= 2
  {
    if pt < 0x1_0000 then [pt]
    else if pt < 0x11_0000 then [0xD800 + (pt - 0x1_0000) / 0x400, 0xDC00 + pt % 0x400]
    else [REPLACEMENT]
  }

  /** Indexing one past the end of a string reads 0. */
  function ByteAt(s: seq<byte>, i: nat): byte {
    if i < |s| then s[i] else 0
  }

  function UnitAt(s: seq<unit>, i: nat): unit {
    if i < |s| then s[i] else 0
  }

  predicate IsContinuation(b: byte) {
    b / 0x40 == 2
  }

  /** utf8_decode_check (miniutf.cpp:84-128); None is invalid_pt. */
  function Check8At(s: seq<byte>, i: nat): (r: Option<Decoded>)
    requires i < |s|
    ensures r.Some? ==> 1 <= r.value.len <= 4 && i + r.value.len <= |s| && r.value.pt < 0x11_0000
  {
    var b0, b1, b2, b3 := s[i], ByteAt(s, i + 1), ByteAt(s, i + 2), ByteAt(s, i + 3);
    if b0 < 0x80 then Some(Decoded(1, b0))
    else if b0 < 0xC0 then None
    else if b0 < 0xE0 then
      if !IsContinuation(b1) then None
      else
        var pt := b0 as int % 0x20 * 0x40 + b1 as int % 0x40;
        if pt < 0x80 then None else Some(Decoded(2, pt))
    else if b0 < 0xF0 then
      if !IsContinuation(b1) || !IsContinuation(b2) then None
      else
        var pt := b0 as int % 0x10 * 0x1000 + b1 as int % 0x40 * 0x40 + b2 as int % 0x40;
        if pt < 0x800 then None else Some(Decoded(3, pt))
    else if b0 < 0xF8 then
      if !IsContinuation(b1) || !IsContinuation(b2) || !IsContinuation(b3) then None
      else
        var pt := b0 as int % 0x10 * 0x4_0000 + b1 as int % 0x40 * 0x1000 + b2 as int % 0x40 * 0x40 + b3 as int % 0x40;
        if pt < 0x1_0000 || pt >= 0x11_0000 then None else Some(Decoded(4, pt))
    else None
  }

  predicate IsHigh(u: unit) {
    0xD800 <= u < 0xDC00
  }

  predicate IsLow(u: unit) {
    0xDC00 <= u < 0xE000
  }

  /** utf16_decode_check (miniutf.cpp:141-153). */
  function Check16At(s: seq<unit>, i: nat): (r: Option<Decoded>)
    requires i < |s|
    ensures r.Some? ==> 1 <= r.value.len <= 2 && i + r.value.len <= |s| && r.value.pt < 0x11_0000
  {
    if IsHigh(s[i]) && IsLow(UnitAt(s, i + 1)) then
      Some(Decoded(2, (s[i] as int - 0xD800) * 0x400 + (UnitAt(s, i + 1) as int - 0xDC00) + 0x1_0000))
    else if IsHigh(s[i]) || IsLow(s[i]) then None
    else Some(Decoded(1, s[i]))
  }

  /** utf8_decode and utf16_decode: an invalid unit is one replacement character. */
  function Or(r: Option<Decoded>): Decoded {
    if r.Some? then r.value else Decoded(1, REPLACEMENT)
  }

  // ---------- Whole strings ----------

  predicate Valid8(s: seq<byte>, i: nat)
    requires i <= |s|
    decreases |s| - i
  {
    i == |s| || (Check8At(s, i).Some? && Valid8(s, i + Check8At(s, i).value.len))
  }

  predicate Valid16(s: seq<unit>, i: nat)
    requires i <= |s|
    decreases |s| - i
  {
    i == |s| || (Check16At(s, i).Some? && Valid16(s, i + Check16At(s, i).value.len))
  }

  /** The code points of s from i on, invalid bytes replaced one by one. */
  function Points8(s: seq<byte>, i: nat): (r: seq<point>)
    requires i <= |s|
    ensures forall k :: 0 <= k < |r| ==> r[k] < 0x11_0000
    decreases |s| - i
  {
    if i == |s| then [] else [Or(Check8At(s, i)).pt] + Points8(s, i + Or(Check8At(s, i)).len)
  }

  function Points16(s: seq<unit>, i: nat): (r: seq<point>)
    requires i <= |s|
    ensures forall k :: 0 <= k < |r| ==> r[k] < 0x11_0000
    decreases |s| - i
  {
    if i == |s| then [] else [Or(Check16At(s, i)).pt] + Points16(s, i + Or(Check16At(s, i)).len)
  }

  function EncodeAll8(ps: seq<point>): seq<byte> {
    if ps == [] then [] else Encode8(ps[0]) + EncodeAll8(ps[1..])
  }

  function EncodeAll16(ps: seq<point>): seq<unit> {
    if ps == [] then [] else Encode16(ps[0]) + EncodeAll16(ps[1..])
  }

  // ---------- Encoding and decoding one code point are inverse ----------

  predicate StandsAt<T(==)>(s: seq<T>, i: nat, b: seq<T>) {
    i + |b| <= |s| && s[i..i + |b|] == b
  }

  lemma StandsIndexed<T>(s: seq<T>, i: nat, b: seq<T>)
    ensures StandsAt(s, i, b) <==> i + |b| <= |s| && forall k :: 0 <= k < |b| ==> s[i + k] == b[k]
  {
    if i + |b| <= |s| {
      var part := s[i..i + |b|];
      assert forall k :: 0 <= k < |b| ==> part[k] == s[i + k];
    }
  }

  lemma Digits3(a: int, b: int, c: int, v: int)
    requires 0 <= b < 0x40 && 0 <= c < 0x40
    ensures a * 0x1000 + b * 0x40 + c == v <==> a == v / 0x1000 && b == v / 0x40 % 0x40 && c == v % 0x40
  {
    var q := v / 0x40;
    assert v == q * 0x40 + v % 0x40;
    assert q / 0x40 == v / 0x1000;
    assert q == q / 0x40 * 0x40 + q % 0x40;
  }

  lemma Digits4(a: int, b: int, c: int, d: int, v: int)
    requires 0 <= b < 0x40 && 0 <= c < 0x40 && 0 <= d < 0x40
    ensures a * 0x4_0000 + b * 0x1000 + c * 0x40 + d == v <==>
              a == v / 0x4_0000 && b == v / 0x1000 % 0x40 && c == v / 0x40 % 0x40 && d == v % 0x40
  {
    var h := v / 0x40;
    assert v == h * 0x40 + v % 0x40;
    assert h / 0x1000 == v / 0x4_0000 && h / 0x40 == v / 0x1000;
    Digits3(a, b, c, h);
  }

  lemma Decode8One(s: seq<byte>, i: nat, pt: point)
    requires i < |s| && pt < 0x80
    ensures Check8At(s, i) == Some(Decoded(1, pt)) <==> StandsAt(s, i, Encode8(pt))
  {
    StandsIndexed(s, i, Encode8(pt));
  }

  lemma Decode8Two(s: seq<byte>, i: nat, pt: point)
    requires i < |s| && 0x80 <= pt < 0x800
    ensures Check8At(s, i) == Some(Decoded(2, pt)) <==> StandsAt(s, i, Encode8(pt))
  {
    var b := Encode8(pt);
    StandsIndexed(s, i, b);
    assert pt == pt / 0x40 * 0x40 + pt % 0x40;
    hide StandsAt;
    if i + 2 <= |s| && (forall k :: 0 <= k < 2 ==> s[i + k] == b[k]) {
      assert s[i + 0] == b[0] && s[i + 1] == b[1];
    }
  }

  lemma Decode8Three(s: seq<byte>, i: nat, pt: point)
    requires i < |s| && 0x800 <= pt < 0x1_0000
    ensures Check8At(s, i) == Some(Decoded(3, pt)) <==> StandsAt(s, i, Encode8(pt))
  {
    var b := Encode8(pt);
    StandsIndexed(s, i, b);
    hide StandsAt;
    if i + 3 <= |s| {
      assert (forall k :: 0 <= k < 3 ==> s[i + k] == b[k]) <==> s[i + 0] == b[0] && s[i + 1] == b[1] && s[i + 2] == b[2];
      Digits3(s[i] as int % 0x10, s[i + 1] as int % 0x40, s[i + 2] as int % 0x40, pt);
    }
  }

  lemma Decode8Four(s: seq<byte>, i: nat, pt: point)
    requires i < |s| && 0x1_0000 <= pt < 0x11_0000
    ensures Check8At(s, i) == Some(Decoded(4, pt)) <==> StandsAt(s, i, Encode8(pt))
  {
    var b := Encode8(pt);
    StandsIndexed(s, i, b);
    hide StandsAt;
    if i + 4 <= |s| {
      assert (forall k :: 0 <= k < 4 ==> s[i + k] == b[k]) <==>
             s[i + 0] == b[0] && s[i + 1] == b[1] && s[i + 2] == b[2] && s[i + 3] == b[3];
      Digits4(s[i] as int % 0x10, s[i + 1] as int % 0x40, s[i + 2] as int % 0x40, s[i + 3] as int % 0x40, pt);
    }
  }

  /** A code point is decoded at a position exactly when its encoding stands there. */
  lemma {:induction false} DecodeIffEncoded(s: seq<byte>, i: nat, pt: point)
    requires i < |s| && pt < 0x11_0000
    ensures Check8At(s, i) == Some(Decoded(|Encode8(pt)|, pt)) <==> StandsAt(s, i, Encode8(pt))
  {
    if pt < 0x80 {
      Decode8One(s, i, pt);
    } else if pt < 0x800 {
      Decode8Two(s, i, pt);
    } else if pt < 0x1_0000 {
      Decode8Three(s, i, pt);
    } else {
      Decode8Four(s, i, pt);
    }
    hide Check8At;
    hide StandsAt;
  }

  lemma LengthMatches(s: seq<byte>, i: nat)
    requires i < |s| && Check8At(s, i).Some?
    ensures Check8At(s, i).value.len == |Encode8(Check8At(s, i).value.pt)|
  {
  }

  /** What was decoded is what stood there. */
  lemma {:induction false} DecodedStands(s: seq<byte>, i: nat)
    requires i < |s| && Check8At(s, i).Some?
    ensures StandsAt(s, i, Encode8(Check8At(s, i).value.pt))
    ensures Check8At(s, i).value.len == |Encode8(Check8At(s, i).value.pt)|
  {
    hide *;
    LengthMatches(s, i);
    DecodeIffEncoded(s, i, Check8At(s, i).value.pt);
  }

  // ---------- The encodings as their standards draw them ----------

  /**
   The table of section 3 of RFC 3629, surrogates included: the bytes carry the bits of the code point
   behind the markers of their number, and no shorter row fits it.
   */
  predicate Utf8Form(b: seq<byte>, pt: point) {
    || (|b| == 1 && pt < 0x80 && b[0] == pt)
    || (|b| == 2 && 0x80 <= pt < 0x800 && 0xC0 <= b[0] < 0xE0 && 0x80 <= b[1] < 0xC0
        && pt == (b[0] as int - 0xC0) * 0x40 + (b[1] as int - 0x80))
    || (|b| == 3 && 0x800 <= pt < 0x1_0000 && 0xE0 <= b[0] < 0xF0 && 0x80 <= b[1] < 0xC0 && 0x80 <= b[2] < 0xC0
        && pt == (b[0] as int - 0xE0) * 0x1000 + (b[1] as int - 0x80) * 0x40 + (b[2] as int - 0x80))
    || (|b| == 4 && 0x1_0000 <= pt < 0x11_0000 && 0xF0 <= b[0] < 0xF8
        && 0x80 <= b[1] < 0xC0 && 0x80 <= b[2] < 0xC0 && 0x80 <= b[3] < 0xC0
        && pt == (b[0] as int - 0xF0) * 0x4_0000 + (b[1] as int - 0x80) * 0x1000 + (b[2] as int - 0x80) * 0x40 + (b[3] as int - 0x80))
  }

  /** A code point has exactly one encoding of that form, and it is what is written; what is no code point becomes U+FFFD. */
  lemma {:induction false} Encode8Form(b: seq<byte>, pt: point)
    ensures pt < 0x11_0000 ==> (Utf8Form(b, pt) <==> b == Encode8(pt))
    ensures pt >= 0x11_0000 ==> Encode8(pt) == [0xEF, 0xBF, 0xBD]
  {
    if pt < 0x80 {
    } else if pt < 0x800 {
      assert pt == pt / 0x40 * 0x40 + pt % 0x40;
    } else if pt < 0x1_0000 {
      if |b| == 3 && 0x80 <= b[1] < 0xC0 && 0x80 <= b[2] < 0xC0 {
        Digits3(b[0] as int - 0xE0, b[1] as int - 0x80, b[2] as int - 0x80, pt);
      }
    } else if pt < 0x11_0000 {
      if |b| == 4 && 0x80 <= b[1] < 0xC0 && 0x80 <= b[2] < 0xC0 && 0x80 <= b[3] < 0xC0 {
        Digits4(b[0] as int - 0xF0, b[1] as int - 0x80, b[2] as int - 0x80, b[3] as int - 0x80, pt);
      }
    }
  }

  /** Section 2.1 of RFC 2781: a unit of its own, or a high and a low surrogate with ten bits each. */
  predicate Utf16Form(u: seq<unit>, pt: point) {
    || (|u| == 1 && pt < 0x1_0000 && u[0] == pt)
    || (|u| == 2 && 0x1_0000 <= pt < 0x11_0000 && 0xD800 <= u[0] < 0xDC00 && 0xDC00 <= u[1] < 0xE000
        && pt == 0x1_0000 + (u[0] as int - 0xD800) * 0x400 + (u[1] as int - 0xDC00))
  }

  lemma {:induction false} Encode16Form(u: seq<unit>, pt: point)
    ensures pt < 0x11_0000 ==> (Utf16Form(u, pt) <==> u == Encode16(pt))
    ensures pt >= 0x11_0000 ==> Encode16(pt) == [0xFFFD]
  {
    if 0x1_0000 <= pt < 0x11_0000 {
      var v := pt - 0x1_0000;
      assert v == v / 0x400 * 0x400 + v % 0x400 && v % 0x400 == pt % 0x400;
      if |u| == 2 && 0xDC00 <= u[1] < 0xE000 && v == (u[0] as int - 0xD800) * 0x400 + (u[1] as int - 0xDC00) {
        assert v / 0x400 == u[0] as int - 0xD800;
      }
    }
  }

  /** The encoding of `pt` stands at position `i`, over the next `n` bytes. */
  predicate PointAt(s: seq<byte>, i: nat, n: nat, pt: point) {
    i + n <= |s| && Utf8Form(s[i..i + n], pt)
  }

  /** A code point is decoded exactly where its form stands, so there is at most one at any position. */
  lemma {:induction false} DecodesForm(s: seq<byte>, i: nat, n: nat, pt: point)
    requires i < |s|
    ensures Check8At(s, i) == Some(Decoded(n, pt)) <==> PointAt(s, i, n, pt)
  {
    if Check8At(s, i) == Some(Decoded(n, pt)) {
      DecodedStands(s, i);
      Encode8Form(s[i..i + n], pt);
    }
    if PointAt(s, i, n, pt) {
      assert pt < 0x11_0000;
      Encode8Form(s[i..i + n], pt);
      assert StandsAt(s, i, Encode8(pt));
      DecodeIffEncoded(s, i, pt);
    }
    hide Check8At;
  }

  /** The string with every byte at which no code point stands replaced by the three bytes of U+FFFD, in order. */
  ghost function Repair8(s: seq<byte>, i: nat): (r: seq<byte>)
    requires i <= |s|
    decreases |s| - i
  {
    if i == |s| then []
    else if exists n, pt :: PointAt(s, i, n, pt) then
      var n, pt :| PointAt(s, i, n, pt);
      s[i..i + n] + Repair8(s, i + n)
    else [0xEF, 0xBF, 0xBD] + Repair8(s, i + 1)
  }

  /** These code points are what the bytes say, invalid ones replaced. */
  ghost predicate Decodes8(s: seq<byte>, ps: seq<point>) {
    (forall k :: 0 <= k < |ps| ==> ps[k] < 0x11_0000) && EncodeAll8(ps) == Repair8(s, 0)
  }
}
