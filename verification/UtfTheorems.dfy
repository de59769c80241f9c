/**
 What the conversions between UTF-8, UTF-16 and UTF-32 promise about whole strings, and the loops
 that perform them (miniutf.cpp:201-254).
 */
module UtfTheorems {
  import opened Bytes
  import opened Utf

  // ---------- UTF-8 validity is the round trip ----------

  lemma StandsSplit<T>(s: seq<T>, i: nat, a: seq<T>, b: seq<T>)
    ensures StandsAt(s, i, a + b) <==> StandsAt(s, i, a) && StandsAt(s, i + |a|, b)
  {
    if StandsAt(s, i, a + b) {
      SliceSplit(s, i, i + |a + b|, a, b);
    }
  }

  lemma StandsWhole<T>(s: seq<T>, i: nat, b: seq<T>)
    requires i <= |s|
    ensures s[i..] == b <==> StandsAt(s, i, b) && i + |b| == |s|
  {
    if i + |b| == |s| {
      assert s[i..i + |b|] == s[i..];
    }
  }

  lemma PointsAre(s: seq<byte>, i: nat)
    requires i < |s|
    ensures var d := Or(Check8At(s, i));
            && 0 < d.len && i + d.len <= |s| && d.pt < 0x11_0000
            && EncodeAll8(Points8(s, i)) == Encode8(d.pt) + EncodeAll8(Points8(s, i + d.len))
            && (Valid8(s, i) <==> Check8At(s, i).Some? && Valid8(s, i + d.len))
            && (Check8At(s, i).Some? ==> Check8At(s, i) == Some(d))
            && (Check8At(s, i).None? ==> d.len == 1)
  {
    var d := Or(Check8At(s, i));
    assert Points8(s, i)[0] == d.pt && Points8(s, i)[1..] == Points8(s, i + d.len);
    hide Check8At;
    hide Encode8;
  }

  lemma {:induction false} RoundTripFrom(s: seq<byte>, i: nat)
    requires i <= |s|
    ensures Valid8(s, i) <==> EncodeAll8(Points8(s, i)) == s[i..]
    decreases |s| - i
  {
    hide *;
    if i == |s| {
      NothingEncoded(s, i);
    } else {
      PointsAre(s, i);
      var d := Or(Check8At(s, i));
      var rest := EncodeAll8(Points8(s, i + d.len));
      RoundTripFrom(s, i + d.len);
      if Check8At(s, i).Some? {
        DecodedStands(s, i);
      }
      DecodeIffEncoded(s, i, d.pt);
      StandsWhole(s, i, Encode8(d.pt) + rest);
      StandsSplit(s, i, Encode8(d.pt), rest);
      StandsWhole(s, i + d.len, rest);
    }
  }

  /**
   A byte string is valid UTF-8 if and only if converting it to UTF-32 and back gives it unchanged.
   Decoding never runs past the end: Points8 consumes exactly the string.
   */
  lemma {:induction false} Utf8ValidIffRoundTrip(s: seq<byte>)
    ensures Valid8(s, 0) <==> EncodeAll8(Points8(s, 0)) == s
  {
    RoundTripFrom(s, 0);
    assert s[0..] == s;
  }

  // ---------- Invalid bytes ----------

  lemma RepairUnfolds(s: seq<byte>, i: nat)
    requires i < |s|
    ensures (exists n, pt :: PointAt(s, i, n, pt) && n > 0 && i + n <= |s| && Repair8(s, i) == s[i..i + n] + Repair8(s, i + n))
            || ((forall n, pt :: !PointAt(s, i, n, pt)) && Repair8(s, i) == [0xEF, 0xBF, 0xBD] + Repair8(s, i + 1))
  {
    hide Utf8Form;
    forall n: nat, pt: point | PointAt(s, i, n, pt)
      ensures n > 0
    {
      FormNotEmpty(s[i..i + n], pt);
    }
  }

  lemma FormNotEmpty(b: seq<byte>, pt: point)
    requires Utf8Form(b, pt)
    ensures |b| > 0
  {
  }

  lemma RepairStep(s: seq<byte>, i: nat)
    requires i < |s|
    ensures var r := Check8At(s, i);
            if r.Some? then Repair8(s, i) == s[i..i + r.value.len] + Repair8(s, i + r.value.len)
            else Repair8(s, i) == [0xEF, 0xBF, 0xBD] + Repair8(s, i + 1)
  {
    hide *;
    RepairUnfolds(s, i);
    if Check8At(s, i).Some? {
      DecodesForm(s, i, Check8At(s, i).value.len, Check8At(s, i).value.pt);
    }
    if n, pt :| PointAt(s, i, n, pt) && n > 0 && i + n <= |s| && Repair8(s, i) == s[i..i + n] + Repair8(s, i + n) {
      DecodesForm(s, i, n, pt);
    }
  }

  lemma PointsStep(s: seq<byte>, i: nat)
    requires i < |s|
    ensures var d := Or(Check8At(s, i)); var ps := Points8(s, i);
            && i + d.len <= |s| && d.len > 0
            && |ps| > 0 && EncodeAll8(ps) == Encode8(d.pt) + EncodeAll8(Points8(s, i + d.len))
            && (Check8At(s, i).Some? ==> d == Check8At(s, i).value && s[i..i + d.len] == Encode8(d.pt))
            && (Check8At(s, i).None? ==> d.len == 1 && Encode8(d.pt) == [0xEF, 0xBF, 0xBD])
  {
    var d := Or(Check8At(s, i));
    assert Points8(s, i)[0] == d.pt && Points8(s, i)[1..] == Points8(s, i + d.len);
    if Check8At(s, i).Some? {
      DecodedStands(s, i);
    } else {
      assert Encode8(d.pt) == [0xEF, 0xBF, 0xBD];
    }
    hide Check8At;
    hide Encode8;
    hide Points8;
  }

  lemma {:induction false} RepairedFrom(s: seq<byte>, i: nat)
    requires i <= |s|
    ensures EncodeAll8(Points8(s, i)) == Repair8(s, i)
    decreases |s| - i
  {
    hide *;
    if i == |s| {
      NothingToRepair(s);
    } else {
      PointsStep(s, i);
      RepairStep(s, i);
      RepairedFrom(s, i + Or(Check8At(s, i)).len);
    }
  }

  lemma NothingToRepair(s: seq<byte>)
    ensures EncodeAll8(Points8(s, |s|)) == [] && Repair8(s, |s|) == []
  {
  }

  /** For every byte string: the decoded points spell it again, each byte that starts none of them replaced by U+FFFD. */
  lemma {:induction false} InvalidBytesReplaced(s: seq<byte>)
    ensures Decodes8(s, Points8(s, 0))
  {
    RepairedFrom(s, 0);
  }

  // ---------- Encoding then decoding ----------

  lemma {:induction false} DecodesEncodedFrom(s: seq<byte>, i: nat, ps: seq<point>)
    requires forall k :: 0 <= k < |ps| ==> ps[k] < 0x11_0000
    requires StandsAt(s, i, EncodeAll8(ps)) && i + |EncodeAll8(ps)| == |s|
    ensures i <= |s| && Points8(s, i) == ps && Valid8(s, i)
    decreases |ps|
  {
    hide *;
    if ps == [] {
      NothingEncoded(s, i);
    } else {
      var b, rest := Encode8(ps[0]), ps[1..];
      EncodesFirst(ps);
      StandsSplit(s, i, b, EncodeAll8(rest));
      DecodeIffEncoded(s, i, ps[0]);
      DecodesEncodedFrom(s, i + |b|, rest);
      DecodesFirst(s, i, ps[0]);
      assert [ps[0]] + rest == ps;
    }
  }

  lemma NothingEncoded(s: seq<byte>, i: nat)
    ensures EncodeAll8([]) == [] && (i == |s| ==> Points8(s, i) == [] && Valid8(s, i))
  {
  }

  lemma EncodesFirst(ps: seq<point>)
    requires ps != []
    ensures EncodeAll8(ps) == Encode8(ps[0]) + EncodeAll8(ps[1..])
  {
    hide Encode8;
  }

  lemma DecodesFirst(s: seq<byte>, i: nat, pt: point)
    requires i < |s| && Check8At(s, i) == Some(Decoded(|Encode8(pt)|, pt))
    ensures i + |Encode8(pt)| <= |s| && Points8(s, i) == [pt] + Points8(s, i + |Encode8(pt)|)
    ensures Valid8(s, i) <==> Valid8(s, i + |Encode8(pt)|)
  {
    hide Check8At;
    hide Encode8;
  }

  /** Every sequence of code points survives UTF-8, and its encoding is valid. */
  lemma {:induction false} Utf8Survives(ps: seq<point>)
    requires forall k :: 0 <= k < |ps| ==> ps[k] < 0x11_0000
    ensures Valid8(EncodeAll8(ps), 0) && Points8(EncodeAll8(ps), 0) == ps
  {
    assert EncodeAll8(ps)[0..|EncodeAll8(ps)|] == EncodeAll8(ps);
    DecodesEncodedFrom(EncodeAll8(ps), 0, ps);
  }

  // ---------- UTF-16 ----------

  /** A surrogate without its partner. */
  predicate Unpaired(s: seq<unit>, i: nat)
    requires i < |s|
  {
    || (0xD800 <= s[i] < 0xDC00 && !(i + 1 < |s| && 0xDC00 <= s[i + 1] < 0xE000))
    || (0xDC00 <= s[i] < 0xE000 && !(i > 0 && 0xD800 <= s[i - 1] < 0xDC00))
  }

  /** The string with every unpaired surrogate replaced. */
  function Repaired(s: seq<unit>): (r: seq<unit>)
    ensures |r| == |s|
  {
    seq(|s|, i requires 0 <= i < |s| => if Unpaired(s, i) then 0xFFFD else s[i])
  }

  lemma Check16Stands(s: seq<unit>, i: nat)
    requires i < |s| && !(i > 0 && IsHigh(s[i - 1]) && IsLow(s[i]))
    ensures var d := Or(Check16At(s, i));
            && Check16At(s, i).Some? == !Unpaired(s, i)
            && |Encode16(d.pt)| == d.len
            && (forall k :: 0 <= k < d.len ==> Encode16(d.pt)[k] == Repaired(s)[i + k])
            && (d.len == 2 ==> !Unpaired(s, i + 1))
            && (i + d.len < |s| ==> !(IsHigh(s[i + d.len - 1]) && IsLow(s[i + d.len])))
  {
    var d := Or(Check16At(s, i));
    if d.len == 2 {
      var h, l := s[i] as int - 0xD800, s[i + 1] as int - 0xDC00;
      assert d.pt == h * 0x400 + l + 0x1_0000;
      assert (d.pt - 0x1_0000) / 0x400 == h && d.pt % 0x400 == l;
    }
  }

  /** No code point starts at `i` inside a surrogate pair. */
  predicate Boundary(s: seq<unit>, i: nat)
    requires i <= |s|
  {
    !(0 < i < |s| && IsHigh(s[i - 1]) && IsLow(s[i]))
  }

  lemma SplitRepaired(r: seq<unit>, i: nat, e: seq<unit>)
    requires i + |e| <= |r| && forall k :: 0 <= k < |e| ==> e[k] == r[i + k]
    ensures r[i..] == e + r[i + |e|..]
  {
  }

  lemma Points16First(s: seq<unit>, i: nat)
    requires i < |s|
    ensures var d := Or(Check16At(s, i));
            && 0 < d.len && i + d.len <= |s|
            && EncodeAll16(Points16(s, i)) == Encode16(d.pt) + EncodeAll16(Points16(s, i + d.len))
  {
    var d := Or(Check16At(s, i));
    assert Points16(s, i)[0] == d.pt && Points16(s, i)[1..] == Points16(s, i + d.len);
    hide Check16At;
    hide Encode16;
  }

  lemma NothingSpelled(s: seq<unit>)
    ensures EncodeAll16(Points16(s, |s|)) == [] && Repaired(s)[|s|..] == []
  {
  }

  lemma BoundaryWhen(s: seq<unit>, i: nat)
    requires i <= |s|
    ensures Boundary(s, i) <==> !(0 < i < |s| && IsHigh(s[i - 1]) && IsLow(s[i]))
  {
  }

  lemma {:induction false} Reencoded(s: seq<unit>, i: nat)
    requires i <= |s| && Boundary(s, i)
    ensures EncodeAll16(Points16(s, i)) == Repaired(s)[i..]
    decreases |s| - i
  {
    hide *;
    if i == |s| {
      NothingSpelled(s);
    } else {
      var d := Or(Check16At(s, i));
      Points16First(s, i);
      BoundaryWhen(s, i);
      Check16Stands(s, i);
      BoundaryWhen(s, i + d.len);
      SplitRepaired(Repaired(s), i, Encode16(d.pt));
      Reencoded(s, i + d.len);
    }
  }

  lemma {:induction false} ValidIffPaired(s: seq<unit>, i: nat)
    requires i <= |s| && Boundary(s, i)
    ensures Valid16(s, i) <==> forall k :: i <= k < |s| ==> !Unpaired(s, k)
    decreases |s| - i
  {
    if i < |s| {
      Check16Stands(s, i);
      var d := Or(Check16At(s, i));
      ValidIffPaired(s, i + d.len);
      hide Check16At;
      hide Unpaired;
      hide Repaired;
      hide Encode16;
    }
  }

  /**
   UTF-16 to UTF-8 and back: the UTF-8 string is valid, and the result is the input with each
   unpaired surrogate replaced by U+FFFD, unit for unit; so it is the input itself if and only if
   the input is valid UTF-16.
   */
  lemma {:induction false} Utf16ThroughUtf8(s: seq<unit>)
    ensures var b := EncodeAll8(Points16(s, 0));
            && Valid8(b, 0)
            && EncodeAll16(Points8(b, 0)) == Repaired(s)
            && (EncodeAll16(Points8(b, 0)) == s <==> Valid16(s, 0))
  {
    Utf8Survives(Points16(s, 0));
    Reencoded(s, 0);
    ValidIffPaired(s, 0);
    assert Repaired(s)[0..] == Repaired(s);
    if Repaired(s) == s {
      assert forall k :: 0 <= k < |s| ==> Repaired(s)[k] == s[k];
    }
  }

  // ---------- The loops ----------

  method Utf8Check(s: seq<byte>) returns (ok: bool)
    ensures ok == Valid8(s, 0)
  {
    var i := 0;
    while i < |s|
      invariant i <= |s| && Valid8(s, 0) == Valid8(s, i)
    {
      var r := Check8At(s, i);
      if r.None? {
        return false;
      }
      i := i + r.value.len;
    }
    return true;
  }

  method Utf16Check(s: seq<unit>) returns (ok: bool)
    ensures ok == Valid16(s, 0)
  {
    var i := 0;
    while i < |s|
      invariant i <= |s| && Valid16(s, 0) == Valid16(s, i)
    {
      var r := Check16At(s, i);
      if r.None? {
        return false;
      }
      i := i + r.value.len;
    }
    return true;
  }

  method ToUtf32(s: seq<byte>) returns (out: seq<point>)
    ensures Decodes8(s, out)
  {
    InvalidBytesReplaced(s);
    hide Decodes8;
    hide Check8At;
    var i := 0;
    out := [];
    while i < |s|
      invariant i <= |s| && Points8(s, 0) == out + Points8(s, i)
    {
      var d := Or(Check8At(s, i));
      out := out + [d.pt];
      i := i + d.len;
    }
    assert out + [] == out;
  }

  lemma Points8Next(s: seq<byte>, i: nat)
    requires i < |s|
    ensures var d := Or(Check8At(s, i)); 0 < d.len && i + d.len <= |s| && Points8(s, i) == [d.pt] + Points8(s, i + d.len)
  {
    hide Check8At;
  }

  lemma Points8Done(s: seq<byte>)
    ensures Points8(s, |s|) == []
  {
  }

  lemma Points16Next(s: seq<unit>, i: nat)
    requires i < |s|
    ensures var d := Or(Check16At(s, i)); 0 < d.len && i + d.len <= |s| && Points16(s, i) == [d.pt] + Points16(s, i + d.len)
  {
    hide Check16At;
  }

  lemma Points16Done(s: seq<unit>)
    ensures Points16(s, |s|) == []
  {
  }

  lemma EncodeAll8Empty()
    ensures EncodeAll8([]) == []
  {
  }

  lemma EncodeAll16Empty()
    ensures EncodeAll16([]) == []
  {
  }

  lemma {:induction false} EncodeAll8Append(a: seq<point>, p: point)
    ensures EncodeAll8(a + [p]) == EncodeAll8(a) + Encode8(p)
  {
    hide Encode8;
    if a == [] {
      assert a + [p] == [p];
      assert EncodeAll8([p]) == Encode8(p) + EncodeAll8([]);
    } else {
      EncodeAll8Append(a[1..], p);
      assert (a + [p])[1..] == a[1..] + [p];
    }
  }

  lemma {:induction false} EncodeAll16Append(a: seq<point>, p: point)
    ensures EncodeAll16(a + [p]) == EncodeAll16(a) + Encode16(p)
  {
    hide Encode16;
    if a == [] {
      assert a + [p] == [p];
      assert EncodeAll16([p]) == Encode16(p) + EncodeAll16([]);
    } else {
      EncodeAll16Append(a[1..], p);
      assert (a + [p])[1..] == a[1..] + [p];
    }
  }

  /** The units encode the code points that the bytes say. */
  ghost predicate Spells16(s: seq<byte>, out: seq<unit>) {
    exists ps :: Decodes8(s, ps) && out == EncodeAll16(ps)
  }

  lemma Spelled16(s: seq<byte>)
    ensures Spells16(s, EncodeAll16(Points8(s, 0)))
  {
    InvalidBytesReplaced(s);
  }

  /** The bytes encode code points that the units say, once unpaired surrogates are replaced. */
  ghost predicate Spells8(s: seq<unit>, out: seq<byte>) {
    exists ps :: EncodeAll16(ps) == Repaired(s) && (forall k :: 0 <= k < |ps| ==> ps[k] < 0x11_0000) && out == EncodeAll8(ps)
  }

  lemma Spelled8(s: seq<unit>)
    ensures Spells8(s, EncodeAll8(Points16(s, 0)))
  {
    Reencoded(s, 0);
    assert Repaired(s)[0..] == Repaired(s);
    hide Repaired;
    hide EncodeAll16;
  }

  /** to_utf16: each code point is encoded as soon as it is decoded. */
  method ToUtf16(s: seq<byte>) returns (out: seq<unit>)
    ensures Spells16(s, out)
  {
    hide *;
    Spelled16(s);
    EncodeAll16Empty();
    var i := 0;
    out := [];
    ghost var done: seq<point> := [];
    while i < |s|
      invariant i <= |s| && Points8(s, 0) == done + Points8(s, i) && out == EncodeAll16(done)
    {
      Points8Next(s, i);
      var d := Or(Check8At(s, i));
      EncodeAll16Append(done, d.pt);
      assert done + ([d.pt] + Points8(s, i + d.len)) == done + [d.pt] + Points8(s, i + d.len);
      out := out + Encode16(d.pt);
      done := done + [d.pt];
      i := i + d.len;
    }
    Points8Done(s);
    assert done + [] == done;
  }


  /** to_utf8 from UTF-16. */
  method ToUtf8(s: seq<unit>) returns (out: seq<byte>)
    ensures Spells8(s, out)
  {
    hide *;
    Spelled8(s);
    EncodeAll8Empty();
    var i := 0;
    out := [];
    ghost var done: seq<point> := [];
    while i < |s|
      invariant i <= |s| && Points16(s, 0) == done + Points16(s, i) && out == EncodeAll8(done)
    {
      Points16Next(s, i);
      var d := Or(Check16At(s, i));
      EncodeAll8Append(done, d.pt);
      assert done + ([d.pt] + Points16(s, i + d.len)) == done + [d.pt] + Points16(s, i + d.len);
      out := out + Encode8(d.pt);
      done := done + [d.pt];
      i := i + d.len;
    }
    Points16Done(s);
    assert done + [] == done;
  }

}
