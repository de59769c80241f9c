/**
 The signature parser and the signature grammar are inverse to each other, so every successful
 parse consumes the encoding of exactly one tree and no encoding is a prefix of another.
 */
module SignatureTheorems {
  import opened Bytes
  import opened Signatures

  /** The bytes `b` stand at position `i` of the signature. */
  predicate At(sig: seq<byte>, i: nat, b: seq<byte>) {
    i + |b| <= |sig| && sig[i..i + |b|] == b
  }

  lemma AtSplit(sig: seq<byte>, i: nat, a: seq<byte>, b: seq<byte>)
    ensures At(sig, i, a + b) <==> At(sig, i, a) && At(sig, i + |a|, b)
  {
    if At(sig, i, a + b) {
      SliceSplit(sig, i, i + |a + b|, a, b);
    }
  }

  lemma AtCons(sig: seq<byte>, i: nat, x: byte, b: seq<byte>)
    ensures At(sig, i, [x] + b) <==> i < |sig| && sig[i] == x && At(sig, i + 1, b)
  {
    AtSplit(sig, i, [x], b);
  }

  lemma AtBound(sig: seq<byte>, i: nat, b: seq<byte>)
    requires At(sig, i, b)
    ensures i + |b| <= |sig|
  {
  }

  lemma AtEmpty(sig: seq<byte>, i: nat)
    requires i <= |sig|
    ensures At(sig, i, [])
  {
  }

  // ---------- Numbers, modifiers, shapes ----------

  lemma AtTwo(sig: seq<byte>, i: nat, a: byte, b: byte)
    ensures At(sig, i, [a, b]) <==> i + 2 <= |sig| && sig[i] == a && sig[i + 1] == b
  {
    AtCons(sig, i, a, [b]);
    AtCons(sig, i + 1, b, []);
    assert [a] + [b] == [a, b] && [b] + [] == [b];
  }

  lemma AtFour(sig: seq<byte>, i: nat, a: byte, b: byte, c: byte, d: byte)
    ensures At(sig, i, [a, b, c, d]) <==>
              i + 4 <= |sig| && sig[i] == a && sig[i + 1] == b && sig[i + 2] == c && sig[i + 3] == d
  {
    AtSplit(sig, i, [a, b], [c, d]);
    AtTwo(sig, i, a, b);
    AtTwo(sig, i + 2, c, d);
    assert [a, b] + [c, d] == [a, b, c, d];
  }

  lemma Digits(h: int, a: byte, b: byte, c: byte, v: int)
    ensures h * 0x100_0000 + a as int * 0x1_0000 + b as int * 0x100 + c as int == v <==>
              h == v / 0x100_0000 && a == v / 0x1_0000 % 0x100 && b == v / 0x100 % 0x100 && c == v % 0x100
  {
    var q := v / 0x100;
    assert v == q * 0x100 + v % 0x100;
    assert q / 0x100 == v / 0x1_0000;
    var r := q / 0x100;
    assert q == r * 0x100 + q % 0x100;
    assert r / 0x100 == v / 0x100_0000;
    assert r == r / 0x100 * 0x100 + r % 0x100;
  }

  /** A number is read from a position exactly when its encoding stands there. */
  lemma {:induction false} NumRoundTrip(sig: seq<byte>, i: nat, n: Num)
    requires NumOk(n)
    ensures At(sig, i, EncNum(n)) <==> ParseNum(sig, i) == Some(Parsed(n, i + n.width))
  {
    var b := EncNum(n);
    if n.width == 1 {
      AtCons(sig, i, b[0], []);
      assert [b[0]] + [] == b;
    } else if n.width == 2 {
      AtTwo(sig, i, b[0], b[1]);
    } else {
      AtFour(sig, i, b[0], b[1], b[2], b[3]);
      if i + 4 <= |sig| {
        Digits(sig[i] as int - 0xC0, sig[i + 1], sig[i + 2], sig[i + 3], n.value);
      }
    }
    hide At;
  }

  lemma {:induction false} ModsSound(sig: seq<byte>, i: nat)
    requires ParseMods(sig, i).Some?
    ensures var p := ParseMods(sig, i).value; At(sig, i, EncMods(p.item)) && p.next == i + |EncMods(p.item)|
    decreases |sig| - i
  {
    var p := ParseMods(sig, i).value;
    if sig[i] == CMOD_OPT || sig[i] == CMOD_REQD {
      var n := ParseNum(sig, i + 1).value;
      ModsSound(sig, n.next);
      var rest := ParseMods(sig, n.next).value;
      NumRoundTrip(sig, i + 1, n.item);
      hide ParseNum;
      hide EncNum;
      hide At;
      assert p.item[1..] == rest.item;
      AtCons(sig, i, sig[i], EncNum(n.item));
      AtSplit(sig, i, [sig[i]] + EncNum(n.item), EncMods(rest.item));
    } else {
      AtEmpty(sig, i);
    }
  }

  lemma ParseModsCons(sig: seq<byte>, i: nat, n: Parsed<Num>, rest: Parsed<seq<Mod>>)
    requires i < |sig| && (sig[i] == CMOD_OPT || sig[i] == CMOD_REQD)
    requires ParseNum(sig, i + 1) == Some(n) && ParseMods(sig, n.next) == Some(rest)
    ensures ParseMods(sig, i) == Some(Parsed([Mod(sig[i], n.item)] + rest.item, rest.next))
  {
    hide ParseNum;
    hide ModsOk;
  }

  lemma ModsUnfold(ms: seq<Mod>)
    requires ModsOk(ms)
    ensures ms == [] ==> EncMods(ms) == []
    ensures ms != [] ==>
              && (ms[0].kind == CMOD_OPT || ms[0].kind == CMOD_REQD) && NumOk(ms[0].token) && ModsOk(ms[1..])
              && EncMods(ms) == [ms[0].kind] + EncNum(ms[0].token) + EncMods(ms[1..])
              && ms == [Mod(ms[0].kind, ms[0].token)] + ms[1..]
  {
    hide EncNum;
  }

  lemma NoMods(sig: seq<byte>, i: nat)
    requires i < |sig| && sig[i] != CMOD_OPT && sig[i] != CMOD_REQD
    ensures ParseMods(sig, i) == Some(Parsed([], i))
  {
  }

  lemma {:induction false} ModsComplete(sig: seq<byte>, i: nat, ms: seq<Mod>)
    requires ModsOk(ms) && At(sig, i, EncMods(ms)) && i + |EncMods(ms)| < |sig|
    requires sig[i + |EncMods(ms)|] != CMOD_OPT && sig[i + |EncMods(ms)|] != CMOD_REQD
    ensures ParseMods(sig, i) == Some(Parsed(ms, i + |EncMods(ms)|))
    decreases |ms|
  {
    hide *;
    ModsUnfold(ms);
    if ms == [] {
      NoMods(sig, i);
    } else {
      var m, rest := ms[0], ms[1..];
      AtSplit(sig, i, [m.kind] + EncNum(m.token), EncMods(rest));
      AtCons(sig, i, m.kind, EncNum(m.token));
      NumRoundTrip(sig, i + 1, m.token);
      var j := i + 1 + m.token.width;
      ModsComplete(sig, j, rest);
      ParseModsCons(sig, i, Parsed(m.token, j), Parsed(rest, j + |EncMods(rest)|));
    }
  }

  lemma {:induction false} ItemsSound(sig: seq<byte>, i: nat, n: nat)
    requires i <= |sig| && ParseItems(sig, i, n).Some?
    ensures var p := ParseItems(sig, i, n).value; At(sig, i, EncItems(p.item)) && p.next == i + |EncItems(p.item)|
    decreases n
  {
    var p := ParseItems(sig, i, n).value;
    if n == 0 {
      AtEmpty(sig, i);
    } else {
      var h := ParseNum(sig, i).value;
      ItemsSound(sig, h.next, n - 1);
      var rest := ParseItems(sig, h.next, n - 1).value;
      NumRoundTrip(sig, i, h.item);
      hide ParseNum;
      hide EncNum;
      hide At;
      assert p.item[1..] == rest.item;
      AtSplit(sig, i, EncNum(h.item), EncItems(rest.item));
    }
  }

  lemma {:induction false} ItemsComplete(sig: seq<byte>, i: nat, ns: seq<Num>)
    requires (forall k :: 0 <= k < |ns| ==> NumOk(ns[k])) && At(sig, i, EncItems(ns))
    ensures ParseItems(sig, i, |ns|) == Some(Parsed(ns, i + |EncItems(ns)|))
    decreases |ns|
  {
    if ns != [] {
      hide ParseNum;
      hide EncNum;
      hide At;
      AtSplit(sig, i, EncNum(ns[0]), EncItems(ns[1..]));
      NumRoundTrip(sig, i, ns[0]);
      ItemsComplete(sig, i + ns[0].width, ns[1..]);
      assert [ns[0]] + ns[1..] == ns;
    }
  }

  lemma NumsSound(sig: seq<byte>, i: nat)
    requires ParseNums(sig, i).Some?
    ensures var p := ParseNums(sig, i).value; At(sig, i, EncNums(p.item)) && p.next == i + |EncNums(p.item)|
  {
    var c := ParseNum(sig, i).value;
    NumRoundTrip(sig, i, c.item);
    ItemsSound(sig, c.next, c.item.value);
    hide At;
    hide ParseNum;
    hide EncNum;
    AtSplit(sig, i, EncNum(c.item), EncItems(ParseItems(sig, c.next, c.item.value).value.item));
  }

  lemma NumsComplete(sig: seq<byte>, i: nat, ns: Nums)
    requires NumsOk(ns) && At(sig, i, EncNums(ns))
    ensures ParseNums(sig, i) == Some(Parsed(ns, i + |EncNums(ns)|))
  {
    hide ParseNum;
    hide EncNum;
    hide EncItems;
    hide ParseItems;
    hide At;
    AtSplit(sig, i, EncNum(ns.count), EncItems(ns.items));
    NumRoundTrip(sig, i, ns.count);
    ItemsComplete(sig, i + ns.count.width, ns.items);
  }

  function EncShape(s: Shape): seq<byte>
    requires NumOk(s.rank) && NumsOk(s.sizes) && NumsOk(s.lows)
  {
    EncNum(s.rank) + (EncNums(s.sizes) + EncNums(s.lows))
  }

  lemma ShapeSound(sig: seq<byte>, i: nat)
    requires ParseShape(sig, i).Some?
    ensures var p := ParseShape(sig, i).value; At(sig, i, EncShape(p.item)) && p.next == i + |EncShape(p.item)|
  {
    var s := ParseShape(sig, i).value.item;
    var rank := ParseNum(sig, i).value;
    NumRoundTrip(sig, i, rank.item);
    NumsSound(sig, rank.next);
    NumsSound(sig, ParseNums(sig, rank.next).value.next);
    hide At;
    hide ParseNum;
    hide ParseNums;
    hide EncNum;
    hide EncNums;
    AtSplit(sig, i + |EncNum(s.rank)|, EncNums(s.sizes), EncNums(s.lows));
    AtSplit(sig, i, EncNum(s.rank), EncNums(s.sizes) + EncNums(s.lows));
  }

  lemma ShapeComplete(sig: seq<byte>, i: nat, s: Shape)
    requires NumOk(s.rank) && NumsOk(s.sizes) && NumsOk(s.lows) && At(sig, i, EncShape(s))
    ensures ParseShape(sig, i) == Some(Parsed(s, i + |EncShape(s)|))
  {
    hide ParseNums;
    hide EncNums;
    hide At;
    AtSplit(sig, i, EncNum(s.rank), EncNums(s.sizes) + EncNums(s.lows));
    AtSplit(sig, i + |EncNum(s.rank)|, EncNums(s.sizes), EncNums(s.lows));
    NumRoundTrip(sig, i, s.rank);
    NumsComplete(sig, i + s.rank.width, s.sizes);
    NumsComplete(sig, i + s.rank.width + |EncNums(s.sizes)|, s.lows);
    hide ParseNum;
    hide EncNum;
  }

  // ---------- Every successful parse consumed an encoding ----------

  lemma PointedSound(sig: seq<byte>, i: nat, ms: Parsed<seq<Mod>>, u: Parsed<Type>)
    requires i < |sig| && ModsOk(ms.item) && TypeOk(u.item)
    requires At(sig, i + 1, EncMods(ms.item)) && ms.next == i + 1 + |EncMods(ms.item)|
    requires At(sig, ms.next, EncType(u.item)) && u.next == ms.next + |EncType(u.item)|
    ensures sig[i] == PTR ==> At(sig, i, EncType(Ptr(ms.item, u.item))) && u.next == i + |EncType(Ptr(ms.item, u.item))|
    ensures sig[i] == SZARRAY ==> At(sig, i, EncType(Vector(ms.item, u.item))) && u.next == i + |EncType(Vector(ms.item, u.item))|
  {
    hide At;
    hide EncMods;
    AtSplit(sig, i + 1, EncMods(ms.item), EncType(u.item));
    AtCons(sig, i, sig[i], EncMods(ms.item) + EncType(u.item));
  }

  lemma ArraySound(sig: seq<byte>, i: nat, u: Parsed<Type>, s: Parsed<Shape>)
    requires i < |sig| && sig[i] == ARRAY && TypeOk(u.item) && NumOk(s.item.rank) && NumsOk(s.item.sizes) && NumsOk(s.item.lows)
    requires At(sig, i + 1, EncType(u.item)) && u.next == i + 1 + |EncType(u.item)|
    requires At(sig, u.next, EncShape(s.item)) && s.next == u.next + |EncShape(s.item)|
    ensures At(sig, i, EncType(Matrix(u.item, s.item))) && s.next == i + |EncType(Matrix(u.item, s.item))|
  {
    hide At;
    hide EncNums;
    hide EncNum;
    AtSplit(sig, i + 1, EncType(u.item), EncShape(s.item));
    AtCons(sig, i, sig[i], EncType(u.item) + EncShape(s.item));
  }

  lemma {:induction false} TypeSound(sig: seq<byte>, i: nat)
    requires ParseType(sig, i).Some?
    ensures var p := ParseType(sig, i).value; At(sig, i, EncType(p.item)) && p.next == i + |EncType(p.item)|
    decreases |sig| - i, 3
  {
    hide At;
    hide ParseNum;
    hide EncNum;
    hide ParseMods;
    hide EncMods;
    hide ParseShape;
    hide EncNums;
    var x := sig[i];
    if IsPrim(x) {
      AtEmpty(sig, i + 1);
      AtCons(sig, i, x, []);
      assert [x] + [] == [x];
    } else if x == PTR || x == SZARRAY {
      var ms := ParseMods(sig, i + 1).value;
      ModsSound(sig, i + 1);
      TypeSound(sig, ms.next);
      PointedSound(sig, i, ms, ParseType(sig, ms.next).value);
    } else if x == ARRAY {
      TypeSound(sig, i + 1);
      var u := ParseType(sig, i + 1).value;
      ShapeSound(sig, u.next);
      ArraySound(sig, i, u, ParseShape(sig, u.next).value);
    } else if x == GENERICINST {
      GenericSound(sig, i + 1);
    } else if x == FNPTR {
      MethodSound(sig, i + 1);
    } else {
      var n := ParseNum(sig, i + 1).value.item;
      NumRoundTrip(sig, i + 1, n);
      AtCons(sig, i, x, EncNum(n));
    }
  }

  lemma {:induction false} GenericSound(sig: seq<byte>, i: nat)
    requires i > 0 && i <= |sig| && sig[i - 1] == GENERICINST && ParseGeneric(sig, i).Some?
    ensures var p := ParseGeneric(sig, i).value; At(sig, i - 1, EncType(p.item)) && p.next == i - 1 + |EncType(p.item)|
    decreases |sig| - i, 3
  {
    hide At;
    hide ParseNum;
    hide EncNum;
    hide ParseTypes;
    hide EncTypes;
    var n := ParseNum(sig, i + 1).value;
    var c := ParseNum(sig, n.next).value;
    var args := ParseTypes(sig, c.next, c.item.value).value.item;
    NumRoundTrip(sig, i + 1, n.item);
    NumRoundTrip(sig, n.next, c.item);
    TypesSound(sig, c.next, c.item.value);
    AtSplit(sig, n.next, EncNum(c.item), EncTypes(args));
    AtSplit(sig, i + 1, EncNum(n.item), EncNum(c.item) + EncTypes(args));
    var tail := EncNum(n.item) + (EncNum(c.item) + EncTypes(args));
    AtCons(sig, i, sig[i], tail);
    AtCons(sig, i - 1, GENERICINST, [sig[i]] + tail);
  }

  lemma {:induction false} TypesSound(sig: seq<byte>, i: nat, n: nat)
    requires i <= |sig| && ParseTypes(sig, i, n).Some?
    ensures var p := ParseTypes(sig, i, n).value; At(sig, i, EncTypes(p.item)) && p.next == i + |EncTypes(p.item)|
    decreases |sig| - i, 4
  {
    hide At;
    hide ParseType;
    hide EncType;
    if n == 0 {
      AtEmpty(sig, i);
    } else {
      var t := ParseType(sig, i).value;
      TypeSound(sig, i);
      TypesSound(sig, t.next, n - 1);
      var rest := ParseTypes(sig, t.next, n - 1).value.item;
      assert ParseTypes(sig, i, n).value.item[1..] == rest;
      AtSplit(sig, i, EncType(t.item), EncTypes(rest));
    }
  }

  lemma {:induction false} SlotSound(sig: seq<byte>, i: nat)
    requires ParseSlot(sig, i).Some?
    ensures var p := ParseSlot(sig, i).value; At(sig, i, EncSlot(p.item)) && p.next == i + |EncSlot(p.item)|
    decreases |sig| - i, 4
  {
    hide At;
    hide ParseMods;
    hide EncMods;
    hide ParseType;
    hide EncType;
    var ms := ParseMods(sig, i).value;
    var x := sig[ms.next];
    ModsSound(sig, i);
    AtEmpty(sig, ms.next + 1);
    AtCons(sig, ms.next, x, []);
    assert [x] + [] == [x];
    if x == TYPEDBYREF {
      AtSplit(sig, i, EncMods(ms.item), [x]);
    } else {
      var k := if x == BYREF then 1 else 0;
      TypeSound(sig, ms.next + k);
      var t := ParseType(sig, ms.next + k).value.item;
      var pre: seq<byte> := if x == BYREF then [BYREF] else [];
      AtEmpty(sig, ms.next);
      AtSplit(sig, ms.next, pre, EncType(t));
      AtSplit(sig, i, EncMods(ms.item), pre + EncType(t));
    }
  }

  lemma {:induction false} ParamsSound(sig: seq<byte>, i: nat, n: nat, seen: bool)
    requires i <= |sig| && ParseParams(sig, i, n, seen).Some?
    ensures var p := ParseParams(sig, i, n, seen).value;
            At(sig, i, EncParams(p.item, seen)) && p.next == i + |EncParams(p.item, seen)|
    decreases |sig| - i, 5
  {
    hide At;
    hide ParseSlot;
    hide EncSlot;
    AtEmpty(sig, i);
    if n > 0 {
      var s := i < |sig| && sig[i] == SENTINEL;
      var pre: seq<byte> := if s then [SENTINEL] else [];
      var j := i + |pre|;
      SlotSound(sig, j);
      var p := ParseSlot(sig, j).value;
      ParamsSound(sig, p.next, n - 1, seen || s);
      var rest := ParseParams(sig, p.next, n - 1, seen || s).value.item;
      assert ParseParams(sig, i, n, seen).value.item[1..] == rest;
      AtSplit(sig, j, EncSlot(p.item), EncParams(rest, seen || s));
      assert At(sig, i, pre) by {
        if s {
          AtEmpty(sig, i + 1);
          AtCons(sig, i, SENTINEL, []);
          assert [SENTINEL] + [] == [SENTINEL];
        }
      }
      AtSplit(sig, i, pre, EncSlot(p.item) + EncParams(rest, seen || s));
    }
  }

  function GenericsCode(g: Option<Num>): seq<byte>
    requires g.Some? ==> NumOk(g.value)
  {
    if g.Some? then [CALLCONV_GENERIC] + EncNum(g.value) else []
  }

  lemma {:induction false} MethodSound(sig: seq<byte>, i: nat)
    requires i > 0 && i <= |sig| && sig[i - 1] == FNPTR && ParseMethod(sig, i).Some?
    ensures var p := ParseMethod(sig, i).value; At(sig, i - 1, EncType(p.item)) && p.next == i - 1 + |EncType(p.item)|
    decreases |sig| - i, 6
  {
    hide At;
    hide ParseNum;
    hide EncNum;
    hide ParseSlot;
    hide EncSlot;
    hide ParseParams;
    hide EncParams;
    var generic := sig[i] == CALLCONV_GENERIC;
    var g := if generic then Some(ParseNum(sig, i + 1).value.item) else None;
    var j := if generic then ParseNum(sig, i + 1).value.next else i;
    AtEmpty(sig, i);
    if generic {
      NumRoundTrip(sig, i + 1, g.value);
      AtCons(sig, i, CALLCONV_GENERIC, EncNum(g.value));
    }
    var c := ParseNum(sig, j).value;
    NumRoundTrip(sig, j, c.item);
    SlotSound(sig, c.next);
    var ret := ParseSlot(sig, c.next).value;
    ParamsSound(sig, ret.next, c.item.value, false);
    var ps := ParseParams(sig, ret.next, c.item.value, false).value.item;
    var tail2 := EncSlot(ret.item) + EncParams(ps, false);
    AtSplit(sig, c.next, EncSlot(ret.item), EncParams(ps, false));
    AtSplit(sig, j, EncNum(c.item), tail2);
    AtSplit(sig, i, GenericsCode(g), EncNum(c.item) + tail2);
    AtCons(sig, i - 1, FNPTR, GenericsCode(g) + (EncNum(c.item) + tail2));
  }

  // ---------- Every encoding is parsed, whatever follows it ----------

  /** `ParseType` skips exactly one type: it stops at the first byte after the encoding. */
  lemma {:induction false} TypeComplete(sig: seq<byte>, i: nat, t: Type)
    requires TypeOk(t) && At(sig, i, EncType(t))
    ensures ParseType(sig, i) == Some(Parsed(t, i + |EncType(t)|))
    decreases t, 2
  {
    hide At;
    hide ParseNum;
    hide EncNum;
    hide ParseMods;
    hide EncMods;
    hide ParseShape;
    hide EncNums;
    hide ParseGeneric;
    hide ParseMethod;
    match t
    case Prim(b) =>
      assert [b] + [] == [b];
      AtCons(sig, i, b, []);
    case Named(k, n) =>
      AtCons(sig, i, k, EncNum(n));
      NumRoundTrip(sig, i + 1, n);
    case Index(k, n) =>
      AtCons(sig, i, k, EncNum(n));
      NumRoundTrip(sig, i + 1, n);
    case Ptr(ms, u) =>
      ElementComplete(sig, i, t);
    case Vector(ms, u) =>
      ElementComplete(sig, i, t);
    case Matrix(u, s) =>
      MatrixComplete(sig, i, t);
    case Generic(_, _, _, _) =>
      GenericComplete(sig, i, t);
    case FnPtr(_, _, _, _) =>
      MethodComplete(sig, i, t);
  }

  lemma ParseElement(sig: seq<byte>, i: nat, ms: Parsed<seq<Mod>>, u: Parsed<Type>)
    requires i < |sig| && (sig[i] == PTR || sig[i] == SZARRAY)
    requires ParseMods(sig, i + 1) == Some(ms) && ParseType(sig, ms.next) == Some(u)
    ensures ParseType(sig, i) ==
            Some(Parsed(if sig[i] == PTR then Ptr(ms.item, u.item) else Vector(ms.item, u.item), u.next))
  {
    hide ParseMods;
    hide ParseNum;
    hide TypeOk;
    hide ModsOk;
  }

  lemma {:induction false} ElementComplete(sig: seq<byte>, i: nat, t: Type)
    requires (t.Ptr? || t.Vector?) && TypeOk(t) && At(sig, i, EncType(t))
    ensures ParseType(sig, i) == Some(Parsed(t, i + |EncType(t)|))
    decreases t, 0
  {
    hide At;
    hide ParseMods;
    hide ParseType;
    hide EncMods;
    var u := if t.Ptr? then t.target else t.item;
    var x := if t.Ptr? then PTR else SZARRAY;
    assert EncType(t) == [x] + (EncMods(t.mods) + EncType(u));
    AtCons(sig, i, x, EncMods(t.mods) + EncType(u));
    ModdedComplete(sig, i + 1, t.mods, u);
    var j := i + 1 + |EncMods(t.mods)|;
    ParseElement(sig, i, Parsed(t.mods, j), Parsed(u, j + |EncType(u)|));
  }

  lemma {:induction false} MatrixComplete(sig: seq<byte>, i: nat, t: Type)
    requires t.Matrix? && TypeOk(t) && At(sig, i, EncType(t))
    ensures ParseType(sig, i) == Some(Parsed(t, i + |EncType(t)|))
    decreases t, 0
  {
    hide At;
    hide ParseShape;
    hide EncNums;
    hide EncNum;
    AtCons(sig, i, ARRAY, EncType(t.item) + EncShape(t.shape));
    AtSplit(sig, i + 1, EncType(t.item), EncShape(t.shape));
    TypeComplete(sig, i + 1, t.item);
    ShapeComplete(sig, i + 1 + |EncType(t.item)|, t.shape);
  }

  lemma {:induction false} ModdedComplete(sig: seq<byte>, i: nat, ms: seq<Mod>, u: Type)
    requires ModsOk(ms) && TypeOk(u) && At(sig, i, EncMods(ms) + EncType(u))
    ensures ParseMods(sig, i) == Some(Parsed(ms, i + |EncMods(ms)|))
    ensures ParseType(sig, i + |EncMods(ms)|) == Some(Parsed(u, i + |EncMods(ms)| + |EncType(u)|))
    decreases u, 3
  {
    hide At;
    hide EncType;
    hide ParseType;
    var j := i + |EncMods(ms)|;
    AtSplit(sig, i, EncMods(ms), EncType(u));
    FirstByte(sig, j, EncType(u));
    TypeComplete(sig, j, u);
    ModsComplete(sig, i, ms);
  }

  lemma FirstByte(sig: seq<byte>, i: nat, b: seq<byte>)
    requires At(sig, i, b) && |b| > 0
    ensures i < |sig| && sig[i] == b[0]
  {
    assert sig[i] == sig[i..i + |b|][0];
  }

  lemma {:induction false} GenericComplete(sig: seq<byte>, i: nat, t: Type)
    requires t.Generic? && TypeOk(t) && At(sig, i, EncType(t))
    ensures i < |sig| && sig[i] == GENERICINST
    ensures ParseGeneric(sig, i + 1) == Some(Parsed(t, i + |EncType(t)|))
    decreases t, 0
  {
    hide At;
    hide ParseNum;
    hide EncNum;
    hide ParseTypes;
    hide EncTypes;
    var tail := EncNum(t.token) + (EncNum(t.count) + EncTypes(t.args));
    AtCons(sig, i, GENERICINST, [t.kind] + tail);
    AtCons(sig, i + 1, t.kind, tail);
    AtSplit(sig, i + 2, EncNum(t.token), EncNum(t.count) + EncTypes(t.args));
    var j := i + 2 + t.token.width;
    AtSplit(sig, j, EncNum(t.count), EncTypes(t.args));
    NumRoundTrip(sig, i + 2, t.token);
    NumRoundTrip(sig, j, t.count);
    TypesComplete(sig, j + t.count.width, t.args);
  }

  lemma {:induction false} TypesComplete(sig: seq<byte>, i: nat, ts: seq<Type>)
    requires TypesOk(ts) && At(sig, i, EncTypes(ts))
    ensures i <= |sig| && ParseTypes(sig, i, |ts|) == Some(Parsed(ts, i + |EncTypes(ts)|))
    decreases ts, 0
  {
    hide At;
    hide ParseType;
    hide EncType;
    hide TypeOk;
    AtBound(sig, i, EncTypes(ts));
    if ts != [] {
      AtSplit(sig, i, EncType(ts[0]), EncTypes(ts[1..]));
      TypeComplete(sig, i, ts[0]);
      TypesComplete(sig, i + |EncType(ts[0])|, ts[1..]);
      assert [ts[0]] + ts[1..] == ts;
    }
  }

  lemma {:induction false} SlotComplete(sig: seq<byte>, i: nat, s: Slot)
    requires SlotOk(s) && At(sig, i, EncSlot(s))
    ensures ParseSlot(sig, i) == Some(Parsed(s, i + |EncSlot(s)|))
    decreases s, 0
  {
    hide ParseMods;
    hide EncMods;
    hide ParseType;
    hide EncType;
    hide At;
    hide TypeOk;
    hide ModsOk;
    var ms := s.mods;
    var j := i + |EncMods(ms)|;
    if s.TypedByRef? {
      AtSplit(sig, i, EncMods(ms), [TYPEDBYREF]);
      FirstByte(sig, j, [TYPEDBYREF]);
      ModsComplete(sig, i, ms);
    } else {
      var pre: seq<byte> := if s.byref then [BYREF] else [];
      AtSplit(sig, i, EncMods(ms), pre + EncType(s.of));
      FirstByte(sig, j, pre + EncType(s.of));
      AtSplit(sig, j, pre, EncType(s.of));
      TypeComplete(sig, j + |pre|, s.of);
      ModsComplete(sig, i, ms);
    }
  }

  lemma {:induction false} ParamsComplete(sig: seq<byte>, i: nat, ps: seq<Param>, seen: bool)
    requires ParamsOk(ps, seen) && At(sig, i, EncParams(ps, seen))
    ensures i <= |sig| && ParseParams(sig, i, |ps|, seen) == Some(Parsed(ps, i + |EncParams(ps, seen)|))
    decreases ps, 0
  {
    hide At;
    hide EncSlot;
    hide ParseSlot;
    hide SlotOk;
    AtBound(sig, i, EncParams(ps, seen));
    if ps != [] {
      var p := ps[0];
      assert p.slot < p;
      var pre: seq<byte> := if p.sentinel then [SENTINEL] else [];
      var rest := EncParams(ps[1..], seen || p.sentinel);
      AtSplit(sig, i, pre, EncSlot(p.slot) + rest);
      AtSplit(sig, i + |pre|, EncSlot(p.slot), rest);
      FirstByte(sig, i, pre + (EncSlot(p.slot) + rest));
      SlotComplete(sig, i + |pre|, p.slot);
      ParamsComplete(sig, i + |pre| + |EncSlot(p.slot)|, ps[1..], seen || p.sentinel);
      assert [p] + ps[1..] == ps;
    }
  }

  lemma CountByte(c: Num)
    requires NumOk(c)
    ensures EncNum(c)[0] == CALLCONV_GENERIC ==> c == Num(1, CALLCONV_GENERIC)
  {
  }

  lemma {:induction false} MethodRestComplete(sig: seq<byte>, i: nat, t: Type)
    requires t.FnPtr? && TypeOk(t)
    requires At(sig, i, EncNum(t.count) + (EncSlot(t.ret) + EncParams(t.params, false)))
    requires t.generics.None? ==> i < |sig| && sig[i] != CALLCONV_GENERIC
    ensures ParseMethodRest(sig, i, t.generics) ==
            Some(Parsed(t, i + |EncNum(t.count) + (EncSlot(t.ret) + EncParams(t.params, false))|))
    decreases t, 0
  {
    hide At;
    hide ParseNum;
    hide EncNum;
    hide ParseSlot;
    hide EncSlot;
    hide ParseParams;
    hide EncParams;
    AtSplit(sig, i, EncNum(t.count), EncSlot(t.ret) + EncParams(t.params, false));
    var k := i + t.count.width;
    AtSplit(sig, k, EncSlot(t.ret), EncParams(t.params, false));
    NumRoundTrip(sig, i, t.count);
    SlotComplete(sig, k, t.ret);
    ParamsComplete(sig, k + |EncSlot(t.ret)|, t.params, false);
  }

  lemma {:induction false} MethodComplete(sig: seq<byte>, i: nat, t: Type)
    requires t.FnPtr? && TypeOk(t) && At(sig, i, EncType(t))
    ensures i < |sig| && sig[i] == FNPTR
    ensures ParseMethod(sig, i + 1) == Some(Parsed(t, i + |EncType(t)|))
    decreases t, 1
  {
    hide At;
    hide ParseNum;
    hide EncNum;
    hide EncSlot;
    hide EncParams;
    hide ParseMethodRest;
    CountByte(t.count);
    var g := GenericsCode(t.generics);
    var tail := EncNum(t.count) + (EncSlot(t.ret) + EncParams(t.params, false));
    assert EncType(t) == [FNPTR] + (g + tail);
    assert t.generics.Some? ==> NumOk(t.generics.value) && g == [CALLCONV_GENERIC] + EncNum(t.generics.value);
    assert tail[0] == EncNum(t.count)[0] && (t.generics.None? ==> g == [] && tail[0] != CALLCONV_GENERIC);
    hide EncType;
    hide TypeOk;
    hide NumOk;
    hide GenericsCode;
    AtCons(sig, i, FNPTR, g + tail);
    AtSplit(sig, i + 1, g, tail);
    var j := i + 1 + |g|;
    FirstByte(sig, j, tail);
    if t.generics.Some? {
      AtCons(sig, i + 1, CALLCONV_GENERIC, EncNum(t.generics.value));
      NumRoundTrip(sig, i + 2, t.generics.value);
    }
    MethodRestComplete(sig, j, t);
  }

  // ---------- Consequences ----------

  /** Exactly the encodings are accepted: a parse ends at `j` if and only if a tree's encoding lies there, and only one tree's can. */
  lemma {:induction false} ParseIsExact(sig: seq<byte>, i: nat, j: nat)
    ensures forall s, t :: TypeOk(s) && TypeOk(t) && At(sig, i, EncType(s)) && At(sig, i, EncType(t)) ==> s == t
    ensures (exists t :: TypeOk(t) && At(sig, i, EncType(t)) && j == i + |EncType(t)|) <==>
              ParseType(sig, i).Some? && ParseType(sig, i).value.next == j
  {
    forall s, t | TypeOk(s) && TypeOk(t) && At(sig, i, EncType(s)) && At(sig, i, EncType(t))
      ensures s == t
    {
      TypeComplete(sig, i, s);
      TypeComplete(sig, i, t);
    }
    forall t | TypeOk(t) && At(sig, i, EncType(t)) && j == i + |EncType(t)|
      ensures ParseType(sig, i).Some? && ParseType(sig, i).value.next == j
    {
      TypeComplete(sig, i, t);
    }
    if ParseType(sig, i).Some? {
      TypeSound(sig, i);
    }
  }

  /** No encoding is a prefix of another, and different trees have different encodings. */
  lemma {:induction false} EncodingsArePrefixFree(s: Type, t: Type, rest: seq<byte>)
    requires TypeOk(s) && TypeOk(t) && EncType(s) + rest == EncType(t)
    ensures s == t && rest == []
  {
    var sig := EncType(t);
    AtSplit(sig, 0, EncType(s), rest);
    assert At(sig, 0, EncType(t)) && At(sig, 0, EncType(s) + rest);
    hide EncType;
    hide At;
    TypeComplete(sig, 0, t);
    TypeComplete(sig, 0, s);
  }
}
