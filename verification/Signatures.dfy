/**
 Type signatures (sections II.23.2.7 to II.23.2.15 of ECMA-335): concrete syntax trees, their byte
 encoding, and a parser that builds the tree. The grammar is exactly what the cursor functions of
 sig_helpers.cpp accept: native I and U are missing, and a function pointer's calling convention is
 consumed only when it is GENERIC.
 */
module Signatures {
  import opened Bytes

  const END: byte := 0x00
  const VOID: byte := 0x01
  const STRING: byte := 0x0E
  const PTR: byte := 0x0F
  const BYREF: byte := 0x10
  const VALUETYPE: byte := 0x11
  const CLASS: byte := 0x12
  const VAR: byte := 0x13
  const ARRAY: byte := 0x14
  const GENERICINST: byte := 0x15
  const TYPEDBYREF: byte := 0x16
  const FNPTR: byte := 0x1B
  const OBJECT: byte := 0x1C
  const SZARRAY: byte := 0x1D
  const MVAR: byte := 0x1E
  const CMOD_REQD: byte := 0x1F
  const CMOD_OPT: byte := 0x20
  const SENTINEL: byte := 0x41
  const CALLCONV_GENERIC: byte := 0x10

  /** A compressed unsigned integer, with the number of bytes its encoding takes. */
  datatype Num = Num(width: nat, value: nat)

  datatype Mod = Mod(kind: byte, token: Num)

  datatype Nums = Nums(count: Num, items: seq<Num>)

  datatype Shape = Shape(rank: Num, sizes: Nums, lows: Nums)

  datatype Type =
    | Prim(elem: byte)
    | Named(kind: byte, token: Num)
    | Index(kind: byte, number: Num)
    | Ptr(mods: seq<Mod>, target: Type)
    | Vector(mods: seq<Mod>, item: Type)
    | Matrix(item: Type, shape: Shape)
    | Generic(kind: byte, token: Num, count: Num, args: seq<Type>)
    | FnPtr(generics: Option<Num>, count: Num, ret: Slot, params: seq<Param>)

  /** A return type or parameter: TYPEDBYREF, or a type that may be passed by reference. */
  datatype Slot = Typed(mods: seq<Mod>, byref: bool, of: Type) | TypedByRef(mods: seq<Mod>)

  datatype Param = Param(sentinel: bool, slot: Slot)

  // ---------- Well-formed trees, in the numbers of section II.23.1.16 ----------

  predicate NumOk(n: Num) {
    || (n.width == 1 && n.value < 0x80)
    || (n.width == 2 && n.value < 0x4000)
    || (n.width == 4 && n.value < 0x2000_0000)
  }

  predicate ModOk(m: Mod) {
    (m.kind == 0x1F || m.kind == 0x20) && NumOk(m.token)
  }

  predicate ModsOk(ms: seq<Mod>) {
    forall i :: 0 <= i < |ms| ==> ModOk(ms[i])
  }

  predicate NumsOk(ns: Nums) {
    NumOk(ns.count) && ns.count.value == |ns.items| && forall i :: 0 <= i < |ns.items| ==> NumOk(ns.items[i])
  }

  predicate IsPrim(b: byte) {
    0x01 <= b <= 0x0E || b == 0x1C
  }

  predicate TypeOk(t: Type)
    decreases t, 0
  {
    match t
    case Prim(b) => IsPrim(b)
    case Named(k, n) => (k == 0x11 || k == 0x12) && NumOk(n)
    case Index(k, n) => (k == 0x13 || k == 0x1E) && NumOk(n)
    case Ptr(ms, u) => ModsOk(ms) && TypeOk(u)
    case Vector(ms, u) => ModsOk(ms) && TypeOk(u)
    case Matrix(u, s) => TypeOk(u) && NumOk(s.rank) && NumsOk(s.sizes) && NumsOk(s.lows)
    case Generic(k, n, c, args) =>
      (k == 0x11 || k == 0x12) && NumOk(n) && NumOk(c) && c.value == |args| && TypesOk(args)
    case FnPtr(g, c, r, ps) =>
      && (g.Some? ==> NumOk(g.value))
      && NumOk(c) && (g.None? ==> c != Num(1, 0x10))
      && c.value == |ps| && SlotOk(r) && ParamsOk(ps, false)
  }

  predicate TypesOk(ts: seq<Type>)
    decreases ts, 0
  {
    ts == [] || (TypeOk(ts[0]) && TypesOk(ts[1..]))
  }

  predicate SlotOk(s: Slot)
    decreases s, 0
  {
    ModsOk(s.mods) && (s.Typed? ==> TypeOk(s.of))
  }

  /** At most one sentinel in a parameter list. */
  predicate ParamsOk(ps: seq<Param>, seen: bool)
    decreases ps, 0
  {
    ps == [] ||
    (!(seen && ps[0].sentinel) && (assert ps[0].slot < ps[0]; SlotOk(ps[0].slot)) && ParamsOk(ps[1..], seen || ps[0].sentinel))
  }

  // ---------- Encoding ----------

  function EncNum(n: Num): (b: seq<byte>)
    requires NumOk(n)
    ensures |b| == n.width
  {
    if n.width == 1 then [n.value]
    else if n.width == 2 then [0x80 + n.value / 0x100, n.value % 0x100]
    else [0xC0 + n.value / 0x100_0000, n.value / 0x1_0000 % 0x100, n.value / 0x100 % 0x100, n.value % 0x100]
  }

  function EncMods(ms: seq<Mod>): (b: seq<byte>)
    requires ModsOk(ms)
  {
    if ms == [] then [] else [ms[0].kind] + EncNum(ms[0].token) + EncMods(ms[1..])
  }

  function EncItems(ns: seq<Num>): (b: seq<byte>)
    requires forall i :: 0 <= i < |ns| ==> NumOk(ns[i])
  {
    if ns == [] then [] else EncNum(ns[0]) + EncItems(ns[1..])
  }

  function EncNums(ns: Nums): seq<byte>
    requires NumsOk(ns)
  {
    EncNum(ns.count) + EncItems(ns.items)
  }

  function EncType(t: Type): (b: seq<byte>)
    requires TypeOk(t)
    ensures |b| > 0 && b[0] != 0x1F && b[0] != 0x20 && b[0] != 0x10 && b[0] != 0x16 && b[0] != 0x41
    decreases t, 0
  {
    match t
    case Prim(b) => [b]
    case Named(k, n) => [k] + EncNum(n)
    case Index(k, n) => [k] + EncNum(n)
    case Ptr(ms, u) => [0x0F] + (EncMods(ms) + EncType(u))
    case Vector(ms, u) => [0x1D] + (EncMods(ms) + EncType(u))
    case Matrix(u, s) => [0x14] + (EncType(u) + (EncNum(s.rank) + (EncNums(s.sizes) + EncNums(s.lows))))
    case Generic(k, n, c, args) => [0x15] + ([k] + (EncNum(n) + (EncNum(c) + EncTypes(args))))
    case FnPtr(g, c, r, ps) =>
      [0x1B] + ((if g.Some? then [0x10] + EncNum(g.value) else []) +
                 (EncNum(c) + (EncSlot(r) + EncParams(ps, false))))
  }

  function EncTypes(ts: seq<Type>): (b: seq<byte>)
    requires TypesOk(ts)
    decreases ts, 0
  {
    if ts == [] then [] else EncType(ts[0]) + EncTypes(ts[1..])
  }

  function EncSlot(s: Slot): (b: seq<byte>)
    requires SlotOk(s)
    ensures |b| > 0 && b[0] != 0x41
    decreases s, 0
  {
    var tail := match s
      case TypedByRef(_) => [0x16]
      case Typed(_, byref, t) => (if byref then [0x10] else []) + EncType(t);
    assert s.mods != [] ==> EncMods(s.mods)[0] == s.mods[0].kind;
    EncMods(s.mods) + tail
  }

  function EncParams(ps: seq<Param>, seen: bool): (b: seq<byte>)
    requires ParamsOk(ps, seen)
    decreases ps, 0
  {
    if ps == [] then []
    else (if ps[0].sentinel then [0x41] else []) + ((assert ps[0].slot < ps[0]; EncSlot(ps[0].slot)) + EncParams(ps[1..], seen || ps[0].sentinel))
  }

  // ---------- Parsing ----------

  /** A parsed item and the first byte after it. */
  datatype Parsed<+T> = Parsed(item: T, next: nat)

  /** CorSigUncompressData; a token is compressed the same way. */
  function ParseNum(sig: seq<byte>, i: nat): (r: Option<Parsed<Num>>)
    ensures r.Some? ==> NumOk(r.value.item) && r.value.next == i + r.value.item.width <= |sig|
  {
    if i >= |sig| then None
    else if sig[i] < 0x80 then Some(Parsed(Num(1, sig[i]), i + 1))
    else if sig[i] < 0xC0 then
      if i + 2 > |sig| then None
      else Some(Parsed(Num(2, (sig[i] as int - 0x80) * 0x100 + sig[i + 1] as int), i + 2))
    else if sig[i] < 0xE0 then
      if i + 4 > |sig| then None
      else Some(Parsed(Num(4, (sig[i] as int - 0xC0) * 0x100_0000 + sig[i + 1] as int * 0x1_0000 +
                               sig[i + 2] as int * 0x100 + sig[i + 3] as int), i + 4))
    else None
  }

  function ParseMods(sig: seq<byte>, i: nat): (r: Option<Parsed<seq<Mod>>>)
    ensures r.Some? ==> i <= r.value.next < |sig| && ModsOk(r.value.item)
    decreases |sig| - i
  {
    if i >= |sig| then None
    else if sig[i] == CMOD_OPT || sig[i] == CMOD_REQD then
      match ParseNum(sig, i + 1)
      case None => None
      case Some(n) =>
        match ParseMods(sig, n.next)
        case None => None
        case Some(rest) => Some(Parsed([Mod(sig[i], n.item)] + rest.item, rest.next))
    else Some(Parsed([], i))
  }

  function ParseItems(sig: seq<byte>, i: nat, n: nat): (r: Option<Parsed<seq<Num>>>)
    requires i <= |sig|
    ensures r.Some? ==> i <= r.value.next <= |sig| && |r.value.item| == n
    ensures r.Some? ==> forall k :: 0 <= k < n ==> NumOk(r.value.item[k])
    decreases n
  {
    if n == 0 then Some(Parsed([], i))
    else
      match ParseNum(sig, i)
      case None => None
      case Some(h) =>
        match ParseItems(sig, h.next, n - 1)
        case None => None
        case Some(rest) => Some(Parsed([h.item] + rest.item, rest.next))
  }

  function ParseNums(sig: seq<byte>, i: nat): (r: Option<Parsed<Nums>>)
    ensures r.Some? ==> i < r.value.next <= |sig| && NumsOk(r.value.item)
  {
    match ParseNum(sig, i)
    case None => None
    case Some(c) =>
      match ParseItems(sig, c.next, c.item.value)
      case None => None
      case Some(items) => Some(Parsed(Nums(c.item, items.item), items.next))
  }

  function ParseShape(sig: seq<byte>, i: nat): (r: Option<Parsed<Shape>>)
    ensures r.Some? ==> i < r.value.next <= |sig|
    ensures r.Some? ==> NumOk(r.value.item.rank) && NumsOk(r.value.item.sizes) && NumsOk(r.value.item.lows)
  {
    match ParseNum(sig, i)
    case None => None
    case Some(rank) =>
      match ParseNums(sig, rank.next)
      case None => None
      case Some(sizes) =>
        match ParseNums(sig, sizes.next)
        case None => None
        case Some(lows) => Some(Parsed(Shape(rank.item, sizes.item, lows.item), lows.next))
  }

  function ParseType(sig: seq<byte>, i: nat): (r: Option<Parsed<Type>>)
    ensures r.Some? ==> i < r.value.next <= |sig| && TypeOk(r.value.item)
    decreases |sig| - i, 3
  {
    if i >= |sig| then None
    else if IsPrim(sig[i]) then Some(Parsed(Prim(sig[i]), i + 1))
    else if sig[i] == VALUETYPE || sig[i] == CLASS then
      match ParseNum(sig, i + 1)
      case None => None
      case Some(n) => Some(Parsed(Named(sig[i], n.item), n.next))
    else if sig[i] == VAR || sig[i] == MVAR then
      match ParseNum(sig, i + 1)
      case None => None
      case Some(n) => Some(Parsed(Index(sig[i], n.item), n.next))
    else if sig[i] == PTR || sig[i] == SZARRAY then
      match ParseMods(sig, i + 1)
      case None => None
      case Some(ms) =>
        match ParseType(sig, ms.next)
        case None => None
        case Some(u) =>
          Some(Parsed(if sig[i] == PTR then Ptr(ms.item, u.item) else Vector(ms.item, u.item), u.next))
    else if sig[i] == ARRAY then
      match ParseType(sig, i + 1)
      case None => None
      case Some(u) =>
        match ParseShape(sig, u.next)
        case None => None
        case Some(s) => Some(Parsed(Matrix(u.item, s.item), s.next))
    else if sig[i] == GENERICINST then ParseGeneric(sig, i + 1)
    else if sig[i] == FNPTR then ParseMethod(sig, i + 1)
    else None
  }

  function ParseGeneric(sig: seq<byte>, i: nat): (r: Option<Parsed<Type>>)
    ensures r.Some? ==> i < r.value.next <= |sig| && TypeOk(r.value.item) && r.value.item.Generic?
    decreases |sig| - i, 3
  {
    if i >= |sig| || (sig[i] != VALUETYPE && sig[i] != CLASS) then None
    else
      match ParseNum(sig, i + 1)
      case None => None
      case Some(n) =>
        match ParseNum(sig, n.next)
        case None => None
        case Some(c) =>
          match ParseTypes(sig, c.next, c.item.value)
          case None => None
          case Some(args) => Some(Parsed(Generic(sig[i], n.item, c.item, args.item), args.next))
  }

  function ParseTypes(sig: seq<byte>, i: nat, n: nat): (r: Option<Parsed<seq<Type>>>)
    requires i <= |sig|
    ensures r.Some? ==> i <= r.value.next <= |sig| && |r.value.item| == n && TypesOk(r.value.item)
    decreases |sig| - i, 4
  {
    if n == 0 then Some(Parsed([], i))
    else
      match ParseType(sig, i)
      case None => None
      case Some(t) =>
        match ParseTypes(sig, t.next, n - 1)
        case None => None
        case Some(rest) => Some(Parsed([t.item] + rest.item, rest.next))
  }

  function ParseSlot(sig: seq<byte>, i: nat): (r: Option<Parsed<Slot>>)
    ensures r.Some? ==> i < r.value.next <= |sig| && SlotOk(r.value.item)
    decreases |sig| - i, 4
  {
    match ParseMods(sig, i)
    case None => None
    case Some(ms) =>
      if sig[ms.next] == TYPEDBYREF then Some(Parsed(TypedByRef(ms.item), ms.next + 1))
      else
        var byref := sig[ms.next] == BYREF;
        match ParseType(sig, if byref then ms.next + 1 else ms.next)
        case None => None
        case Some(t) => Some(Parsed(Typed(ms.item, byref, t.item), t.next))
  }

  function ParseParams(sig: seq<byte>, i: nat, n: nat, seen: bool): (r: Option<Parsed<seq<Param>>>)
    requires i <= |sig|
    ensures r.Some? ==> i <= r.value.next <= |sig| && |r.value.item| == n && ParamsOk(r.value.item, seen)
    decreases |sig| - i, 5
  {
    if n == 0 then Some(Parsed([], i))
    else
      var s := i < |sig| && sig[i] == SENTINEL;
      if s && seen then None
      else
        match ParseSlot(sig, if s then i + 1 else i)
        case None => None
        case Some(p) =>
          match ParseParams(sig, p.next, n - 1, seen || s)
          case None => None
          case Some(rest) => Some(Parsed([Param(s, p.item)] + rest.item, rest.next))
  }

  function ParseMethod(sig: seq<byte>, i: nat): (r: Option<Parsed<Type>>)
    ensures r.Some? ==> i < r.value.next <= |sig| && TypeOk(r.value.item) && r.value.item.FnPtr?
    decreases |sig| - i, 6
  {
    if i >= |sig| then None
    else if sig[i] == CALLCONV_GENERIC then
      match ParseNum(sig, i + 1)
      case None => None
      case Some(g) => ParseMethodRest(sig, g.next, Some(g.item))
    else ParseMethodRest(sig, i, None)
  }

  function ParseMethodRest(sig: seq<byte>, i: nat, g: Option<Num>): (r: Option<Parsed<Type>>)
    requires g.Some? ==> NumOk(g.value)
    requires g.None? ==> i < |sig| && sig[i] != CALLCONV_GENERIC
    ensures r.Some? ==> i < r.value.next <= |sig| && TypeOk(r.value.item) && r.value.item.FnPtr?
    decreases |sig| - i, 5
  {
    match ParseNum(sig, i)
    case None => None
    case Some(c) =>
      match ParseSlot(sig, c.next)
      case None => None
      case Some(ret) =>
        match ParseParams(sig, ret.next, c.item.value, false)
        case None => None
        case Some(ps) => Some(Parsed(FnPtr(g, c.item, ret.item, ps.item), ps.next))
  }
}
