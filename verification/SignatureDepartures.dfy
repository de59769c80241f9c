/**
 Where the skipper's grammar departs from sections II.23.2.7 to II.23.2.12 of ECMA-335: what it makes
 of the standard's function pointers (sig_helpers.cpp:88-127) and of native integers
 (sig_helpers.cpp:178-194).
 */
module SignatureDepartures {
  import opened Bytes
  import opened Signatures
  import opened SignatureTheorems

  // ---------- Function pointers ----------

  predicate PointerOk(generics: Option<Num>, count: Num, ret: Slot, ps: seq<Param>) {
    (generics.Some? ==> NumOk(generics.value)) && NumOk(count) && count.value == |ps| && SlotOk(ret) && ParamsOk(ps, false)
  }

  /** FNPTR and the standard's MethodDefSig or MethodRefSig: convention, type-parameter count, count, return, parameters. */
  function EncPointer(conv: byte, generics: Option<Num>, count: Num, ret: Slot, ps: seq<Param>): (b: seq<byte>)
    requires PointerOk(generics, count, ret, ps)
  {
    [FNPTR] + ([conv] + ((if generics.Some? then EncNum(generics.value) else []) +
                         (EncNum(count) + (EncSlot(ret) + EncParams(ps, false)))))
  }

  /** With convention GENERIC the skipper consumes what the standard encodes, and no more. */
  lemma {:induction false} GenericPointerSkipped(sig: seq<byte>, i: nat, g: Num, count: Num, ret: Slot, ps: seq<Param>)
    requires PointerOk(Some(g), count, ret, ps) && At(sig, i, EncPointer(CALLCONV_GENERIC, Some(g), count, ret, ps))
    ensures ParseType(sig, i) ==
            Some(Parsed(FnPtr(Some(g), count, ret, ps), i + |EncPointer(CALLCONV_GENERIC, Some(g), count, ret, ps)|))
  {
    var t := FnPtr(Some(g), count, ret, ps);
    var tail := EncNum(count) + (EncSlot(ret) + EncParams(ps, false));
    assert [CALLCONV_GENERIC] + (EncNum(g) + tail) == [CALLCONV_GENERIC] + EncNum(g) + tail;
    assert EncType(t) == EncPointer(CALLCONV_GENERIC, Some(g), count, ret, ps);
    hide *;
    AcceptsPointer(g, count, ret, ps);
    TypeComplete(sig, i, t);
  }

  lemma AcceptsPointer(g: Num, count: Num, ret: Slot, ps: seq<Param>)
    requires PointerOk(Some(g), count, ret, ps)
    ensures TypeOk(FnPtr(Some(g), count, ret, ps))
  {
  }

  lemma ParamsGrow(sig: seq<byte>, i: nat, n: nat, seen: bool)
    requires i <= |sig| && n > 0 && ParseParams(sig, i, n, seen).Some?
    ensures ParseParams(sig, i, n, seen).value.next > i
  {
    hide ParseSlot;
    hide SlotOk;
  }

  lemma ParamsCons(sig: seq<byte>, i: nat, n: nat, seen: bool, p: Param, next: nat)
    requires i < |sig| && (sig[i] == SENTINEL <==> p.sentinel) && !(seen && p.sentinel)
    requires ParseSlot(sig, if p.sentinel then i + 1 else i) == Some(Parsed(p.slot, next))
    ensures next <= |sig|
    ensures var rest := ParseParams(sig, next, n, seen || p.sentinel);
            && (ParseParams(sig, i, n + 1, seen).Some? <==> rest.Some?)
            && (rest.Some? ==> ParseParams(sig, i, n + 1, seen).value.next == rest.value.next)
  {
    hide ParseSlot;
    hide SlotOk;
  }

  lemma {:induction false} FirstParam(sig: seq<byte>, i: nat, ps: seq<Param>, seen: bool)
    requires ps != [] && ParamsOk(ps, seen) && At(sig, i, EncParams(ps, seen))
    ensures var p := ps[0]; var start := i + (if p.sentinel then 1 else 0); var next := start + |EncSlot(p.slot)|;
            && SlotOk(p.slot) && ParamsOk(ps[1..], seen || p.sentinel) && !(seen && p.sentinel)
            && i < |sig| && (sig[i] == SENTINEL <==> p.sentinel)
            && ParseSlot(sig, start) == Some(Parsed(p.slot, next))
            && At(sig, next, EncParams(ps[1..], seen || p.sentinel))
            && i + |EncParams(ps, seen)| == next + |EncParams(ps[1..], seen || p.sentinel)|
  {
    hide At;
    hide EncSlot;
    hide ParseSlot;
    hide SlotOk;
    var p := ps[0];
    assert p.slot < p;
    var pre: seq<byte> := if p.sentinel then [SENTINEL] else [];
    var rest := EncParams(ps[1..], seen || p.sentinel);
    AtSplit(sig, i, pre, EncSlot(p.slot) + rest);
    AtSplit(sig, i + |pre|, EncSlot(p.slot), rest);
    FirstByte(sig, i, pre + (EncSlot(p.slot) + rest));
    SlotComplete(sig, i + |pre|, p.slot);
  }

  /** Reading `c` parameters where `ps` stand: too few stop inside, too many fail or run past the end. */
  lemma {:induction false} ReadsParams(sig: seq<byte>, i: nat, ps: seq<Param>, seen: bool, c: nat)
    requires ParamsOk(ps, seen) && At(sig, i, EncParams(ps, seen))
    ensures i <= |sig|
    ensures var r := ParseParams(sig, i, c, seen); var end := i + |EncParams(ps, seen)|;
            && (c < |ps| ==> r.Some? && r.value.next < end)
            && (c == |ps| ==> r.Some? && r.value.next == end)
            && (c > |ps| && r.Some? ==> r.value.next > end)
    decreases |ps|
  {
    hide *;
    AtBound(sig, i, EncParams(ps, seen));
    if ps == [] {
      NoParams(sig, i, seen);
      if c > 0 && ParseParams(sig, i, c, seen).Some? {
        ParamsGrow(sig, i, c, seen);
      }
    } else {
      FirstParam(sig, i, ps, seen);
      if c == 0 {
        NoParams(sig, i, seen);
      } else {
        var p := ps[0];
        var next := i + (if p.sentinel then 1 else 0) + |EncSlot(p.slot)|;
        ReadsParams(sig, next, ps[1..], seen || p.sentinel, c - 1);
        ParamsCons(sig, i, c - 1, seen, p, next);
      }
    }
  }

  lemma NoParams(sig: seq<byte>, i: nat, seen: bool)
    requires i <= |sig|
    ensures ParseParams(sig, i, 0, seen) == Some(Parsed([], i)) && EncParams([], seen) == []
  {
  }

  lemma PointerStart(sig: seq<byte>, i: nat, c: byte, n: nat, ret: Slot, ps: seq<Param>)
    requires n < 0x80 && PointerOk(None, Num(1, n), ret, ps) && At(sig, i, EncPointer(c, None, Num(1, n), ret, ps))
    ensures |ps| == n && i + 3 <= |sig| && sig[i] == FNPTR && sig[i + 1] == c && sig[i + 2] == n
    ensures ParamsOk([Param(false, ret)] + ps, false) && At(sig, i + 3, EncParams([Param(false, ret)] + ps, false))
    ensures |EncPointer(c, None, Num(1, n), ret, ps)| == 3 + |EncParams([Param(false, ret)] + ps, false)|
  {
    hide At;
    hide EncSlot;
    hide SlotOk;
    var all := [Param(false, ret)] + ps;
    assert all[1..] == ps && all[0].slot == ret;
    var tail := EncSlot(ret) + EncParams(ps, false);
    assert ParamsOk(all, false);
    assert EncParams(all, false) == [] + tail == tail;
    assert [] + (EncNum(Num(1, n)) + tail) == [n as byte] + tail;
    AtCons(sig, i, FNPTR, [c] + ([n as byte] + tail));
    AtCons(sig, i + 1, c, [n as byte] + tail);
    AtCons(sig, i + 2, n as byte, tail);
  }

  lemma SlotOfCount(sig: seq<byte>, j: nat)
    requires j < |sig| && sig[j] <= STRING
    ensures sig[j] == 0 ==> ParseSlot(sig, j) == None
    ensures sig[j] > 0 ==> ParseSlot(sig, j) == Some(Parsed(Typed([], false, Prim(sig[j])), j + 1))
  {
    assert ParseMods(sig, j) == Some(Parsed([], j));
  }

  lemma PointerParse(sig: seq<byte>, i: nat)
    requires i + 2 < |sig| && sig[i] == FNPTR && sig[i + 1] < 0x80 && sig[i + 1] != CALLCONV_GENERIC
    ensures ParseSlot(sig, i + 2).None? ==> ParseType(sig, i) == None
    ensures ParseSlot(sig, i + 2).Some? ==>
              var ps := ParseParams(sig, ParseSlot(sig, i + 2).value.next, sig[i + 1] as int, false);
              && (ParseType(sig, i).Some? <==> ps.Some?)
              && (ps.Some? ==> ParseType(sig, i).value.next == ps.value.next)
  {
    hide ParseSlot;
    hide ParseParams;
    hide SlotOk;
    hide ParamsOk;
    hide TypeOk;
    assert ParseNum(sig, i + 1) == Some(Parsed(Num(1, sig[i + 1]), i + 2));
    assert ParseType(sig, i) == ParseMethod(sig, i + 1) == ParseMethodRest(sig, i + 1, None);
  }

  /**
   With any other convention `c` that byte is taken for the parameter count and the real count for the
   return type. For a count up to 14: without parameters the pointer is rejected; otherwise the
   skipper ends where the pointer ends if and only if c happens to be the count plus one. A smaller c
   leaves the cursor inside the pointer, and the caller goes on reading there.
   */
  lemma {:induction false} StandardPointerMisread(sig: seq<byte>, i: nat, c: byte, n: nat, ret: Slot, ps: seq<Param>)
    requires c < 0x80 && c != CALLCONV_GENERIC && n <= 14
    requires PointerOk(None, Num(1, n), ret, ps) && At(sig, i, EncPointer(c, None, Num(1, n), ret, ps))
    ensures var r := ParseType(sig, i); var end := i + |EncPointer(c, None, Num(1, n), ret, ps)|;
            && (n == 0 ==> r == None)
            && (n > 0 ==> (r.Some? && r.value.next == end <==> c as int == n + 1))
            && (n > 0 && c as int <= n ==> r.Some? && i + 3 <= r.value.next < end)
            && (n > 0 && c as int > n + 1 && r.Some? ==> r.value.next > end)
  {
    hide *;
    PointerStart(sig, i, c, n, ret, ps);
    Small(n);
    SlotOfCount(sig, i + 2);
    PointerParse(sig, i);
    if n > 0 {
      ReadsParams(sig, i + 3, [Param(false, ret)] + ps, false, c as int);
    }
  }

  lemma Small(n: nat)
    requires n <= 14
    ensures n <= STRING as int
  {
  }

  /** `void (*)(int)` under the default convention: accepted, with the cursor just behind the count. */
  lemma {:induction false} DefaultPointerStopsInside()
    ensures var sig: seq<byte> := [FNPTR, 0x00, 0x01, VOID, 0x08];
            ParseType(sig, 0).Some? && ParseType(sig, 0).value.next == 3
  {
    var sig: seq<byte> := [FNPTR, 0x00, 0x01, VOID, 0x08];
    SlotOfCount(sig, 2);
    PointerParse(sig, 0);
    assert ParseParams(sig, 3, 0, false) == Some(Parsed([], 3));
  }

  // ---------- Native integers ----------

  const NATIVE_INT: byte := 0x18
  const NATIVE_UINT: byte := 0x19

  predicate IsNative(b: byte) {
    b == NATIVE_INT || b == NATIVE_UINT
  }

  /** Offset `k` of the tree's encoding is one of its primitive leaves. */
  predicate LeafAt(t: Type, k: nat)
    requires TypeOk(t)
    decreases t, 0
  {
    match t
    case Prim(_) => k == 0
    case Ptr(ms, u) => k >= 1 + |EncMods(ms)| && LeafAt(u, k - 1 - |EncMods(ms)|)
    case Vector(ms, u) => k >= 1 + |EncMods(ms)| && LeafAt(u, k - 1 - |EncMods(ms)|)
    case Matrix(u, _) => k >= 1 && LeafAt(u, k - 1)
    case Generic(_, n, c, args) => k >= 2 + n.width + c.width && LeafIn(args, k - 2 - n.width - c.width)
    case FnPtr(g, c, ret, ps) =>
      && k >= 1 + |GenericsCode(g)| + c.width
      && var j := k - 1 - |GenericsCode(g)| - c.width;
         if j < |EncSlot(ret)| then LeafInSlot(ret, j) else LeafInParams(ps, false, j - |EncSlot(ret)|)
    case _ => false
  }

  predicate LeafInSlot(s: Slot, k: nat)
    requires SlotOk(s)
    decreases s, 0
  {
    && s.Typed? && k >= |EncMods(s.mods)| + (if s.byref then 1 else 0)
    && LeafAt(s.of, k - |EncMods(s.mods)| - (if s.byref then 1 else 0))
  }

  predicate LeafInParams(ps: seq<Param>, seen: bool, k: nat)
    requires ParamsOk(ps, seen)
    decreases ps, 0
  {
    ps != [] &&
    var pre := if ps[0].sentinel then 1 else 0;
    assert ps[0].slot < ps[0];
    if k < pre + |EncSlot(ps[0].slot)| then k >= pre && LeafInSlot(ps[0].slot, k - pre)
    else LeafInParams(ps[1..], seen || ps[0].sentinel, k - pre - |EncSlot(ps[0].slot)|)
  }

  predicate LeafIn(ts: seq<Type>, k: nat)
    requires TypesOk(ts)
    decreases ts, 0
  {
    ts != [] &&
    if k < |EncType(ts[0])| then LeafAt(ts[0], k) else LeafIn(ts[1..], k - |EncType(ts[0])|)
  }

  lemma {:induction false} LeafInside(t: Type, k: nat)
    requires TypeOk(t) && LeafAt(t, k)
    ensures k < |EncType(t)|
    decreases t, 0
  {
    match t
    case Ptr(ms, u) => LeafInside(u, k - 1 - |EncMods(ms)|);
    case Vector(ms, u) => LeafInside(u, k - 1 - |EncMods(ms)|);
    case Matrix(u, _) => LeafInside(u, k - 1);
    case Generic(_, n, c, args) => LeafWithin(args, k - 2 - n.width - c.width);
    case FnPtr(g, c, ret, ps) =>
      var j := k - 1 - |GenericsCode(g)| - c.width;
      if j >= |EncSlot(ret)| {
        LeafWithinParams(ps, false, j - |EncSlot(ret)|);
      }
    case _ =>
  }

  lemma {:induction false} LeafWithinParams(ps: seq<Param>, seen: bool, k: nat)
    requires ParamsOk(ps, seen) && LeafInParams(ps, seen, k)
    ensures k < |EncParams(ps, seen)|
    decreases ps, 0
  {
    hide EncSlot;
    hide LeafInSlot;
    hide SlotOk;
    var pre := if ps[0].sentinel then 1 else 0;
    if k >= pre + |EncSlot(ps[0].slot)| {
      LeafWithinParams(ps[1..], seen || ps[0].sentinel, k - pre - |EncSlot(ps[0].slot)|);
    }
  }

  lemma {:induction false} LeafWithin(ts: seq<Type>, k: nat)
    requires TypesOk(ts) && LeafIn(ts, k)
    ensures k < |EncTypes(ts)|
    decreases ts, 0
  {
    hide EncType;
    hide LeafAt;
    if k >= |EncType(ts[0])| {
      LeafWithin(ts[1..], k - |EncType(ts[0])|);
    }
  }

  /** `b` stands in `sig` up to its offset `k`, where a native integer stands. */
  predicate NativeAt(sig: seq<byte>, i: nat, b: seq<byte>, k: nat) {
    k < |b| && At(sig, i, b[..k]) && i + k < |sig| && IsNative(sig[i + k])
  }

  lemma NativeSplit(sig: seq<byte>, i: nat, a: seq<byte>, b: seq<byte>, k: nat)
    requires k >= |a| && NativeAt(sig, i, a + b, k)
    ensures At(sig, i, a) && NativeAt(sig, i + |a|, b, k - |a|)
  {
    assert (a + b)[..k] == a + b[..k - |a|];
    AtSplit(sig, i, a, b[..k - |a|]);
  }

  lemma NativeHere(sig: seq<byte>, i: nat)
    requires i < |sig| && IsNative(sig[i])
    ensures ParseType(sig, i) == None
  {
  }

  lemma ElementFails(sig: seq<byte>, i: nat, ms: Parsed<seq<Mod>>)
    requires i < |sig| && (sig[i] == PTR || sig[i] == SZARRAY)
    requires ParseMods(sig, i + 1) == Some(ms) && ParseType(sig, ms.next) == None
    ensures ParseType(sig, i) == None
  {
    hide ParseMods;
    hide ParseNum;
  }

  lemma NotMod(sig: seq<byte>, j: nat, b: seq<byte>, k: nat)
    requires NativeAt(sig, j, b, k) && b[0] != CMOD_OPT && b[0] != CMOD_REQD
    ensures j < |sig| && sig[j] != CMOD_OPT && sig[j] != CMOD_REQD
  {
    if k > 0 {
      FirstByte(sig, j, b[..k]);
    }
  }

  lemma {:induction false} NativeElement(sig: seq<byte>, i: nat, x: byte, ms: seq<Mod>, u: Type, k: nat)
    requires (x == PTR || x == SZARRAY) && ModsOk(ms) && TypeOk(u) && k >= 1 + |EncMods(ms)|
    requires NativeAt(sig, i, [x] + (EncMods(ms) + EncType(u)), k)
    ensures i < |sig| && sig[i] == x
    ensures var j := i + 1 + |EncMods(ms)|;
            && ParseMods(sig, i + 1) == Some(Parsed(ms, j))
            && NativeAt(sig, j, EncType(u), k - 1 - |EncMods(ms)|)
  {
    hide At;
    hide NativeAt;
    hide EncMods;
    hide EncType;
    hide TypeOk;
    hide ModsOk;
    NativeSplit(sig, i, [x], EncMods(ms) + EncType(u), k);
    FirstByte(sig, i, [x]);
    NativeSplit(sig, i + 1, EncMods(ms), EncType(u), k - 1);
    NotMod(sig, i + 1 + |EncMods(ms)|, EncType(u), k - 1 - |EncMods(ms)|);
    ModsComplete(sig, i + 1, ms);
  }

  lemma MatrixFails(sig: seq<byte>, i: nat)
    requires i < |sig| && sig[i] == ARRAY && ParseType(sig, i + 1) == None
    ensures ParseType(sig, i) == None
  {
  }

  lemma GenericFails(sig: seq<byte>, i: nat, kind: byte, n: Num, c: Num)
    requires i + 1 < |sig| && sig[i] == GENERICINST && sig[i + 1] == kind && (kind == VALUETYPE || kind == CLASS)
    requires ParseNum(sig, i + 2) == Some(Parsed(n, i + 2 + n.width))
    requires ParseNum(sig, i + 2 + n.width) == Some(Parsed(c, i + 2 + n.width + c.width))
    requires ParseTypes(sig, i + 2 + n.width + c.width, c.value) == None
    ensures ParseType(sig, i) == None
  {
    hide ParseNum;
    hide ParseTypes;
    assert ParseType(sig, i) == ParseGeneric(sig, i + 1);
  }

  lemma {:induction false} NativeArguments(sig: seq<byte>, i: nat, t: Type, k: nat)
    requires t.Generic? && TypeOk(t) && k >= 2 + t.token.width + t.count.width && NativeAt(sig, i, EncType(t), k)
    ensures i + 1 < |sig| && sig[i] == GENERICINST && sig[i + 1] == t.kind
    ensures var j := i + 2 + t.token.width;
            && NumOk(t.token) && NumOk(t.count)
            && ParseNum(sig, i + 2) == Some(Parsed(t.token, j))
            && ParseNum(sig, j) == Some(Parsed(t.count, j + t.count.width))
            && TypesOk(t.args) && NativeAt(sig, j + t.count.width, EncTypes(t.args), k - 2 - t.token.width - t.count.width)
  {
    var rest := EncNum(t.count) + EncTypes(t.args);
    assert EncType(t) == [GENERICINST] + ([t.kind] + (EncNum(t.token) + rest));
    hide At;
    hide NativeAt;
    hide ParseNum;
    hide EncNum;
    hide EncTypes;
    hide EncType;
    NativeSplit(sig, i, [GENERICINST], [t.kind] + (EncNum(t.token) + rest), k);
    FirstByte(sig, i, [GENERICINST]);
    NativeSplit(sig, i + 1, [t.kind], EncNum(t.token) + rest, k - 1);
    FirstByte(sig, i + 1, [t.kind]);
    NativeSplit(sig, i + 2, EncNum(t.token), rest, k - 2);
    NumRoundTrip(sig, i + 2, t.token);
    NativeSplit(sig, i + 2 + t.token.width, EncNum(t.count), EncTypes(t.args), k - 2 - t.token.width);
    NumRoundTrip(sig, i + 2 + t.token.width, t.count);
  }

  lemma LeafCases(t: Type, k: nat)
    requires TypeOk(t) && LeafAt(t, k)
    ensures t.Prim? || t.Ptr? || t.Vector? || t.Matrix? || t.Generic? || t.FnPtr?
    ensures t.Prim? ==> k == 0
    ensures t.Ptr? ==>
              && TypeOk(t.target) && ModsOk(t.mods) && EncType(t) == [PTR] + (EncMods(t.mods) + EncType(t.target))
              && k >= 1 + |EncMods(t.mods)| && LeafAt(t.target, k - 1 - |EncMods(t.mods)|)
    ensures t.Vector? ==>
              && TypeOk(t.item) && ModsOk(t.mods) && EncType(t) == [SZARRAY] + (EncMods(t.mods) + EncType(t.item))
              && k >= 1 + |EncMods(t.mods)| && LeafAt(t.item, k - 1 - |EncMods(t.mods)|)
    ensures t.Matrix? ==>
              TypeOk(t.item) && k >= 1 && LeafAt(t.item, k - 1) && [ARRAY] + EncType(t.item) <= EncType(t)
    ensures t.Generic? ==>
              && (t.kind == VALUETYPE || t.kind == CLASS) && TypesOk(t.args) && t.count.value == |t.args|
              && k >= 2 + t.token.width + t.count.width && LeafIn(t.args, k - 2 - t.token.width - t.count.width)
  {
    hide EncMods;
    hide EncTypes;
    hide EncNums;
    hide EncNum;
  }

  /**
   A native integer anywhere in a type makes the skipper reject it: if a tree's encoding stands up to
   one of its primitive leaves and a native integer stands there, no parse succeeds, whatever follows.
   */
  lemma {:induction false} NativeIntegersRejected(sig: seq<byte>, i: nat, t: Type, k: nat)
    requires TypeOk(t) && LeafAt(t, k) && NativeAt(sig, i, EncType(t), k)
    ensures ParseType(sig, i) == None
    decreases t, 1
  {
    hide *;
    LeafCases(t, k);
    if t.Prim? {
      NativeFirst(sig, i, EncType(t));
      NativeHere(sig, i);
    } else if t.Ptr? {
      NativeElement(sig, i, PTR, t.mods, t.target, k);
      var j := i + 1 + |EncMods(t.mods)|;
      NativeIntegersRejected(sig, j, t.target, k - 1 - |EncMods(t.mods)|);
      ElementFails(sig, i, Parsed(t.mods, j));
    } else if t.Vector? {
      NativeElement(sig, i, SZARRAY, t.mods, t.item, k);
      var j := i + 1 + |EncMods(t.mods)|;
      NativeIntegersRejected(sig, j, t.item, k - 1 - |EncMods(t.mods)|);
      ElementFails(sig, i, Parsed(t.mods, j));
    } else if t.Matrix? {
      LeafInside(t.item, k - 1);
      NativeMatrix(sig, i, t, k);
      NativeIntegersRejected(sig, i + 1, t.item, k - 1);
      MatrixFails(sig, i);
    } else if t.Generic? {
      NativeArguments(sig, i, t, k);
      var j := i + 2 + t.token.width + t.count.width;
      NativeAmong(sig, j, t.args, k - 2 - t.token.width - t.count.width, t.count.value);
      GenericFails(sig, i, t.kind, t.token, t.count);
    } else {
      NativePointer(sig, i, t, k);
    }
  }

  // ---------- Native integers in function pointers ----------

  lemma SlotShape(s: Slot, k: nat)
    requires SlotOk(s) && LeafInSlot(s, k)
    ensures s.Typed? && ModsOk(s.mods) && TypeOk(s.of)
    ensures var pre: seq<byte> := if s.byref then [BYREF] else [];
            && EncSlot(s) == EncMods(s.mods) + (pre + EncType(s.of))
            && k >= |EncMods(s.mods)| + |pre| && LeafAt(s.of, k - |EncMods(s.mods)| - |pre|)
  {
    hide EncMods;
    hide EncType;
  }

  lemma SlotFails(sig: seq<byte>, i: nat, ms: Parsed<seq<Mod>>, byref: bool)
    requires ParseMods(sig, i) == Some(ms) && ms.next < |sig| && sig[ms.next] != TYPEDBYREF && (sig[ms.next] == BYREF <==> byref)
    requires ParseType(sig, if byref then ms.next + 1 else ms.next) == None
    ensures ParseSlot(sig, i) == None
  {
    hide ParseMods;
    hide ParseType;
  }

  /** The first byte where `b` is to stand: that of `b`, or the native integer. */
  lemma NativeStart(sig: seq<byte>, j: nat, b: seq<byte>, k: nat)
    requires NativeAt(sig, j, b, k)
    ensures j < |sig| && (sig[j] == b[0] || IsNative(sig[j])) && (k > 0 ==> sig[j] == b[0])
  {
    if k > 0 {
      FirstByte(sig, j, b[..k]);
    }
  }

  lemma {:induction false} NativeSlot(sig: seq<byte>, i: nat, s: Slot, k: nat)
    requires SlotOk(s) && LeafInSlot(s, k) && NativeAt(sig, i, EncSlot(s), k)
    ensures ParseSlot(sig, i) == None
    decreases s, 0
  {
    hide *;
    SlotShape(s, k);
    var ms, pre: seq<byte> := s.mods, if s.byref then [BYREF] else [];
    var j := i + |EncMods(ms)|;
    NativeSplit(sig, i, EncMods(ms), pre + EncType(s.of), k);
    NativeSplit(sig, j, pre, EncType(s.of), k - |EncMods(ms)|);
    NativeStart(sig, j, pre + EncType(s.of), k - |EncMods(ms)|);
    SlotFirst(s.of, pre);
    NativeByte(sig[j]);
    ModsComplete(sig, i, ms);
    assert s.of < s;
    NativeIntegersRejected(sig, j + |pre|, s.of, k - |EncMods(ms)| - |pre|);
    SlotFails(sig, i, Parsed(ms, j), s.byref);
  }

  lemma SlotFirst(t: Type, pre: seq<byte>)
    requires TypeOk(t) && (pre == [] || pre == [BYREF])
    ensures |EncType(t)| > 0
    ensures var b := (pre + EncType(t))[0];
            && b != CMOD_OPT && b != CMOD_REQD && b != TYPEDBYREF && (b == BYREF <==> pre == [BYREF])
  {
  }

  lemma NativeByte(b: byte)
    ensures IsNative(b) ==> b != CMOD_OPT && b != CMOD_REQD && b != TYPEDBYREF && b != BYREF && b != SENTINEL
  {
  }

  lemma {:induction false} NativeParams(sig: seq<byte>, i: nat, ps: seq<Param>, seen: bool, k: nat, n: nat)
    requires ParamsOk(ps, seen) && LeafInParams(ps, seen, k) && NativeAt(sig, i, EncParams(ps, seen), k) && n == |ps|
    ensures i <= |sig| && ParseParams(sig, i, n, seen) == None
    decreases ps, 0
  {
    hide *;
    ParamShape(ps, seen, k);
    NativeBound(sig, i, EncParams(ps, seen), k);
    var p := ps[0];
    assert p.slot < p;
    var pre: seq<byte> := if p.sentinel then [SENTINEL] else [];
    var rest := EncParams(ps[1..], seen || p.sentinel);
    NativeStart(sig, i, pre + (EncSlot(p.slot) + rest), k);
    ParamFirst(p, rest);
    NativeByte(sig[i]);
    NativeSplit(sig, i, pre, EncSlot(p.slot) + rest, k);
    if k < |pre| + |EncSlot(p.slot)| {
      NativePrefix(sig, i + |pre|, EncSlot(p.slot), rest, k - |pre|);
      NativeSlot(sig, i + |pre|, p.slot, k - |pre|);
      FirstParamFails(sig, i, n, seen, p.sentinel);
    } else {
      NativeSplit(sig, i + |pre|, EncSlot(p.slot), rest, k - |pre|);
      SlotComplete(sig, i + |pre|, p.slot);
      var next := i + |pre| + |EncSlot(p.slot)|;
      NativeParams(sig, next, ps[1..], seen || p.sentinel, k - |pre| - |EncSlot(p.slot)|, n - 1);
      ParamsCons(sig, i, n - 1, seen, p, next);
    }
  }

  lemma ParamShape(ps: seq<Param>, seen: bool, k: nat)
    requires ParamsOk(ps, seen) && LeafInParams(ps, seen, k)
    ensures ps != [] && SlotOk(ps[0].slot) && ParamsOk(ps[1..], seen || ps[0].sentinel) && !(seen && ps[0].sentinel)
    ensures var pre: seq<byte> := if ps[0].sentinel then [SENTINEL] else [];
            && EncParams(ps, seen) == pre + (EncSlot(ps[0].slot) + EncParams(ps[1..], seen || ps[0].sentinel))
            && k >= |pre|
            && (k < |pre| + |EncSlot(ps[0].slot)| ==> LeafInSlot(ps[0].slot, k - |pre|))
            && (k >= |pre| + |EncSlot(ps[0].slot)| ==>
                  LeafInParams(ps[1..], seen || ps[0].sentinel, k - |pre| - |EncSlot(ps[0].slot)|))
  {
    assert ps[0].slot < ps[0];
    hide EncSlot;
    hide LeafInSlot;
  }

  lemma ParamFirst(p: Param, rest: seq<byte>)
    requires SlotOk(p.slot)
    ensures var pre: seq<byte> := if p.sentinel then [SENTINEL] else [];
            |EncSlot(p.slot)| > 0 && ((pre + (EncSlot(p.slot) + rest))[0] == SENTINEL <==> p.sentinel)
  {
  }

  lemma FirstParamFails(sig: seq<byte>, i: nat, n: nat, seen: bool, sentinel: bool)
    requires i < |sig| && n > 0 && (sig[i] == SENTINEL <==> sentinel)
    requires ParseSlot(sig, if sentinel then i + 1 else i) == None
    ensures ParseParams(sig, i, n, seen) == None
  {
    hide ParseSlot;
  }

  lemma PointerShape(t: Type, k: nat)
    requires t.FnPtr? && TypeOk(t) && LeafAt(t, k)
    ensures (t.generics.Some? ==> NumOk(t.generics.value)) && NumOk(t.count) && SlotOk(t.ret) && ParamsOk(t.params, false)
    ensures t.count.value == |t.params|
    ensures t.generics.None? ==> GenericsCode(t.generics) == [] && EncNum(t.count)[0] != CALLCONV_GENERIC
    ensures t.generics.Some? ==> GenericsCode(t.generics) == [CALLCONV_GENERIC] + EncNum(t.generics.value)
    ensures var g := GenericsCode(t.generics); var j := k - 1 - |g| - t.count.width;
            && EncType(t) == [FNPTR] + (g + (EncNum(t.count) + (EncSlot(t.ret) + EncParams(t.params, false))))
            && j >= 0
            && (j < |EncSlot(t.ret)| ==> LeafInSlot(t.ret, j))
            && (j >= |EncSlot(t.ret)| ==> LeafInParams(t.params, false, j - |EncSlot(t.ret)|))
  {
    CountByte(t.count);
    hide EncSlot;
    hide EncParams;
    hide LeafInSlot;
    hide LeafInParams;
  }

  lemma PointerFails(sig: seq<byte>, i: nat, g: Option<Num>, j: nat, c: Num)
    requires i + 1 < |sig| && sig[i] == FNPTR && (g.Some? ==> NumOk(g.value))
    requires if g.Some? then sig[i + 1] == CALLCONV_GENERIC && ParseNum(sig, i + 2) == Some(Parsed(g.value, j))
             else j == i + 1 && sig[i + 1] != CALLCONV_GENERIC
    requires ParseNum(sig, j) == Some(Parsed(c, j + c.width))
    requires var ret := ParseSlot(sig, j + c.width);
             ret.Some? ==> ret.value.next <= |sig| && ParseParams(sig, ret.value.next, c.value, false) == None
    ensures ParseType(sig, i) == None
  {
    hide ParseNum;
    hide ParseSlot;
    hide ParseParams;
    assert ParseType(sig, i) == ParseMethod(sig, i + 1);
    assert ParseMethod(sig, i + 1) == ParseMethodRest(sig, j, g);
  }

  lemma {:induction false} NativePointer(sig: seq<byte>, i: nat, t: Type, k: nat)
    requires t.FnPtr? && TypeOk(t) && LeafAt(t, k) && NativeAt(sig, i, EncType(t), k)
    ensures ParseType(sig, i) == None
    decreases t, 0
  {
    hide *;
    PointerShape(t, k);
    var g := GenericsCode(t.generics);
    var ret, ps := EncSlot(t.ret), EncParams(t.params, false);
    NativeSplit(sig, i, [FNPTR], g + (EncNum(t.count) + (ret + ps)), k);
    FirstByte(sig, i, [FNPTR]);
    NativeSplit(sig, i + 1, g, EncNum(t.count) + (ret + ps), k - 1);
    var j := i + 1 + |g|;
    NativeSplit(sig, j, EncNum(t.count), ret + ps, k - 1 - |g|);
    NumRoundTrip(sig, j, t.count);
    NumSize(t.count);
    FirstByte(sig, j, EncNum(t.count));
    if t.generics.Some? {
      NumSize(t.generics.value);
      AtCons(sig, i + 1, CALLCONV_GENERIC, EncNum(t.generics.value));
      NumRoundTrip(sig, i + 2, t.generics.value);
    }
    var start, rest := j + t.count.width, k - 1 - |g| - t.count.width;
    if rest < |ret| {
      NativePrefix(sig, start, ret, ps, rest);
      NativeSlot(sig, start, t.ret, rest);
    } else {
      NativeSplit(sig, start, ret, ps, rest);
      SlotComplete(sig, start, t.ret);
      NativeParams(sig, start + |ret|, t.params, false, rest - |ret|, t.count.value);
    }
    PointerFails(sig, i, t.generics, j, t.count);
  }

  lemma NumSize(n: Num)
    requires NumOk(n)
    ensures |EncNum(n)| == n.width > 0
  {
  }

  lemma NativeFirst(sig: seq<byte>, i: nat, b: seq<byte>)
    requires NativeAt(sig, i, b, 0)
    ensures i < |sig| && IsNative(sig[i])
  {
  }

  lemma NativeMatrix(sig: seq<byte>, i: nat, t: Type, k: nat)
    requires t.Matrix? && TypeOk(t) && TypeOk(t.item) && [ARRAY] + EncType(t.item) <= EncType(t)
    requires NativeAt(sig, i, EncType(t), k) && 1 <= k && k - 1 < |EncType(t.item)|
    ensures i < |sig| && sig[i] == ARRAY && NativeAt(sig, i + 1, EncType(t.item), k - 1)
  {
    var e := [ARRAY] + EncType(t.item);
    assert EncType(t)[..k] == e[..k];
    assert NativeAt(sig, i, e, k);
    hide EncType;
    hide NativeAt;
    NativeSplit(sig, i, [ARRAY], EncType(t.item), k);
    FirstByte(sig, i, [ARRAY]);
  }

  lemma {:induction false} NativeAmong(sig: seq<byte>, i: nat, ts: seq<Type>, k: nat, n: nat)
    requires TypesOk(ts) && LeafIn(ts, k) && NativeAt(sig, i, EncTypes(ts), k) && n == |ts|
    ensures i <= |sig| && ParseTypes(sig, i, n) == None
    decreases ts, 0
  {
    hide *;
    AmongCases(ts, k);
    NativeBound(sig, i, EncTypes(ts), k);
    var t := ts[0];
    if k < |EncType(t)| {
      NativePrefix(sig, i, EncType(t), EncTypes(ts[1..]), k);
      NativeIntegersRejected(sig, i, t, k);
      FirstTypeFails(sig, i, n);
    } else {
      NativeSplit(sig, i, EncType(t), EncTypes(ts[1..]), k);
      TypeComplete(sig, i, t);
      NativeAmong(sig, i + |EncType(t)|, ts[1..], k - |EncType(t)|, n - 1);
      LaterTypeFails(sig, i, n, Parsed(t, i + |EncType(t)|));
    }
  }

  lemma AmongCases(ts: seq<Type>, k: nat)
    requires TypesOk(ts) && LeafIn(ts, k)
    ensures ts != [] && TypeOk(ts[0]) && TypesOk(ts[1..]) && EncTypes(ts) == EncType(ts[0]) + EncTypes(ts[1..])
    ensures if k < |EncType(ts[0])| then LeafAt(ts[0], k) else LeafIn(ts[1..], k - |EncType(ts[0])|)
  {
  }

  lemma NativeBound(sig: seq<byte>, i: nat, b: seq<byte>, k: nat)
    requires NativeAt(sig, i, b, k)
    ensures i < |sig|
  {
  }

  lemma NativePrefix(sig: seq<byte>, i: nat, a: seq<byte>, b: seq<byte>, k: nat)
    requires NativeAt(sig, i, a + b, k) && k < |a|
    ensures NativeAt(sig, i, a, k)
  {
    assert (a + b)[..k] == a[..k];
  }

  lemma FirstTypeFails(sig: seq<byte>, i: nat, n: nat)
    requires i <= |sig| && n > 0 && ParseType(sig, i) == None
    ensures ParseTypes(sig, i, n) == None
  {
  }

  lemma LaterTypeFails(sig: seq<byte>, i: nat, n: nat, t: Parsed<Type>)
    requires i <= |sig| && n > 0 && ParseType(sig, i) == Some(t) && t.next <= |sig| && ParseTypes(sig, t.next, n - 1) == None
    ensures ParseTypes(sig, i, n) == None
  {
    hide ParseType;
  }
}
