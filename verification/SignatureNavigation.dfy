/**
 Finding one type inside a signature with the type skipper: the last type for the boxing step
 (cor_profiler.cpp:877-927), and the return type or the generic argument it stands for when the
 result must be unboxed (ReturnTypeIsValueTypeOrGeneric, clr_helpers.cpp:692-978).
 */
module SignatureNavigation {
  import opened Bytes
  import opened Signatures
  import opened SignatureTheorems
  import opened SignatureRendering

  /** A type as the emitted instruction names it: a decoded token, a corlib primitive or a type spec. */
  datatype TypeName = Token(token: nat) | Corlib(elem: byte) | Spec(blob: seq<byte>)

  // ---------- Stepping over types ----------

  /** Calls ParseType `n` times from `start`. */
  method SkipTypes(sig: seq<byte>, start: nat, n: nat) returns (r: Option<nat>)
    requires start <= |sig|
    ensures var p := ParseTypes(sig, start, n);
            if p.Some? then r == Some(p.value.next) else r.None?
  {
    hide ParseType;
    hide TypesOk;
    var i: nat, pos: nat := 0, start;
    while i < n
      invariant i <= n && pos <= |sig|
      invariant ParseTypes(sig, start, n).Some? <==> ParseTypes(sig, pos, n - i).Some?
      invariant ParseTypes(sig, pos, n - i).Some? ==>
                  ParseTypes(sig, start, n).value.next == ParseTypes(sig, pos, n - i).value.next
    {
      var p := ParseType(sig, pos);
      if p.None? {
        return None;
      }
      pos := p.value.next;
      i := i + 1;
    }
    return Some(pos);
  }

  lemma {:induction false} EncTypesAppend(a: seq<Type>, b: seq<Type>)
    requires TypesOk(a + b)
    ensures TypesOk(a) && TypesOk(b) && EncTypes(a + b) == EncTypes(a) + EncTypes(b)
  {
    if a == [] {
      assert a + b == b;
    } else {
      assert (a + b)[0] == a[0] && (a + b)[1..] == a[1..] + b;
      EncTypesAppend(a[1..], b);
    }
  }

  lemma {:induction false} EncTypesAt(ts: seq<Type>, k: nat)
    requires k < |ts| && TypesOk(ts)
    ensures TypeOk(ts[k]) && TypesOk(ts[..k]) && TypesOk(ts[k + 1..])
    ensures EncTypes(ts) == EncTypes(ts[..k]) + (EncType(ts[k]) + EncTypes(ts[k + 1..]))
  {
    var a, b := ts[..k], ts[k..];
    assert ts == a + b && b[0] == ts[k] && b[1..] == ts[k + 1..];
    EncTypesAppend(a, b);
  }

  /** After `k` calls the skipper stands exactly on type `k`. */
  lemma {:induction false} SkipperStandsOn(sig: seq<byte>, start: nat, ts: seq<Type>, k: nat)
    requires k < |ts| && TypesOk(ts) && At(sig, start, EncTypes(ts))
    ensures start <= |sig| && TypeOk(ts[k]) && TypesOk(ts[..k])
    ensures ParseTypes(sig, start, k) == Some(Parsed(ts[..k], start + |EncTypes(ts[..k])|))
    ensures At(sig, start + |EncTypes(ts[..k])|, EncType(ts[k]))
  {
    hide *;
    EncTypesAt(ts, k);
    var a, rest := ts[..k], EncTypes(ts[k + 1..]);
    AtBound(sig, start, EncTypes(ts));
    AtSplit(sig, start, EncTypes(a), EncType(ts[k]) + rest);
    TypesComplete(sig, start, a);
    AtSplit(sig, start + |EncTypes(a)|, EncType(ts[k]), rest);
  }

  // ---------- The boxing step ----------

  function IndexOfReturnType(data: seq<byte>): nat {
    if |data| > 2 && IsGenericMethod(data) then 3 else if |data| > 1 then 2 else 0
  }

  /** What the box step reads at its cursor; `boxed` and `memory` recognise the struct names it looks for. */
  function BoxAt(data: seq<byte>, c: nat, boxed: nat -> bool, memory: nat -> bool): (r: Option<TypeName>) {
    if c >= |data| then None
    else if data[c] == VALUETYPE then
      match ParseNum(data, c + 1)
      case Some(n) => if boxed(n.item.value) then Some(Token(n.item.value)) else None
      case None => None
    else if data[c] == GENERICINST && c + 1 < |data| && data[c + 1] == VALUETYPE then
      match ParseNum(data, c + 2)
      case Some(n) =>
        if memory(n.item.value) && ParseType(data, c).Some?
        then Some(Spec(data[c..ParseType(data, c).value.next])) else None
      case None => None
    else None
  }

  /** The decision the step is meant to make about one type. */
  function BoxFor(t: Type, boxed: nat -> bool, memory: nat -> bool): Option<TypeName>
    requires TypeOk(t)
  {
    match t
    case Named(k, n) => if k == 0x11 && boxed(n.value) then Some(Token(n.value)) else None
    case Generic(k, n, _, _) => if k == 0x11 && memory(n.value) then Some(Spec(EncType(t))) else None
    case _ => None
  }

  /** The whole step: skip as many types as there are arguments, starting from the return type. */
  function BoxStep(data: seq<byte>, boxed: nat -> bool, memory: nat -> bool): Option<TypeName> {
    if IndexOfReturnType(data) > |data| then None
    else
      match ParseTypes(data, IndexOfReturnType(data), NumberOfArguments(data))
      case None => None
      case Some(p) => BoxAt(data, p.next, boxed, memory)
  }

  lemma SliceAt(data: seq<byte>, c: nat, b: seq<byte>)
    requires At(data, c, b)
    ensures c + |b| <= |data| && data[c..c + |b|] == b
  {
  }

  lemma BoxNamed(data: seq<byte>, c: nat, t: Type, boxed: nat -> bool, memory: nat -> bool)
    requires t.Named? && TypeOk(t) && At(data, c, EncType(t))
    ensures BoxAt(data, c, boxed, memory) == BoxFor(t, boxed, memory)
  {
    hide ParseType;
    hide ParseNum;
    hide EncNum;
    hide At;
    AtCons(data, c, t.kind, EncNum(t.token));
    NumRoundTrip(data, c + 1, t.token);
  }

  lemma BoxGeneric(data: seq<byte>, c: nat, t: Type, boxed: nat -> bool, memory: nat -> bool)
    requires t.Generic? && TypeOk(t) && At(data, c, EncType(t))
    ensures BoxAt(data, c, boxed, memory) == BoxFor(t, boxed, memory)
  {
    hide ParseType;
    hide ParseNum;
    hide EncNum;
    hide EncTypes;
    hide At;
    SliceAt(data, c, EncType(t));
    TypeComplete(data, c, t);
    var tail := EncNum(t.count) + EncTypes(t.args);
    AtCons(data, c, GENERICINST, [t.kind] + (EncNum(t.token) + tail));
    AtCons(data, c + 1, t.kind, EncNum(t.token) + tail);
    AtSplit(data, c + 2, EncNum(t.token), tail);
    NumRoundTrip(data, c + 2, t.token);
  }

  lemma {:induction false} BoxAtReads(data: seq<byte>, c: nat, t: Type, boxed: nat -> bool, memory: nat -> bool)
    requires TypeOk(t) && At(data, c, EncType(t))
    ensures BoxAt(data, c, boxed, memory) == BoxFor(t, boxed, memory)
  {
    if t.Named? {
      BoxNamed(data, c, t, boxed, memory);
    } else if t.Generic? {
      BoxGeneric(data, c, t, boxed, memory);
    } else {
      assert EncType(t)[0] != VALUETYPE && EncType(t)[0] != GENERICINST;
      FirstByte(data, c, EncType(t));
      hide EncType;
      hide TypeOk;
      hide ParseNum;
      hide ParseType;
    }
  }

  lemma StartsAgree(conv: byte, generics: Option<byte>, ts: seq<Type>)
    requires TypesOk(ts) && 1 <= |ts| <= 128
    requires (generics.Some? <==> conv / 0x10 % 2 == 1) && (generics.Some? ==> generics.value > 0)
    ensures var data := EncMethod(conv, generics, ts);
            TypesStart(data) == IndexOfReturnType(data) == if generics.Some? then 3 else 2
  {
    var data := EncMethod(conv, generics, ts);
    hide EncTypes;
    assert data[0] == conv;
    if generics.Some? {
      assert data[1] == generics.value;
    }
  }

  /**
   The box step decides on the last type of the signature. With at least one argument that is the
   last argument's type; without arguments it is the return type, which is never on the stack.
   */
  lemma {:induction false} BoxStepReadsLastType(
    conv: byte, generics: Option<byte>, ts: seq<Type>, boxed: nat -> bool, memory: nat -> bool)
    requires TypesOk(ts) && 1 <= |ts| <= 128
    requires (generics.Some? <==> conv / 0x10 % 2 == 1) && (generics.Some? ==> generics.value > 0)
    ensures var data := EncMethod(conv, generics, ts); var last := |ts| - 1;
            && NumberOfArguments(data) == last
            && TypeOk(ts[last]) && BoxStep(data, boxed, memory) == BoxFor(ts[last], boxed, memory)
  {
    hide *;
    var data, last := EncMethod(conv, generics, ts), |ts| - 1;
    MethodHeader(conv, generics, ts);
    StartsAgree(conv, generics, ts);
    SkipperStandsOn(data, TypesStart(data), ts, last);
    var c := TypesStart(data) + |EncTypes(ts[..last])|;
    BoxStepAt(data, last, Parsed(ts[..last], c), boxed, memory);
    BoxAtReads(data, c, ts[last], boxed, memory);
  }

  lemma BoxStepAt(data: seq<byte>, n: nat, p: Parsed<seq<Type>>, boxed: nat -> bool, memory: nat -> bool)
    requires IndexOfReturnType(data) <= |data| && NumberOfArguments(data) == n
    requires ParseTypes(data, IndexOfReturnType(data), n) == Some(p)
    ensures BoxStep(data, boxed, memory) == BoxAt(data, p.next, boxed, memory)
  {
  }

  /** What the step is for: the decision about the last argument, nothing if there is none. */
  function BoxMeant(ts: seq<Type>, boxed: nat -> bool, memory: nat -> bool): Option<TypeName>
    requires TypesOk(ts) && |ts| >= 1
  {
    if |ts| == 1 then None
    else
      EncTypesAt(ts, |ts| - 1);
      BoxFor(ts[|ts| - 1], boxed, memory)
  }

  /**
   The step does what it is for if and only if there is an argument or the return type is not one it
   boxes. Otherwise it boxes whatever lies on top: the receiver of an instance method, or for a static
   one a value that is not the call's at all.
   */
  lemma {:induction false} BoxStepRightIff(
    conv: byte, generics: Option<byte>, ts: seq<Type>, boxed: nat -> bool, memory: nat -> bool)
    requires TypesOk(ts) && 1 <= |ts| <= 128
    requires (generics.Some? <==> conv / 0x10 % 2 == 1) && (generics.Some? ==> generics.value > 0)
    ensures TypeOk(ts[0])
    ensures BoxStep(EncMethod(conv, generics, ts), boxed, memory) == BoxMeant(ts, boxed, memory) <==>
            |ts| > 1 || BoxFor(ts[0], boxed, memory).None?
  {
    BoxStepReadsLastType(conv, generics, ts, boxed, memory);
    hide BoxStep;
    hide EncMethod;
    hide BoxFor;
  }

  /** Two methods without arguments that return a boxable struct, one static and one with a receiver. */
  lemma {:induction false} NoArgumentsStillBoxes()
    ensures forall conv: byte :: conv == 0x00 || conv == 0x20 ==>
              BoxStep([conv, 0x00, VALUETYPE, 0x05], (token: nat) => token == 5, (token: nat) => false) == Some(Token(5))
  {
    forall conv: byte | conv == 0x00 || conv == 0x20
      ensures BoxStep([conv, 0x00, VALUETYPE, 0x05], (token: nat) => token == 5, (token: nat) => false) == Some(Token(5))
    {
      var data: seq<byte> := [conv, 0x00, VALUETYPE, 0x05];
      assert NumberOfArguments(data) == 0 && IndexOfReturnType(data) == 2;
      assert ParseNum(data, 3) == Some(Parsed(Num(1, 5), 4));
    }
  }

  // ---------- The unboxing step ----------

  /** ReturnTypeTokenforValueTypeElementType: a struct's token, or a primitive's corlib reference. */
  function ValueTypeAt(sig: seq<byte>, c: nat): Option<TypeName> {
    if c >= |sig| then None
    else if sig[c] == VALUETYPE then
      match ParseNum(sig, c + 1)
      case None => None
      case Some(n) => Some(Token(n.item.value))
    else if VOID <= sig[c] <= 0x0D || sig[c] == TYPEDBYREF || sig[c] == 0x18 || sig[c] == 0x19 then Some(Corlib(sig[c]))
    else None
  }

  /** A generic instantiation needs unboxing when it is a struct; the whole type becomes the type spec. */
  function GenericAt(sig: seq<byte>, c: nat): Option<TypeName> {
    if c + 1 >= |sig| || sig[c + 1] != VALUETYPE then None
    else
      match ParseType(sig, c)
      case None => None
      case Some(p) => Some(Spec(sig[c..p.next]))
  }

  /** The decision about the generic argument under the cursor (clr_helpers.cpp:935-965). */
  function ArgumentAt(sig: seq<byte>, c: nat): Option<TypeName> {
    if c >= |sig| then None
    else if sig[c] == MVAR || sig[c] == VAR then
      if c + 2 <= |sig| then Some(Spec(sig[c..c + 2])) else None
    else if sig[c] == GENERICINST then GenericAt(sig, c)
    else ValueTypeAt(sig, c)
  }

  /**
   The instantiation the target is called through: a method spec, whose method in turn belongs to a
   type with a spec of its own if that is generic, or the parent's type spec.
   */
  datatype Instantiation = MethodSpec(blob: seq<byte>, parent: Option<seq<byte>>) | ParentSpec(blob: seq<byte>) | NoSpec

  /** Where GenArgCount stands: after GENERICINST, or after GENERICINST, the kind byte and the type token. */
  function CountIndex(inst: Instantiation): Option<nat> {
    match inst
    case NoSpec => None
    case MethodSpec(_, _) => Some(1)
    case ParentSpec(blob) =>
      match ParseNum(blob, 2)
      case None => None
      case Some(n) => Some(n.next)
  }

  /** The argument with the given index: skip the ones before it, decide on the one it reaches. */
  function PickArgument(blob: seq<byte>, start: nat, index: nat): Option<TypeName> {
    match ParseNum(blob, start)
    case None => None
    case Some(count) =>
      if index >= count.item.value then None
      else
        match ParseTypes(blob, count.next, index)
        case None => None
        case Some(p) => ArgumentAt(blob, p.next)
  }

  /** ReturnTypeIsValueTypeOrGeneric: what to unbox the wrapper's result to, if anything. */
  function UnboxStep(data: seq<byte>, inst: Instantiation): Option<TypeName> {
    var i := TypesStart(data);
    if i >= |data| || data[i] == VOID then None
    else if data[i] == GENERICINST then GenericAt(data, i)
    else if data[i] == VAR || data[i] == MVAR then
      match ParseNum(data, i + 1)
      case None => None
      case Some(n) =>
        if inst.ParentSpec? && NumberOfTypeArguments(data) > 0 then None
        else
          match CountIndex(inst)
          case None => None
          case Some(start) => PickArgument(inst.blob, start, n.item.value)
    else ValueTypeAt(data, i)
  }

  /** The decision that is meant about a type that is not a type variable of the callee. */
  function UnboxFor(t: Type): Option<TypeName>
    requires TypeOk(t)
  {
    match t
    case Prim(b) => if b == 0x0E || b == 0x1C then None else Some(Corlib(b))
    case Named(k, n) => if k == 0x11 then Some(Token(n.value)) else None
    case Generic(k, _, _, _) => if k == 0x11 then Some(Spec(EncType(t))) else None
    case Index(_, _) => Some(Spec(EncType(t)))
    case _ => None
  }

  lemma GenericAtReads(sig: seq<byte>, c: nat, t: Type)
    requires t.Generic? && TypeOk(t) && At(sig, c, EncType(t))
    ensures c < |sig| && sig[c] == GENERICINST && GenericAt(sig, c) == UnboxFor(t)
  {
    hide ParseType;
    hide EncNum;
    hide EncTypes;
    hide At;
    SliceAt(sig, c, EncType(t));
    TypeComplete(sig, c, t);
    var tail := EncNum(t.token) + (EncNum(t.count) + EncTypes(t.args));
    AtCons(sig, c, GENERICINST, [t.kind] + tail);
    AtCons(sig, c + 1, t.kind, tail);
  }

  lemma ValueTypeAtReads(sig: seq<byte>, c: nat, t: Type)
    requires !t.Generic? && !t.Index? && TypeOk(t) && At(sig, c, EncType(t))
    ensures c < |sig| && sig[c] !in {GENERICINST, VAR, MVAR}
    ensures t != Prim(VOID) ==> sig[c] != VOID
    ensures ValueTypeAt(sig, c) == UnboxFor(t)
  {
    FirstByte(sig, c, EncType(t));
    if t.Named? {
      AtCons(sig, c, t.kind, EncNum(t.token));
      NumRoundTrip(sig, c + 1, t.token);
    }
    hide ParseNum;
    hide EncNum;
    hide EncMods;
    hide At;
  }

  lemma VariableAtReads(sig: seq<byte>, c: nat, t: Type)
    requires t.Index? && TypeOk(t) && At(sig, c, EncType(t))
    ensures c < |sig| && (sig[c] == VAR || sig[c] == MVAR) && ParseNum(sig, c + 1).Some?
    ensures ParseNum(sig, c + 1).value.item == t.number
    ensures ArgumentAt(sig, c) == UnboxFor(t) <==> t.number.width == 1
  {
    AtCons(sig, c, t.kind, EncNum(t.number));
    NumRoundTrip(sig, c + 1, t.number);
    SliceAt(sig, c, EncType(t));
  }

  /** A type variable is copied as two bytes, which is all of it only when its number takes one byte. */
  predicate FitsCopy(t: Type) {
    t.Index? ==> t.number.width == 1
  }

  /** The decision about an argument is the intended one if and only if it is not a wide type variable. */
  lemma {:induction false} ArgumentAtReads(sig: seq<byte>, c: nat, t: Type)
    requires TypeOk(t) && At(sig, c, EncType(t))
    ensures ArgumentAt(sig, c) == UnboxFor(t) <==> FitsCopy(t)
  {
    if t.Index? {
      VariableAtReads(sig, c, t);
    } else if t.Generic? {
      GenericAtReads(sig, c, t);
    } else {
      ValueTypeAtReads(sig, c, t);
    }
    hide EncType;
    hide ValueTypeAt;
    hide GenericAt;
    hide UnboxFor;
    hide At;
    hide TypeOk;
  }

  /** What the code makes of an argument: as intended, but of a type variable only two bytes. */
  function CopyFor(t: Type): (r: Option<TypeName>)
    requires TypeOk(t)
    ensures r == UnboxFor(t) <==> FitsCopy(t)
  {
    if t.Index? then
      assert |EncType(t)| == 1 + t.number.width;
      assert t.number.width == 1 ==> EncType(t)[..2] == EncType(t);
      assert |EncType(t)[..2]| == 2;
      Some(Spec(EncType(t)[..2]))
    else UnboxFor(t)
  }

  lemma {:induction false} ArgumentIsCopied(sig: seq<byte>, c: nat, t: Type)
    requires TypeOk(t) && At(sig, c, EncType(t))
    ensures ArgumentAt(sig, c) == CopyFor(t)
  {
    ArgumentAtReads(sig, c, t);
    if t.Index? {
      VariableAtReads(sig, c, t);
      SliceAt(sig, c, EncType(t));
      assert sig[c..c + |EncType(t)|][..2] == sig[c..c + 2];
    }
    hide UnboxFor;
    hide EncType;
    hide At;
    hide TypeOk;
    hide ValueTypeAt;
    hide GenericAt;
  }

  /** The decision about the argument with the given index, None if there is no such argument. */
  function Picked(args: seq<Type>, index: nat): Option<TypeName>
    requires TypesOk(args)
  {
    if index >= |args| then None
    else
      EncTypesAt(args, index);
      UnboxFor(args[index])
  }

  function PickedCopy(args: seq<Type>, index: nat): Option<TypeName>
    requires TypesOk(args)
  {
    if index >= |args| then None
    else
      EncTypesAt(args, index);
      CopyFor(args[index])
  }

  /** Nothing to unbox: strings, objects, classes, pointers and arrays. */
  predicate Reference(t: Type) {
    match t
    case Prim(b) => b == 0x0E || b == 0x1C
    case Named(k, _) => k == 0x12
    case Generic(k, _, _, _) => k == 0x12
    case Index(_, _) => false
    case _ => true
  }

  /** The same value type, or the same type variable with a number of one byte. */
  predicate SameValueType(s: Type, t: Type) {
    match s
    case Prim(b) => t == s
    case Named(k, n) => k == 0x11 && t.Named? && t.kind == 0x11 && t.token.value == n.value
    case Generic(_, _, _, _) => t == s
    case Index(_, n) => t == s && n.width == 1
    case _ => false
  }

  lemma ReferenceIff(t: Type)
    requires TypeOk(t)
    ensures Reference(t) <==> UnboxFor(t).None?
    ensures Reference(t) <==> CopyFor(t).None?
  {
  }

  lemma IndexBytes(t: Type)
    requires t.Index? && TypeOk(t)
    ensures |EncType(t)| == 1 + t.number.width && EncType(t)[0] == t.kind
    ensures t.number.width == 1 <==> EncType(t)[1] < 0x80
  {
    var b := EncNum(t.number);
    assert EncType(t) == [t.kind] + b;
    assert EncType(t)[1] == b[0];
  }

  /** Two arguments lead to the same decision exactly if neither is unboxed or both are the same value type. */
  lemma {:induction false} DecideAlike(s: Type, t: Type)
    requires TypeOk(s) && TypeOk(t)
    ensures CopyFor(s) == UnboxFor(t) <==> (Reference(s) && Reference(t)) || (!Reference(s) && SameValueType(s, t))
  {
    ReferenceIff(s);
    ReferenceIff(t);
    if s.Generic? && t.Generic? && EncType(s) == EncType(t) {
      assert EncType(s) + [] == EncType(t);
      EncodingsArePrefixFree(s, t, []);
    }
    if s.Generic? {
      assert EncType(s)[0] == GENERICINST;
    }
    if t.Generic? {
      assert EncType(t)[0] == GENERICINST;
    }
    if s.Index? {
      IndexBytes(s);
      assert EncType(s)[..2][0] == s.kind && EncType(s)[..2][1] == EncType(s)[1];
    }
    if t.Index? {
      IndexBytes(t);
    }
    if s.Index? && t.Index? && EncType(s)[..2] == EncType(t) {
      assert EncType(s)[..2] == EncType(s);
      assert EncType(s) + [] == EncType(t);
      EncodingsArePrefixFree(s, t, []);
    }
    hide EncType;
    hide TypeOk;
  }

  predicate NothingToUnbox(args: seq<Type>, n: nat) {
    n >= |args| || Reference(args[n])
  }

  lemma {:induction false} PickedAlike(args: seq<Type>, others: seq<Type>, n: nat)
    requires TypesOk(args) && TypesOk(others)
    ensures PickedCopy(args, n) == Picked(others, n) <==>
            || (NothingToUnbox(args, n) && NothingToUnbox(others, n))
            || (!NothingToUnbox(args, n) && n < |others| && SameValueType(args[n], others[n]))
  {
    if n < |args| {
      EncTypesAt(args, n);
      ReferenceIff(args[n]);
    }
    if n < |others| {
      EncTypesAt(others, n);
      ReferenceIff(others[n]);
    }
    if n < |args| && n < |others| {
      DecideAlike(args[n], others[n]);
    }
    hide CopyFor;
    hide UnboxFor;
    hide Reference;
    hide SameValueType;
    hide TypesOk;
    hide EncTypes;
  }

  lemma PickedRight(args: seq<Type>, index: nat)
    requires TypesOk(args)
    ensures PickedCopy(args, index) == Picked(args, index) <==> index >= |args| || FitsCopy(args[index])
  {
    if index < |args| {
      EncTypesAt(args, index);
    }
    hide UnboxFor;
    hide TypesOk;
    hide EncTypes;
  }

  /** The cursor walk over a spec reaches the argument with the wanted index, and nothing else. */
  lemma {:induction false} PicksIndexedArgument(blob: seq<byte>, start: nat, count: Num, args: seq<Type>, index: nat)
    requires TypesOk(args) && NumOk(count) && count.value == |args|
    requires At(blob, start, EncNum(count) + EncTypes(args))
    ensures PickArgument(blob, start, index) == PickedCopy(args, index)
  {
    hide ParseNum;
    hide EncNum;
    hide EncTypes;
    hide EncType;
    hide At;
    hide ArgumentAt;
    hide CopyFor;
    hide TypesOk;
    hide TypeOk;
    hide ParseTypes;
    AtSplit(blob, start, EncNum(count), EncTypes(args));
    NumRoundTrip(blob, start, count);
    if index < |args| {
      var j := start + count.width;
      SkipperStandsOn(blob, j, args, index);
      ArgumentIsCopied(blob, j + |EncTypes(args[..index])|, args[index]);
    }
  }

  /** A method spec's bytes: GENERICINST GenArgCount Type+. */
  function EncMethodSpec(head: byte, count: Num, args: seq<Type>): seq<byte>
    requires NumOk(count) && TypesOk(args)
  {
    [head] + (EncNum(count) + EncTypes(args))
  }

  lemma ReturnTypeAt(conv: byte, generics: Option<byte>, ts: seq<Type>)
    requires TypesOk(ts) && 1 <= |ts| <= 128
    requires (generics.Some? <==> conv / 0x10 % 2 == 1) && (generics.Some? ==> generics.value > 0)
    ensures var data := EncMethod(conv, generics, ts);
            TypeOk(ts[0]) && At(data, TypesStart(data), EncType(ts[0]))
            && NumberOfTypeArguments(data) == if generics.Some? then generics.value else 0
  {
    var data := EncMethod(conv, generics, ts);
    assert data[0] == conv && (generics.Some? ==> data[1] == generics.value);
    MethodHeader(conv, generics, ts);
    hide EncMethod;
    hide At;
    hide EncType;
    assert EncTypes(ts) == EncType(ts[0]) + EncTypes(ts[1..]);
    AtSplit(data, TypesStart(data), EncType(ts[0]), EncTypes(ts[1..]));
  }

  /** For a return type that is no type variable, the decision is about that type. */
  lemma {:induction false} UnboxesPlainReturn(conv: byte, generics: Option<byte>, ts: seq<Type>, inst: Instantiation)
    requires TypesOk(ts) && 1 <= |ts| <= 128 && !ts[0].Index?
    requires (generics.Some? <==> conv / 0x10 % 2 == 1) && (generics.Some? ==> generics.value > 0)
    ensures TypeOk(ts[0])
    ensures UnboxStep(EncMethod(conv, generics, ts), inst) == if ts[0] == Prim(VOID) then None else UnboxFor(ts[0])
  {
    var data := EncMethod(conv, generics, ts);
    ReturnTypeAt(conv, generics, ts);
    FirstByte(data, TypesStart(data), EncType(ts[0]));
    if ts[0].Generic? {
      GenericAtReads(data, TypesStart(data), ts[0]);
    } else {
      ValueTypeAtReads(data, TypesStart(data), ts[0]);
    }
    assert EncType(Prim(VOID)) == [VOID];
    hide EncMethod;
    hide EncType;
    hide TypesStart;
    hide At;
    hide ValueTypeAt;
    hide GenericAt;
    hide UnboxFor;
    hide TypesOk;
  }

  /**
   What the first byte of the return type settles by itself: void is left alone, the corlib's own value
   types are named as such, the two native integers (0x18, 0x19) and TypedReference (0x16) among them,
   and of the rest only a struct (0x11), an instantiation (0x15) and a type variable (0x13, 0x1E) can be
   unboxed to anything.
   */
  lemma {:induction false} FirstByteSettles(data: seq<byte>, inst: Instantiation)
    requires TypesStart(data) < |data|
    ensures var b := data[TypesStart(data)]; var step := UnboxStep(data, inst);
            && (step == Some(Corlib(b)) <== 0x02 <= b <= 0x0D || b in {0x16, 0x18, 0x19})
            && (step.Some? ==> 0x02 <= b <= 0x0D || b in {0x11, 0x13, 0x15, 0x16, 0x18, 0x19, 0x1E})
  {
    hide ParseNum;
    hide ParseType;
    hide PickArgument;
    hide CountIndex;
  }

  lemma UnboxStepVariable(data: seq<byte>, inst: Instantiation, n: Num, next: nat, start: nat)
    requires TypesStart(data) < |data| && (data[TypesStart(data)] == VAR || data[TypesStart(data)] == MVAR)
    requires ParseNum(data, TypesStart(data) + 1) == Some(Parsed(n, next))
    requires CountIndex(inst) == Some(start) && (inst.ParentSpec? ==> NumberOfTypeArguments(data) == 0)
    ensures UnboxStep(data, inst) == PickArgument(inst.blob, start, n.value)
  {
  }

  /** What is meant: a type variable of the method names its argument, one of the type the type's. */
  function UnboxMeant(ret: Type, typeArgs: seq<Type>, methodArgs: seq<Type>): Option<TypeName>
    requires TypeOk(ret) && TypesOk(typeArgs) && TypesOk(methodArgs)
  {
    if ret.Index? then Picked(if ret.kind == 0x1E then methodArgs else typeArgs, ret.number.value)
    else if ret == Prim(0x01) then None
    else UnboxFor(ret)
  }

  /** Through a method spec every type variable is looked up among the method's arguments. */
  lemma {:induction false} UnboxesMethodSpecArgument(
    conv: byte, generics: Option<byte>, ts: seq<Type>, head: byte, count: Num, args: seq<Type>, parent: Option<seq<byte>>)
    requires TypesOk(ts) && 1 <= |ts| <= 128 && ts[0].Index?
    requires (generics.Some? <==> conv / 0x10 % 2 == 1) && (generics.Some? ==> generics.value > 0)
    requires TypesOk(args) && NumOk(count) && count.value == |args|
    ensures UnboxStep(EncMethod(conv, generics, ts), MethodSpec(EncMethodSpec(head, count, args), parent)) ==
            PickedCopy(args, ts[0].number.value)
  {
    var data, blob := EncMethod(conv, generics, ts), EncMethodSpec(head, count, args);
    var index := ts[0].number.value;
    assert At(blob, 0, [head] + (EncNum(count) + EncTypes(args)));
    assert CountIndex(MethodSpec(blob, parent)) == Some(1);
    hide *;
    ReturnTypeAt(conv, generics, ts);
    VariableAtReads(data, TypesStart(data), ts[0]);
    AtCons(blob, 0, head, EncNum(count) + EncTypes(args));
    PicksIndexedArgument(blob, 1, count, args, index);
    var n := ParseNum(data, TypesStart(data) + 1).value;
    UnboxStepVariable(data, MethodSpec(blob, parent), n.item, n.next, 1);
  }

  /**
   So the decision is the intended one if and only if the return type is a type variable of the method
   whose argument can be copied, or one of the type, where the arguments with that number, the method's
   and the type's, are both absent or references or are the same value type.
   */
  lemma {:induction false} MethodSpecRightIff(
    conv: byte, generics: Option<byte>, ts: seq<Type>, head: byte, count: Num, args: seq<Type>, parent: Type)
    requires TypesOk(ts) && 1 <= |ts| <= 128 && ts[0].Index? && TypeOk(ts[0])
    requires (generics.Some? <==> conv / 0x10 % 2 == 1) && (generics.Some? ==> generics.value > 0)
    requires TypesOk(args) && NumOk(count) && count.value == |args|
    requires parent.Generic? && TypeOk(parent) && TypesOk(parent.args)
    ensures var n := ts[0].number.value;
            UnboxStep(EncMethod(conv, generics, ts), MethodSpec(EncMethodSpec(head, count, args), Some(EncType(parent)))) ==
            UnboxMeant(ts[0], parent.args, args) <==>
            if ts[0].kind == 0x1E then n >= |args| || FitsCopy(args[n])
            else
              || (NothingToUnbox(args, n) && NothingToUnbox(parent.args, n))
              || (!NothingToUnbox(args, n) && n < |parent.args| && SameValueType(args[n], parent.args[n]))
  {
    PickedAlike(args, parent.args, ts[0].number.value);
    UnboxesMethodSpecArgument(conv, generics, ts, head, count, args, Some(EncType(parent)));
    PickedRight(args, ts[0].number.value);
    hide UnboxStep;
    hide EncMethod;
    hide EncMethodSpec;
    hide Picked;
    hide PickedCopy;
    hide NothingToUnbox;
    hide SameValueType;
  }

  /**
   A method `T M<U>()` of `C<T>` called as `C<int>.M<string>()`: the result is an int and needs
   unboxing, but the string is found instead and nothing is unboxed.
   */
  lemma {:induction false} TypeVariableThroughMethodSpec()
    ensures var ts := [Index(VAR, Num(1, 0))]; var args := [Prim(STRING)];
            var parent := Generic(CLASS, Num(1, 9), Num(1, 1), [Prim(0x08)]);
            && TypesOk(ts) && TypesOk(args) && TypeOk(parent) && TypeOk(ts[0]) && TypesOk(parent.args)
            && UnboxMeant(ts[0], parent.args, args) == Some(Corlib(0x08))
            && UnboxStep(EncMethod(0x30, Some(1), ts), MethodSpec(EncMethodSpec(0x0A, Num(1, 1), args), Some(EncType(parent)))) == None
  {
    var ts: seq<Type> := [Index(VAR, Num(1, 0))];
    var args: seq<Type> := [Prim(STRING)];
    var item: seq<Type> := [Prim(0x08)];
    var parent := Generic(CLASS, Num(1, 9), Num(1, 1), item);
    OneType(ts[0]);
    OneType(args[0]);
    OneType(item[0]);
    UnboxesMethodSpecArgument(0x30, Some(1), ts, 0x0A, Num(1, 1), args, Some(EncType(parent)));
    assert PickedCopy(args, 0) == None;
    assert Picked(item, 0) == Some(Corlib(0x08));
  }

  lemma OneType(t: Type)
    requires TypeOk(t)
    ensures TypesOk([t])
  {
    hide TypeOk;
    var ts := [t];
    assert ts[1..] == [] && TypesOk(ts[1..]);
    assert ts[0] == t;
  }

  lemma {:induction false} ParentShape(parent: Type)
    requires parent.Generic? && TypeOk(parent)
    ensures NumOk(parent.token) && NumOk(parent.count) && TypesOk(parent.args) && parent.count.value == |parent.args|
    ensures CountIndex(ParentSpec(EncType(parent))) == Some(2 + parent.token.width)
    ensures At(EncType(parent), 2 + parent.token.width, EncNum(parent.count) + EncTypes(parent.args))
  {
    var blob := EncType(parent);
    var rest := EncNum(parent.count) + EncTypes(parent.args);
    assert blob == [GENERICINST] + ([parent.kind] + (EncNum(parent.token) + rest));
    assert At(blob, 0, blob);
    hide EncType;
    hide EncTypes;
    hide EncNum;
    hide At;
    hide ParseNum;
    AtCons(blob, 0, GENERICINST, [parent.kind] + (EncNum(parent.token) + rest));
    AtCons(blob, 1, parent.kind, EncNum(parent.token) + rest);
    AtSplit(blob, 2, EncNum(parent.token), rest);
    NumRoundTrip(blob, 2, parent.token);
  }

  /** Through the parent's type spec every type variable is looked up among the type's arguments. */
  lemma {:induction false} UnboxesParentSpecArgument(conv: byte, ts: seq<Type>, parent: Type)
    requires TypesOk(ts) && 1 <= |ts| <= 128 && ts[0].Index? && conv / 0x10 % 2 == 0
    requires parent.Generic? && TypeOk(parent) && TypesOk(parent.args)
    ensures UnboxStep(EncMethod(conv, None, ts), ParentSpec(EncType(parent))) == PickedCopy(parent.args, ts[0].number.value)
  {
    hide *;
    var data, blob := EncMethod(conv, None, ts), EncType(parent);
    var index := ts[0].number.value;
    ParentShape(parent);
    ReturnTypeAt(conv, None, ts);
    VariableAtReads(data, TypesStart(data), ts[0]);
    PicksIndexedArgument(blob, 2 + parent.token.width, parent.count, parent.args, index);
    var n := ParseNum(data, TypesStart(data) + 1).value;
    UnboxStepVariable(data, ParentSpec(blob), n.item, n.next, 2 + parent.token.width);
  }

  /** For a method without type parameters, which can name only the type's, that is right where the copy is. */
  lemma {:induction false} ParentSpecRightIff(conv: byte, ts: seq<Type>, parent: Type)
    requires TypesOk(ts) && 1 <= |ts| <= 128 && ts[0].Index? && ts[0].kind == VAR && TypeOk(ts[0]) && conv / 0x10 % 2 == 0
    requires parent.Generic? && TypeOk(parent) && TypesOk(parent.args)
    ensures var n := ts[0].number.value;
            UnboxStep(EncMethod(conv, None, ts), ParentSpec(EncType(parent))) == UnboxMeant(ts[0], parent.args, []) <==>
            n >= |parent.args| || FitsCopy(parent.args[n])
  {
    UnboxesParentSpecArgument(conv, ts, parent);
    PickedRight(parent.args, ts[0].number.value);
    hide UnboxStep;
    hide EncMethod;
    hide Picked;
    hide PickedCopy;
  }
}
