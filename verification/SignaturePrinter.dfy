/**
 TryParseSignatureTypes (clr_helpers.cpp:406-675): one loop over the bytes of a method signature,
 with an explicit stack of outstanding generic-argument counts, that prints every type; and the
 recursive printer that it implements. Type names and the arity a name announces come from
 metadata and are parameters.
 */
module SignaturePrinter {
  import opened Bytes
  import opened Signatures
  import opened SignatureTheorems

  /**
   `named` and `generic` resolve a compressed type token; `arity` is the number after the last
   back-tick of a generic type's name, None where std::stoi throws; `other` prints an element type
   that has no name of its own.
   */
  datatype Names = Names(named: nat -> string, generic: nat -> string, arity: string -> Option<int>, other: byte -> string)

  function LeafName(names: Names, b: byte): string {
    if b == 0x01 then "System.Void" else if b == 0x02 then "System.Boolean"
    else if b == 0x03 then "System.Char16" else if b == 0x04 then "System.SByte"
    else if b == 0x05 then "System.Byte" else if b == 0x06 then "System.Int16"
    else if b == 0x07 then "System.UInt16" else if b == 0x08 then "System.Int32"
    else if b == 0x09 then "System.UInt32" else if b == 0x0A then "System.Int64"
    else if b == 0x0B then "System.UInt64" else if b == 0x0C then "System.Single"
    else if b == 0x0D then "System.Double" else if b == STRING then "System.String"
    else if b == OBJECT then "System.Object" else if b == BYREF then "ref"
    else names.other(b)
  }

  // ---------- The loop, one iteration at a time ----------

  /**
   The loop's variables: current_index, generic_arg_stack, append_to_type, current_type_name and
   the part of type_names filled so far.
   */
  datatype PState = PState(index: nat, stack: seq<int>, pending: string, name: string, out: seq<string>)

  function Top(s: seq<int>): int
    requires s != []
  {
    s[|s| - 1]
  }

  /** Decrement the innermost level, if there is one. */
  function Decrement(s: seq<int>): (r: seq<int>)
    ensures |r| == |s|
  {
    if s == [] then [] else s[..|s| - 1] + [Top(s) - 1]
  }

  function Comma(s: seq<int>): string {
    if s != [] && Top(s) > 0 then ", " else ""
  }

  /** Close every level with no arguments left (clr_helpers.cpp:640-649). */
  function Unwind(s: seq<int>, name: string): (r: (seq<int>, string))
    decreases |s|
  {
    if s != [] && Top(s) == 0 then
      var rest := s[..|s| - 1];
      Unwind(rest, name + ">" + Comma(rest))
    else (s, name)
  }

  /** The state after a complete type argument or type, or None if there are too many types. */
  function Finish(expected: nat, index: nat, s: seq<int>, name: string, out: seq<string>): Option<PState> {
    var (rest, full) := Unwind(s, name + Comma(s));
    if rest != [] then Some(PState(index, rest, "", full, out))
    else if |out| >= expected then None
    else Some(PState(index, [], "", "", out + [full]))
  }

  /** One pass of the inner loop over consecutive SZARRAY bytes; `i` is one of them. */
  function VectorRun(data: seq<byte>, i: nat): (r: nat)
    requires i < |data|
    ensures i < r <= |data|
    decreases |data| - i
  {
    if i + 1 < |data| && data[i + 1] == SZARRAY then VectorRun(data, i + 1) else i + 1
  }

  function Brackets(n: nat): string {
    if n == 0 then "" else Brackets(n - 1) + "[]"
  }

  function Iterate(names: Names, data: seq<byte>, expected: nat, st: PState): (r: Option<PState>)
    requires st.index < |data|
    ensures r.Some? ==> st.index < r.value.index
  {
    var i, b := st.index, data[st.index];
    if b == END then Some(st.(index := i + 1))
    else if b == SZARRAY then
      var j := VectorRun(data, i);
      Some(st.(index := j, pending := st.pending + Brackets(j - i)))
    else if b == GENERICINST then
      match ParseNum(data, i + 2)
      case None => None
      case Some(token) =>
        var name := names.generic(token.item.value);
        match names.arity(name)
        case None => None
        case Some(n) =>
          Some(PState(token.next + 1, Decrement(st.stack) + [n], st.pending, st.name + name + "<", st.out))
    else if b == VALUETYPE || b == CLASS then
      match ParseNum(data, i + 1)
      case None => None
      case Some(token) =>
        Finish(expected, token.next, Decrement(st.stack),
               st.name + names.named(token.item.value) + st.pending, st.out)
    else if b == VAR || b == MVAR then
      Finish(expected, i + 2, Decrement(st.stack), st.name + "T" + st.pending, st.out)
    else
      Finish(expected, i + 1, Decrement(st.stack), st.name + LeafName(names, b) + st.pending, st.out)
  }

  /** The type names, with empty strings for the entries that were never filled. */
  function Filled(out: seq<string>, expected: nat): seq<string> {
    out + seq(if |out| <= expected then expected - |out| else 0, _ => "")
  }

  function Loop(names: Names, data: seq<byte>, expected: nat, st: PState): (r: Option<seq<string>>)
    decreases |data| - st.index
  {
    if st.index >= |data| then Some(Filled(st.out, expected))
    else
      match Iterate(names, data, expected, st)
      case None => None
      case Some(next) => Loop(names, data, expected, next)
  }

  // ---------- The recursive printers ----------

  /** The types on which the printer is meant to work. */
  predicate Printable(names: Names, t: Type)
    decreases t, 0
  {
    match t
    case Prim(b) => IsPrim(b)
    case Named(k, n) => (k == VALUETYPE || k == CLASS) && NumOk(n)
    case Index(k, n) => (k == VAR || k == MVAR) && NumOk(n) && n.width == 1
    case Vector(ms, u) => ms == [] && Printable(names, u)
    case Generic(k, n, c, args) =>
      && (k == VALUETYPE || k == CLASS) && NumOk(n) && NumOk(c) && c.width == 1 && c.value == |args|
      && args != [] && names.arity(names.generic(n.value)) == Some(|args|) && AllPrintable(names, args)
    case _ => false
  }

  predicate AllPrintable(names: Names, ts: seq<Type>)
    decreases ts, 0
  {
    ts == [] || (Printable(names, ts[0]) && AllPrintable(names, ts[1..]))
  }

  lemma {:induction false} PrintableOk(names: Names, t: Type)
    requires Printable(names, t)
    ensures TypeOk(t)
    decreases t, 0
  {
    if t.Vector? {
      PrintableOk(names, t.item);
    } else if t.Generic? {
      AllPrintableOk(names, t.args);
    }
  }

  lemma {:induction false} AllPrintableOk(names: Names, ts: seq<Type>)
    requires AllPrintable(names, ts)
    ensures TypesOk(ts)
    decreases ts, 0
  {
    if ts != [] {
      PrintableOk(names, ts[0]);
      AllPrintableOk(names, ts[1..]);
    }
  }

  /** The names of the primitive types 0x01 to 0x0E, in order; 0x1C is System.Object. */
  const PRIMITIVES: seq<string> :=
    ["System.Void", "System.Boolean", "System.Char16", "System.SByte", "System.Byte", "System.Int16", "System.UInt16",
     "System.Int32", "System.UInt32", "System.Int64", "System.UInt64", "System.Single", "System.Double", "System.String"]

  function PrimitiveName(b: byte): string
    requires 0x01 <= b <= 0x0E || b == 0x1C
  {
    if b == 0x1C then "System.Object" else PRIMITIVES[b - 1]
  }

  lemma LeafIsPrimitive(names: Names, b: byte)
    requires 0x01 <= b <= 0x0E || b == 0x1C
    ensures LeafName(names, b) == PrimitiveName(b)
  {
  }

  /** How a type should read. */
  function Render(names: Names, t: Type): string
    requires Printable(names, t)
    decreases t, 0
  {
    match t
    case Prim(b) => PrimitiveName(b)
    case Named(_, n) => names.named(n.value)
    case Index(_, _) => "T"
    case Vector(_, u) => Render(names, u) + "[]"
    case Generic(_, n, _, args) => names.generic(n.value) + "<" + RenderAll(names, args) + ">"
  }

  function RenderAll(names: Names, ts: seq<Type>): string
    requires AllPrintable(names, ts)
    decreases ts, 0
  {
    if ts == [] then ""
    else Render(names, ts[0]) + if |ts| == 1 then "" else ", " + RenderAll(names, ts[1..])
  }

  /** How the loop prints it: array brackets are held back until the first leaf. */
  function Print(names: Names, t: Type, pending: string): string
    requires Printable(names, t)
    decreases t, 0
  {
    match t
    case Prim(b) => LeafName(names, b) + pending
    case Named(_, n) => names.named(n.value) + pending
    case Index(_, _) => "T" + pending
    case Vector(_, u) => Print(names, u, pending + "[]")
    case Generic(_, n, _, args) => names.generic(n.value) + "<" + PrintAll(names, args, pending) + ">"
  }

  function PrintAll(names: Names, ts: seq<Type>, pending: string): string
    requires AllPrintable(names, ts)
    decreases ts, 0
  {
    if ts == [] then ""
    else Print(names, ts[0], pending) + if |ts| == 1 then "" else ", " + PrintAll(names, ts[1..], "")
  }

  // ---------- The loop refines the recursive printer ----------

  function Continue(names: Names, data: seq<byte>, expected: nat, next: Option<PState>): Option<seq<string>> {
    if next.None? then None else Loop(names, data, expected, next.value)
  }

  lemma {:induction false} BracketsFront(n: nat)
    ensures "[]" + Brackets(n) == Brackets(n + 1)
  {
    if n > 0 {
      BracketsFront(n - 1);
    }
  }

  lemma Assoc(a: string, b: string, c: string)
    ensures a + b + c == a + (b + c)
  {
  }

  lemma LoopStep(names: Names, data: seq<byte>, expected: nat, st: PState)
    requires st.index < |data|
    ensures Loop(names, data, expected, st) == Continue(names, data, expected, Iterate(names, data, expected, st))
  {
    hide Iterate;
  }

  lemma IterateVector(names: Names, data: seq<byte>, expected: nat, st: PState)
    requires st.index < |data| && data[st.index] == SZARRAY
    ensures var j := VectorRun(data, st.index);
            Iterate(names, data, expected, st) == Some(st.(index := j, pending := st.pending + Brackets(j - st.index)))
  {
    hide Finish;
    hide ParseNum;
    hide LeafName;
    hide VectorRun;
    hide Brackets;
    hide Decrement;
  }

  lemma VectorRunStep(data: seq<byte>, i: nat)
    requires i < |data|
    ensures VectorRun(data, i) == if i + 1 < |data| && data[i + 1] == SZARRAY then VectorRun(data, i + 1) else i + 1
    ensures Brackets(1) == "[]"
  {
    assert Brackets(0) + "[]" == "[]";
  }

  /** Reading one SZARRAY at a time comes to the same as reading a run of them. */
  lemma {:induction false} VectorStep(names: Names, data: seq<byte>, expected: nat, st: PState)
    requires st.index < |data| && data[st.index] == SZARRAY
    ensures Loop(names, data, expected, st) ==
            Loop(names, data, expected, st.(index := st.index + 1, pending := st.pending + "[]"))
  {
    hide Loop;
    hide Iterate;
    hide VectorRun;
    hide Brackets;
    var i := st.index;
    LoopStep(names, data, expected, st);
    IterateVector(names, data, expected, st);
    VectorRunStep(data, i);
    if i + 1 < |data| && data[i + 1] == SZARRAY {
      var one := st.(index := i + 1, pending := st.pending + "[]");
      var j := VectorRun(data, i);
      LoopStep(names, data, expected, one);
      IterateVector(names, data, expected, one);
      BracketsFront(j - i - 1);
      Assoc(st.pending, "[]", Brackets(j - i - 1));
    }
  }

  lemma FinishInner(expected: nat, index: nat, s: seq<int>, n: int, name: string, out: seq<string>)
    requires n >= 1
    ensures Decrement(s + [n]) == s + [n - 1]
    ensures n == 1 ==>
              Finish(expected, index, s + [0], name, out) == Finish(expected, index, s, name + ">", out)
    ensures n > 1 ==>
              Finish(expected, index, s + [n - 1], name, out) == Some(PState(index, s + [n - 1], "", name + ", ", out))
  {
    assert (s + [n])[..|s|] == s;
    assert (s + [n - 1])[..|s|] == s;
    assert name + "" == name;
    assert name + ">" + Comma(s) == (name + ">") + Comma(s);
  }

  predicate IsLeaf(t: Type) {
    t.Prim? || t.Named? || t.Index?
  }

  function LeafText(names: Names, t: Type): string
    requires IsLeaf(t)
  {
    match t
    case Prim(b) => LeafName(names, b)
    case Named(_, n) => names.named(n.value)
    case Index(_, _) => "T"
  }

  lemma IterateNamed(names: Names, data: seq<byte>, expected: nat, st: PState, t: Type)
    requires t.Named? && Printable(names, t) && TypeOk(t) && At(data, st.index, EncType(t))
    ensures st.index < |data|
    ensures Iterate(names, data, expected, st) ==
            Finish(expected, st.index + |EncType(t)|, Decrement(st.stack), st.name + LeafText(names, t) + st.pending, st.out)
  {
    FirstByte(data, st.index, EncType(t));
    AtCons(data, st.index, t.kind, EncNum(t.token));
    NumRoundTrip(data, st.index + 1, t.token);
    hide Finish;
    hide Decrement;
    hide LeafName;
    hide ParseNum;
    hide EncNum;
    hide At;
  }

  lemma IterateLeaf(names: Names, data: seq<byte>, expected: nat, st: PState, t: Type)
    requires IsLeaf(t) && Printable(names, t) && TypeOk(t) && At(data, st.index, EncType(t))
    ensures st.index < |data|
    ensures Iterate(names, data, expected, st) ==
            Finish(expected, st.index + |EncType(t)|, Decrement(st.stack), st.name + LeafText(names, t) + st.pending, st.out)
  {
    FirstByte(data, st.index, EncType(t));
    if t.Named? {
      IterateNamed(names, data, expected, st, t);
    }
    hide Finish;
    hide Decrement;
    hide LeafName;
    hide ParseNum;
    hide EncNum;
    hide At;
    hide VectorRun;
  }

  lemma PrintLeaf(names: Names, t: Type, pending: string)
    requires IsLeaf(t) && Printable(names, t)
    ensures Print(names, t, pending) == LeafText(names, t) + pending
  {
    hide LeafName;
  }

  lemma {:induction false} PrintsLeaf(names: Names, data: seq<byte>, expected: nat, st: PState, t: Type)
    requires IsLeaf(t) && Printable(names, t) && TypeOk(t) && At(data, st.index, EncType(t))
    ensures Loop(names, data, expected, st) ==
            Continue(names, data, expected,
                     Finish(expected, st.index + |EncType(t)|, Decrement(st.stack), st.name + Print(names, t, st.pending), st.out))
  {
    hide *;
    IterateLeaf(names, data, expected, st, t);
    LoopStep(names, data, expected, st);
    PrintLeaf(names, t, st.pending);
    Assoc(st.name, LeafText(names, t), st.pending);
  }

  lemma {:induction false} OpensGeneric(names: Names, data: seq<byte>, expected: nat, st: PState, t: Type)
    requires t.Generic? && Printable(names, t) && TypeOk(t) && At(data, st.index, EncType(t))
    ensures |EncTypes(t.args)| <= |EncType(t)|
    ensures var j := st.index + |EncType(t)| - |EncTypes(t.args)|;
            && At(data, j, EncTypes(t.args))
            && Loop(names, data, expected, st) ==
               Loop(names, data, expected,
                    PState(j, Decrement(st.stack) + [|t.args|], st.pending, st.name + names.generic(t.token.value) + "<", st.out))
  {
    hide At;
    hide ParseNum;
    hide EncNum;
    hide EncTypes;
    hide Decrement;
    var i := st.index;
    var tail := EncNum(t.token) + (EncNum(t.count) + EncTypes(t.args));
    AtCons(data, i, GENERICINST, [t.kind] + tail);
    AtCons(data, i + 1, t.kind, tail);
    AtSplit(data, i + 2, EncNum(t.token), EncNum(t.count) + EncTypes(t.args));
    AtSplit(data, i + 2 + t.token.width, EncNum(t.count), EncTypes(t.args));
    NumRoundTrip(data, i + 2, t.token);
  }

  lemma TypeShape(names: Names, t: Type, pending: string)
    requires Printable(names, t) && TypeOk(t)
    ensures t.Vector? || t.Generic? || IsLeaf(t)
    ensures t.Vector? ==>
              && EncType(t) == [SZARRAY] + EncType(t.item) && |EncType(t)| == 1 + |EncType(t.item)|
              && Printable(names, t.item) && TypeOk(t.item)
              && Print(names, t, pending) == Print(names, t.item, pending + "[]")
  {
    assert EncMods([]) == [];
  }

  /** Wherever a type stands, the loop appends its printed form and then closes what is complete. */
  lemma {:induction false} PrintsType(names: Names, data: seq<byte>, expected: nat, st: PState, t: Type)
    requires Printable(names, t) && TypeOk(t) && At(data, st.index, EncType(t))
    ensures Loop(names, data, expected, st) ==
            Continue(names, data, expected,
                     Finish(expected, st.index + |EncType(t)|, Decrement(st.stack), st.name + Print(names, t, st.pending), st.out))
    decreases t, 1
  {
    hide *;
    TypeShape(names, t, st.pending);
    if t.Vector? {
      AtCons(data, st.index, SZARRAY, EncType(t.item));
      VectorStep(names, data, expected, st);
      PrintsType(names, data, expected, st.(index := st.index + 1, pending := st.pending + "[]"), t.item);
    } else if t.Generic? {
      PrintsGeneric(names, data, expected, st, t);
    } else {
      PrintsLeaf(names, data, expected, st, t);
    }
  }

  lemma PrintGeneric(names: Names, t: Type, pending: string, before: string)
    requires t.Generic? && Printable(names, t)
    ensures AllPrintable(names, t.args) && t.args != []
    ensures before + names.generic(t.token.value) + "<" + PrintAll(names, t.args, pending) + ">" ==
            before + Print(names, t, pending)
  {
    var name, printed := names.generic(t.token.value), PrintAll(names, t.args, pending);
    assert Print(names, t, pending) == name + "<" + printed + ">";
    hide *;
    Assoc(before, name, "<");
    Assoc(before, name + "<", printed);
    Assoc(before, name + "<" + printed, ">");
  }

  lemma GenericOk(t: Type)
    requires t.Generic? && TypeOk(t)
    ensures TypesOk(t.args)
  {
  }

  lemma {:induction false} PrintsGeneric(names: Names, data: seq<byte>, expected: nat, st: PState, t: Type)
    requires t.Generic? && Printable(names, t) && TypeOk(t) && At(data, st.index, EncType(t))
    ensures Loop(names, data, expected, st) ==
            Continue(names, data, expected,
                     Finish(expected, st.index + |EncType(t)|, Decrement(st.stack), st.name + Print(names, t, st.pending), st.out))
    decreases t, 0
  {
    hide *;
    GenericOk(t);
    PrintGeneric(names, t, st.pending, st.name);
    OpensGeneric(names, data, expected, st, t);
    var base := Decrement(st.stack);
    var j := st.index + |EncType(t)| - |EncTypes(t.args)|;
    var inner := PState(j, base + [|t.args|], st.pending, st.name + names.generic(t.token.value) + "<", st.out);
    PrintsArguments(names, data, expected, inner, base, t.args);
  }

  lemma ArgumentsUnfold(names: Names, ts: seq<Type>, pending: string, before: string)
    requires ts != [] && AllPrintable(names, ts) && TypesOk(ts)
    ensures Printable(names, ts[0]) && TypeOk(ts[0]) && AllPrintable(names, ts[1..]) && TypesOk(ts[1..])
    ensures EncTypes(ts) == EncType(ts[0]) + EncTypes(ts[1..])
    ensures |ts| == 1 ==> EncTypes(ts[1..]) == []
    ensures var name := before + Print(names, ts[0], pending);
            before + PrintAll(names, ts, pending) + ">" ==
            if |ts| == 1 then name + ">" else name + ", " + PrintAll(names, ts[1..], "") + ">"
  {
    var first := Print(names, ts[0], pending);
    var rest := PrintAll(names, ts[1..], "");
    assert PrintAll(names, ts, pending) == first + if |ts| == 1 then "" else ", " + rest;
    hide Print;
    hide PrintAll;
    hide EncType;
    hide Printable;
    hide TypeOk;
    if |ts| == 1 {
      assert first + "" == first;
    } else {
      Assoc(before, first, ", " + rest);
      Assoc(before + first, ", ", rest);
    }
  }

  lemma {:induction false} PrintsArguments(names: Names, data: seq<byte>, expected: nat, st: PState, base: seq<int>, ts: seq<Type>)
    requires ts != [] && AllPrintable(names, ts) && TypesOk(ts) && At(data, st.index, EncTypes(ts))
    requires st.stack == base + [|ts|]
    ensures Loop(names, data, expected, st) ==
            Continue(names, data, expected,
                     Finish(expected, st.index + |EncTypes(ts)|, base, st.name + PrintAll(names, ts, st.pending) + ">", st.out))
    decreases ts, 0
  {
    hide At;
    hide Finish;
    hide EncType;
    hide EncTypes;
    hide Print;
    hide PrintAll;
    hide Printable;
    hide AllPrintable;
    hide TypesOk;
    hide TypeOk;
    hide Loop;
    hide Decrement;
    ArgumentsUnfold(names, ts, st.pending, st.name);
    var t, i := ts[0], st.index;
    var j, name := i + |EncType(t)|, st.name + Print(names, t, st.pending);
    AtSplit(data, i, EncType(t), EncTypes(ts[1..]));
    FinishInner(expected, j, base, |ts|, name, st.out);
    PrintsType(names, data, expected, st, t);
    if |ts| > 1 {
      PrintsArguments(names, data, expected, PState(j, base + [|ts| - 1], "", name + ", ", st.out), base, ts[1..]);
    }
  }

  function PrintEach(names: Names, ts: seq<Type>): (r: seq<string>)
    requires AllPrintable(names, ts)
    ensures |r| == |ts|
  {
    if ts == [] then [] else [Print(names, ts[0], "")] + PrintEach(names, ts[1..])
  }

  lemma FinishTop(expected: nat, index: nat, text: string, out: seq<string>)
    requires |out| < expected
    ensures Decrement([]) == []
    ensures Finish(expected, index, [], "" + text, out) == Some(PState(index, [], "", "", out + [text]))
  {
    assert "" + text + "" == text;
  }

  lemma SequenceUnfold(names: Names, ts: seq<Type>, out: seq<string>)
    requires AllPrintable(names, ts) && TypesOk(ts) && ts != []
    ensures Printable(names, ts[0]) && TypeOk(ts[0]) && AllPrintable(names, ts[1..]) && TypesOk(ts[1..])
    ensures EncTypes(ts) == EncType(ts[0]) + EncTypes(ts[1..])
    ensures out + PrintEach(names, ts) == out + [Print(names, ts[0], "")] + PrintEach(names, ts[1..])
  {
    EachUnfold(names, ts);
    hide *;
    Cons(out, Print(names, ts[0], ""), PrintEach(names, ts[1..]));
  }

  lemma EachUnfold(names: Names, ts: seq<Type>)
    requires AllPrintable(names, ts) && TypesOk(ts) && ts != []
    ensures Printable(names, ts[0]) && TypeOk(ts[0]) && AllPrintable(names, ts[1..]) && TypesOk(ts[1..])
    ensures EncTypes(ts) == EncType(ts[0]) + EncTypes(ts[1..])
    ensures PrintEach(names, ts) == [Print(names, ts[0], "")] + PrintEach(names, ts[1..])
  {
    hide Print;
    hide Printable;
    hide TypeOk;
    hide EncType;
  }

  lemma Cons<T>(out: seq<T>, x: T, rest: seq<T>)
    ensures out + ([x] + rest) == out + [x] + rest
  {
  }

  lemma {:induction false} PrintsSequence(names: Names, data: seq<byte>, expected: nat, i: nat, out: seq<string>, ts: seq<Type>)
    requires AllPrintable(names, ts) && TypesOk(ts) && At(data, i, EncTypes(ts)) && i + |EncTypes(ts)| == |data|
    requires |out| + |ts| <= expected
    ensures Loop(names, data, expected, PState(i, [], "", "", out)) == Some(Filled(out + PrintEach(names, ts), expected))
    decreases |ts|
  {
    hide *;
    if ts == [] {
      SequenceEnd(names, data, expected, i, out);
    } else {
      SequenceUnfold(names, ts, out);
      var text := Print(names, ts[0], "");
      var j := i + |EncType(ts[0])|;
      AtSplit(data, i, EncType(ts[0]), EncTypes(ts[1..]));
      PrintsType(names, data, expected, PState(i, [], "", "", out), ts[0]);
      FinishTop(expected, j, text, out);
      ContinueSome(names, data, expected, PState(j, [], "", "", out + [text]));
      PrintsSequence(names, data, expected, j, out + [text], ts[1..]);
    }
  }

  lemma SequenceEnd(names: Names, data: seq<byte>, expected: nat, i: nat, out: seq<string>)
    requires i + |EncTypes([])| == |data| && |out| <= expected
    ensures Loop(names, data, expected, PState(i, [], "", "", out)) == Some(Filled(out + PrintEach(names, []), expected))
  {
    assert out + [] == out;
  }

  lemma ContinueSome(names: Names, data: seq<byte>, expected: nat, st: PState)
    ensures Continue(names, data, expected, Some(st)) == Loop(names, data, expected, st)
  {
  }
}
