/**
 When the printed form of a type is the form it should have: exactly when no array is built directly
 over a generic instantiation. There the loop attaches the brackets to the first type argument.
 */
module SignatureRendering {
  import opened Bytes
  import opened Signatures
  import opened SignatureTheorems
  import opened SignaturePrinter

  /** No array directly over a generic instantiation, at any depth. */
  predicate Tame(t: Type)
    decreases t, 0
  {
    match t
    case Vector(_, u) => !u.Generic? && Tame(u)
    case Generic(_, _, _, args) => AllTame(args)
    case _ => true
  }

  predicate AllTame(ts: seq<Type>)
    decreases ts, 0
  {
    ts == [] || (Tame(ts[0]) && AllTame(ts[1..]))
  }

  // ---------- Agreement ----------

  lemma {:induction false} TamePrint(names: Names, t: Type, n: nat)
    requires Printable(names, t) && Tame(t) && (t.Generic? ==> n == 0)
    ensures Print(names, t, Brackets(n)) == Render(names, t) + Brackets(n)
    decreases t, 0
  {
    match t
    case Vector(_, u) =>
      TamePrint(names, u, n + 1);
      BracketsFront(n);
      Assoc(Render(names, u), "[]", Brackets(n));
    case Generic(_, _, _, args) =>
      TamePrintAll(names, args);
      assert Render(names, t) + "" == Render(names, t);
    case _ =>
  }

  lemma {:induction false} TamePrintAll(names: Names, ts: seq<Type>)
    requires AllPrintable(names, ts) && AllTame(ts)
    ensures PrintAll(names, ts, "") == RenderAll(names, ts)
    decreases ts, 0
  {
    if ts != [] {
      TamePrint(names, ts[0], 0);
      assert Render(names, ts[0]) + "" == Render(names, ts[0]);
      TamePrintAll(names, ts[1..]);
    }
  }

  // ---------- Divergence ----------

  /** The strings differ at a position that both have, so no continuation can make them equal. */
  ghost predicate Diverge(a: string, b: string) {
    exists k :: 0 <= k < |a| && k < |b| && a[k] != b[k]
  }

  lemma DivergeWrap(pre: string, a: string, b: string, x: string, y: string)
    requires Diverge(a, b)
    ensures Diverge(pre + a + x, pre + b + y)
  {
    var k :| 0 <= k < |a| && k < |b| && a[k] != b[k];
    assert (pre + a + x)[|pre| + k] == a[k];
    assert (pre + b + y)[|pre| + k] == b[k];
  }

  predicate Separator(c: string) {
    c != "" && c[0] != '['
  }

  lemma {:induction false} BracketsDiverge(text: string, m: nat, n: nat, c: string)
    requires m > n && Separator(c)
    ensures Diverge(text + Brackets(m), text + Brackets(n) + c)
  {
    BracketsLength(m);
    BracketsLength(n);
    var k := |text| + 2 * n;
    assert (text + Brackets(m))[k] == Brackets(m)[2 * n] == '[';
    assert (text + Brackets(n) + c)[k] == c[0];
  }

  lemma {:induction false} BracketsLength(m: nat)
    ensures |Brackets(m)| == 2 * m
    ensures forall i :: 0 <= i < m ==> Brackets(m)[2 * i] == '['
  {
    if m > 0 {
      BracketsLength(m - 1);
      forall i | 0 <= i < m
        ensures Brackets(m)[2 * i] == '['
      {
        if i < m - 1 {
          assert Brackets(m)[2 * i] == Brackets(m - 1)[2 * i];
        }
      }
    }
  }

  /** Brackets held back from outside show up too early inside. */
  lemma {:induction false} HeldBackDiverges(names: Names, t: Type, m: nat, n: nat, c: string)
    requires Printable(names, t) && m > n && Separator(c)
    ensures Diverge(Print(names, t, Brackets(m)), Render(names, t) + Brackets(n) + c)
    decreases t, 1
  {
    if t.Vector? {
      HeldBackDiverges(names, t.item, m + 1, n + 1, c);
      BracketsFront(n);
      Assoc(Render(names, t.item), "[]", Brackets(n));
    } else if t.Generic? {
      GenericDiverges(names, t, m, Brackets(n) + c);
      Assoc(Render(names, t), Brackets(n), c);
    } else {
      PrintLeaf(names, t, Brackets(m));
      BracketsDiverge(LeafText(names, t), m, n, c);
    }
  }

  lemma {:induction false} GenericDiverges(names: Names, t: Type, m: nat, y: string)
    requires t.Generic? && Printable(names, t) && m > 0
    ensures Diverge(Print(names, t, Brackets(m)), Render(names, t) + y)
    decreases t, 0
  {
    var pre := names.generic(t.token.value) + "<";
    var a, b := PrintAll(names, t.args, Brackets(m)), RenderAll(names, t.args);
    FirstDiverges(names, t.args, m);
    assert Print(names, t, Brackets(m)) == pre + a + ">";
    assert Render(names, t) == pre + b + ">";
    hide Print;
    hide Render;
    hide PrintAll;
    hide RenderAll;
    Assoc(pre + b, ">", y);
    Assoc(pre, b, ">" + y);
    Assoc(pre, b + ">", y);
    Assoc(pre, b, ">");
    assert pre + b + ">" + y == pre + (b + ">") + y;
    DivergeWrap(pre, a, b + ">", ">", y);
  }

  lemma {:induction false} FirstDiverges(names: Names, ts: seq<Type>, m: nat)
    requires ts != [] && AllPrintable(names, ts) && m > 0
    ensures Diverge(PrintAll(names, ts, Brackets(m)), RenderAll(names, ts) + ">")
    decreases ts, 0
  {
    var tail := if |ts| == 1 then "" else ", " + PrintAll(names, ts[1..], "");
    var tail' := if |ts| == 1 then "" else ", " + RenderAll(names, ts[1..]);
    var first, text := Print(names, ts[0], Brackets(m)), Render(names, ts[0]);
    HeldBackDiverges(names, ts[0], m, 0, tail' + ">");
    assert PrintAll(names, ts, Brackets(m)) == first + tail;
    assert RenderAll(names, ts) == text + tail';
    assert Brackets(0) == "";
    hide Print;
    hide Render;
    hide PrintAll;
    hide RenderAll;
    hide Brackets;
    assert text + "" == text;
    Assoc(text, tail', ">");
    DivergeWrap("", first, text + (tail' + ">"), tail, "");
    assert "" + first + tail == first + tail;
    assert "" + (text + (tail' + ">")) + "" == text + tail' + ">";
  }

  /** Where an array stands directly over a generic instantiation, the two forms differ. */
  lemma {:induction false} WildDiverges(names: Names, t: Type, m: nat)
    requires Printable(names, t) && !Tame(t)
    ensures Diverge(Print(names, t, Brackets(m)), Render(names, t) + Brackets(m))
    decreases t, 0
  {
    if t.Vector? {
      BracketsFront(m);
      Assoc(Render(names, t.item), "[]", Brackets(m));
      if t.item.Generic? {
        GenericDiverges(names, t.item, m + 1, Brackets(m + 1));
      } else {
        WildDiverges(names, t.item, m + 1);
      }
    } else {
      if m > 0 {
        GenericDiverges(names, t, m, Brackets(m));
      } else {
        AnyWildDiverges(names, t.args);
        var pre, a, b := names.generic(t.token.value) + "<", PrintAll(names, t.args, ""), RenderAll(names, t.args);
        DivergeWrap(pre, a, b, ">", ">");
        assert pre + b + ">" + "" == pre + b + ">";
      }
    }
  }

  lemma {:induction false} AnyWildDiverges(names: Names, ts: seq<Type>)
    requires AllPrintable(names, ts) && !AllTame(ts)
    ensures Diverge(PrintAll(names, ts, ""), RenderAll(names, ts))
    decreases ts, 0
  {
    var tail := if |ts| == 1 then "" else ", " + PrintAll(names, ts[1..], "");
    var tail' := if |ts| == 1 then "" else ", " + RenderAll(names, ts[1..]);
    var first, text := Print(names, ts[0], ""), Render(names, ts[0]);
    assert PrintAll(names, ts, "") == first + tail;
    assert RenderAll(names, ts) == text + tail';
    assert Brackets(0) == "" && text + "" == text;
    if Tame(ts[0]) {
      TamePrint(names, ts[0], 0);
      assert |ts| > 1;
      AnyWildDiverges(names, ts[1..]);
      var a, b := PrintAll(names, ts[1..], ""), RenderAll(names, ts[1..]);
      DivergeWrap(text + ", ", a, b, "", "");
      Assoc(text, ", ", a);
      Assoc(text, ", ", b);
      assert text + ", " + a + "" == text + ", " + a;
      assert text + ", " + b + "" == text + ", " + b;
    } else {
      WildDiverges(names, ts[0], 0);
      DivergeWrap("", first, text, tail, tail');
      assert "" + first + tail == first + tail;
      assert "" + text + tail' == text + tail';
    }
  }

  /** The printer gets a type right if and only if no array stands directly over a generic instantiation. */
  lemma {:induction false} PrintIsRenderIffTame(names: Names, t: Type)
    requires Printable(names, t)
    ensures Print(names, t, "") == Render(names, t) <==> Tame(t)
  {
    assert Brackets(0) == "" && Render(names, t) + "" == Render(names, t);
    if Tame(t) {
      TamePrint(names, t, 0);
    } else {
      WildDiverges(names, t, 0);
    }
  }

  // ---------- Whole method signatures ----------

  /** The accessors of MethodSignature (integration.h:137-181). */
  predicate IsGenericMethod(data: seq<byte>) {
    data != [] && data[0] / 0x10 % 2 == 1
  }

  function NumberOfTypeArguments(data: seq<byte>): nat {
    if |data| > 1 && IsGenericMethod(data) then data[1] else 0
  }

  function NumberOfArguments(data: seq<byte>): nat {
    if |data| > 2 && IsGenericMethod(data) then data[2]
    else if |data| > 1 then data[1]
    else 0
  }

  function TypesStart(data: seq<byte>): nat {
    if NumberOfTypeArguments(data) > 0 then 3 else 2
  }

  /** What TryParseSignatureTypes computes; None where it reports failure. */
  function SignatureTypes(names: Names, data: seq<byte>): Option<seq<string>> {
    Loop(names, data, NumberOfArguments(data) + 1, PState(TypesStart(data), [], "", "", []))
  }

  /** A method signature: calling convention, type-parameter count if generic, parameter count, types. */
  function EncMethod(conv: byte, generics: Option<byte>, ts: seq<Type>): (b: seq<byte>)
    requires TypesOk(ts) && 1 <= |ts| <= 128
  {
    [conv] + (if generics.Some? then [generics.value] else []) + [|ts| - 1] + EncTypes(ts)
  }

  predicate MethodOk(names: Names, conv: byte, generics: Option<byte>, ts: seq<Type>) {
    && AllPrintable(names, ts) && TypesOk(ts) && 1 <= |ts| <= 128
    && (generics.Some? <==> conv / 0x10 % 2 == 1) && (generics.Some? ==> generics.value > 0)
  }

  lemma MethodHeader(conv: byte, generics: Option<byte>, ts: seq<Type>)
    requires TypesOk(ts) && 1 <= |ts| <= 128
    requires (generics.Some? <==> conv / 0x10 % 2 == 1) && (generics.Some? ==> generics.value > 0)
    ensures var data := EncMethod(conv, generics, ts);
            && NumberOfArguments(data) + 1 == |ts|
            && At(data, TypesStart(data), EncTypes(ts))
            && TypesStart(data) + |EncTypes(ts)| == |data|
  {
    var head: seq<byte> := [conv] + (if generics.Some? then [generics.value] else []) + [|ts| - 1];
    var tail := EncTypes(ts);
    assert ts != [] ==> |EncTypes(ts)| > 0;
    hide EncTypes;
    var data := head + tail;
    assert data[0] == conv;
    if generics.Some? {
      assert data[1] == generics.value && data[2] == |ts| - 1;
    } else {
      assert data[1] == |ts| - 1;
    }
    assert data[|head|..|head| + |tail|] == tail;
  }

  /**
   The stack-machine printer refines the recursive one: on every method signature it succeeds and
   entry i is the printed form of type i, whatever the depth of generic nesting.
   */
  lemma {:induction false} PrinterRefinesRecursion(names: Names, conv: byte, generics: Option<byte>, ts: seq<Type>)
    requires MethodOk(names, conv, generics, ts)
    ensures SignatureTypes(names, EncMethod(conv, generics, ts)) == Some(PrintEach(names, ts))
  {
    var data := EncMethod(conv, generics, ts);
    MethodHeader(conv, generics, ts);
    PrintsSequence(names, data, |ts|, TypesStart(data), [], ts);
    assert Filled([] + PrintEach(names, ts), |ts|) == PrintEach(names, ts);
  }

  function RenderEach(names: Names, ts: seq<Type>): (r: seq<string>)
    requires AllPrintable(names, ts)
    ensures |r| == |ts|
  {
    if ts == [] then [] else [Render(names, ts[0])] + RenderEach(names, ts[1..])
  }

  lemma {:induction false} EachIffTame(names: Names, ts: seq<Type>)
    requires AllPrintable(names, ts)
    ensures PrintEach(names, ts) == RenderEach(names, ts) <==> AllTame(ts)
  {
    if ts != [] {
      PrintIsRenderIffTame(names, ts[0]);
      EachIffTame(names, ts[1..]);
      var p, r := PrintEach(names, ts), RenderEach(names, ts);
      assert p[0] == Print(names, ts[0], "") && p[1..] == PrintEach(names, ts[1..]);
      assert r[0] == Render(names, ts[0]) && r[1..] == RenderEach(names, ts[1..]);
    }
  }

  /** The printed entries are the intended ones if and only if no array stands over a generic instantiation. */
  lemma {:induction false} EntriesRightIffTame(names: Names, conv: byte, generics: Option<byte>, ts: seq<Type>)
    requires MethodOk(names, conv, generics, ts)
    ensures SignatureTypes(names, EncMethod(conv, generics, ts)) == Some(RenderEach(names, ts)) <==> AllTame(ts)
  {
    PrinterRefinesRecursion(names, conv, generics, ts);
    EachIffTame(names, ts);
  }
}
