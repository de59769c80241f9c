/**
 TryParseSignatureTypes in the source's own form: a loop over mutable variables
 (clr_helpers.cpp:406-675), proved to compute what the step-by-step description says.
 */
module SignatureLoop {
  import opened Bytes
  import opened Signatures
  import opened SignaturePrinter
  import opened SignatureRendering

  /** The inner loop over consecutive SZARRAY bytes (clr_helpers.cpp:547-552). */
  method ReadVectors(data: seq<byte>, start: nat, pending: string) returns (index: nat, text: string)
    requires start < |data|
    ensures index == VectorRun(data, start) && text == pending + Brackets(index - start)
  {
    index, text := start, pending + "[]";
    assert Brackets(1) == "[]" by {
      assert Brackets(0) + "[]" == "[]";
    }
    while index + 1 < |data| && data[index + 1] == SZARRAY
      invariant start <= index < |data| && VectorRun(data, start) == VectorRun(data, index)
      invariant text == pending + Brackets(index + 1 - start)
    {
      Assoc(pending, Brackets(index + 1 - start), "[]");
      text := text + "[]";
      index := index + 1;
    }
    index := index + 1;
  }

  /** Decrement the innermost level and unwind the levels with no arguments left (clr_helpers.cpp:630-649). */
  method CloseLevels(levels: seq<int>, text: string) returns (stack: seq<int>, name: string)
    ensures var s := Decrement(levels); (stack, name) == Unwind(s, text + Comma(s))
  {
    stack, name := levels, text;
    if stack != [] {
      stack := stack[..|stack| - 1] + [stack[|stack| - 1] - 1];
      if stack[|stack| - 1] > 0 {
        name := name + ", ";
      }
    }
    assert text + "" == text;
    ghost var s := Decrement(levels);
    assert stack == s && name == text + Comma(s);
    while stack != [] && stack[|stack| - 1] == 0
      invariant Unwind(s, text + Comma(s)) == Unwind(stack, name)
      decreases |stack|
    {
      stack := stack[..|stack| - 1];
      name := name + ">";
      assert name + "" == name;
      if stack != [] && stack[|stack| - 1] > 0 {
        name := name + ", ";
      }
    }
  }

  /** One trip around the outer loop; None where it gives up. */
  method ReadElement(names: Names, data: seq<byte>, expected: nat, st: PState) returns (r: Option<PState>)
    requires st.index < |data|
    ensures r == Iterate(names, data, expected, st)
  {
    hide Brackets;
    hide VectorRun;
    hide Unwind;
    hide Decrement;
    hide ParseNum;
    hide LeafName;
    hide Comma;
    var index, stack, name := st.index, st.stack, st.name;
    var elem := data[index];
    if elem == END {
      return Some(st.(index := index + 1));
    } else if elem == SZARRAY {
      var pending;
      index, pending := ReadVectors(data, index, st.pending);
      return Some(st.(index := index, pending := pending));
    } else if elem == GENERICINST {
      var token := ParseNum(data, index + 2);
      if token.None? {
        return None;
      }
      var generic := names.generic(token.value.item.value);
      name := name + generic + "<";
      stack := Decrement(stack);
      var count := names.arity(generic);
      if count.None? {
        return None;
      }
      stack := stack + [count.value];
      return Some(PState(token.value.next + 1, stack, st.pending, name, st.out));
    }
    if elem == VALUETYPE || elem == CLASS {
      var token := ParseNum(data, index + 1);
      if token.None? {
        return None;
      }
      name := name + names.named(token.value.item.value);
      index := token.value.next;
    } else if elem == VAR || elem == MVAR {
      name := name + "T";
      index := index + 2;
    } else {
      name := name + LeafName(names, elem);
      index := index + 1;
    }
    name := name + st.pending;
    stack, name := CloseLevels(stack, name);
    if stack != [] {
      return Some(PState(index, stack, "", name, st.out));
    }
    if |st.out| >= expected {
      return None;
    }
    return Some(PState(index, [], "", "", st.out + [name]));
  }

  method TryParseSignatureTypes(names: Names, data: seq<byte>) returns (ok: bool, types: seq<string>)
    ensures var r := SignatureTypes(names, data); ok == r.Some? && (ok ==> types == r.value)
  {
    var expected := NumberOfArguments(data) + 1;
    var st := PState(TypesStart(data), [], "", "", []);
    while st.index < |data|
      invariant SignatureTypes(names, data) == Loop(names, data, expected, st)
      decreases |data| - st.index
    {
      hide Iterate;
      var next := ReadElement(names, data, expected, st);
      if next.None? {
        return false, [];
      }
      st := next.value;
    }
    return true, Filled(st.out, expected);
  }
}
