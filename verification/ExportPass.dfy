/**
 ILRewriter::Export over the linked list (il_rewriter.cpp:381-508): a pass that lays the nodes out in
 the output buffer, a pass that resolves the branches and widens those too far away, and the retry.
 */
module ExportPass {
  import opened Bytes
  import opened Opcodes
  import opened Layout
  import opened Codec
  import opened ILRewriterObject
  import opened ReplacementPass

  ghost predicate OpsAre(nodes: seq<ILInstr>, code: Code)
    reads nodes`opcode
  {
    |nodes| == |code| && forall i {:trigger nodes[i]} :: 0 <= i < |nodes| ==> nodes[i].opcode == code[i].op
  }

  ghost predicate OperandsAre(nodes: seq<ILInstr>, sentinel: ILInstr, code: Code)
    reads nodes`operand
  {
    && |nodes| == |code|
    && forall i {:trigger nodes[i]} :: 0 <= i < |nodes| ==> SameOperand(nodes[i].operand, code[i].operand, nodes, sentinel)
  }

  /** The list holds `code`: the same as Represents, read off the nodes. */
  ghost predicate Holds(nodes: seq<ILInstr>, sentinel: ILInstr, code: Code)
    reads nodes`opcode, nodes`operand
  {
    OpsAre(nodes, code) && OperandsAre(nodes, sentinel, code)
  }

  lemma HoldsRepresents(nodes: seq<ILInstr>, sentinel: ILInstr, code: Code)
    ensures Holds(nodes, sentinel, code) <==> Represents(nodes, sentinel, ContentOf(nodes), code)
  {
    if Represents(nodes, sentinel, ContentOf(nodes), code) {
      forall i | 0 <= i < |nodes|
        ensures nodes[i].opcode == code[i].op && SameOperand(nodes[i].operand, code[i].operand, nodes, sentinel)
      {
        assert SameInstr(ContentOf(nodes)[i], code[i], nodes, sentinel);
      }
    }
  }

  /** The opcodes that the export tables have an entry for and that can appear in a list. */
  predicate KnownOps(code: Code) {
    forall i :: 0 <= i < |code| ==> code[i].op < COUNT || code[i].op == SWITCH_ARG
  }

  /** The offsets that the layout pass has stored in the first nodes. */
  ghost predicate Offsets(front: seq<ILInstr>, code: Code)
    requires |front| <= |code|
    reads front`offset
  {
    forall i :: 0 <= i < |front| ==> front[i].offset == Offset(code, i)
  }

  // ---------- Buffer ----------

  predicate Slice(b: seq<byte>, off: int, s: seq<byte>) {
    0 <= off && off + |s| <= |b| && b[off..off + |s|] == s
  }

  function Written(b: seq<byte>, off: nat, s: seq<byte>): (r: seq<byte>)
    requires off + |s| <= |b|
    ensures |r| == |b|
  {
    b[..off] + s + b[off + |s|..]
  }

  lemma WrittenHere(b: seq<byte>, off: nat, s: seq<byte>)
    requires off + |s| <= |b|
    ensures Slice(Written(b, off, s), off, s)
  {
  }

  lemma WrittenElsewhere(b: seq<byte>, off: nat, s: seq<byte>, at: int, t: seq<byte>)
    requires off + |s| <= |b| && Slice(b, at, t) && (at + |t| <= off || off + |s| <= at)
    ensures Slice(Written(b, off, s), at, t)
  {
    var w := Written(b, off, s);
    forall k | 0 <= k < |t|
      ensures w[at + k] == t[k]
    {
      assert b[at..at + |t|][k] == b[at + k];
    }
  }

  lemma SliceAppend(b: seq<byte>, off: int, s: seq<byte>, t: seq<byte>)
    requires Slice(b, off, s) && Slice(b, off + |s|, t)
    ensures Slice(b, off, s + t)
  {
    assert b[off..off + |s| + |t|] == b[off..off + |s|] + b[off + |s|..off + |s| + |t|];
  }

  /** An unaligned store through a pointer into the buffer. */
  method Poke(buffer: array<byte>, off: nat, s: seq<byte>)
    requires off + |s| <= buffer.Length
    modifies buffer
    ensures buffer[..] == Written(old(buffer[..]), off, s)
  {
    forall k | 0 <= k < |s| {
      buffer[off + k] := s[k];
    }
  }

  lemma WrittenTwice(b: seq<byte>, off: nat, s: seq<byte>, t: seq<byte>)
    requires off + |s| + |t| <= |b|
    ensures Written(Written(b, off, s), off + |s|, t) == Written(b, off, s + t)
  {
  }

  // ---------- The layout pass ----------

  function Fixed<L>(x: Instr<L>): (f: seq<byte>) {
    match KindOf(x.op)
    case Inline(w) => Store(w, Immediate(x))
    case Switch => Store(4, Immediate(x))
    case _ => []
  }

  /** What the layout pass writes for an instruction: the opcode and any immediate operand. */
  function Head<L>(x: Instr<L>): (h: seq<byte>)
    ensures |h| <= Size(x.op)
  {
    OpcodeBytes(x.op) + Fixed(x)
  }

  lemma HeadOf(code: Code, i: nat)
    requires Closed(code) && i < |code|
    ensures HasLabel(code[i].op) ==> Head(code[i]) == OpcodeBytes(code[i].op)
    ensures !HasLabel(code[i].op) ==> Head(code[i]) == EncodeAt(code, i)
  {
  }

  method PutOpcode(buffer: array<byte>, start: nat, opcode: nat) returns (offset: nat)
    requires opcode < COUNT || opcode == SWITCH_ARG
    requires start + |OpcodeBytes(opcode)| <= buffer.Length
    modifies buffer
    ensures offset == start + |OpcodeBytes(opcode)|
    ensures buffer[..] == Written(old(buffer[..]), start, OpcodeBytes(opcode))
  {
    offset := start;
    if opcode < COUNT {
      if opcode >= 0x100 {
        buffer[offset] := PREFIX1;
        offset := offset + 1;
      }
      buffer[offset] := opcode % 256;
      offset := offset + 1;
    }
  }

  method PutFixed(buffer: array<byte>, start: nat, x: Instr<ILInstr?>) returns (offset: nat, branch: bool)
    requires start + Size(x.op) - |OpcodeBytes(x.op)| <= buffer.Length
    modifies buffer
    ensures offset == start + Size(x.op) - |OpcodeBytes(x.op)| && branch == HasLabel(x.op)
    ensures start + |Fixed(x)| <= buffer.Length
    ensures buffer[..] == Written(old(buffer[..]), start, Fixed(x))
  {
    offset, branch := start, false;
    match KindOf(x.op) {
      case Plain =>
      case Inline(w) =>
        Poke(buffer, offset, Store(w, Immediate(x)));
        offset := offset + w;
      case ShortBranch =>
        branch := true;
        offset := offset + 1;
      case LongBranch =>
        branch := true;
        offset := offset + 4;
      case Switch =>
        Poke(buffer, offset, Store(4, Immediate(x)));
        offset := offset + 4;
      case SwitchEntry =>
        branch := true;
        offset := offset + 4;
    }
  }

  lemma HeadRoom(x: Instr<ILInstr?>)
    ensures |OpcodeBytes(x.op)| <= Size(x.op)
    ensures |OpcodeBytes(x.op)| + |Fixed(x)| <= Size(x.op)
  {
  }

  /** One iteration of the layout pass (il_rewriter.cpp:396-446). */
  method LayNode(p: ILInstr, buffer: array<byte>, start: nat) returns (offset: nat, branch: bool)
    requires p.opcode < COUNT || p.opcode == SWITCH_ARG
    requires start + Size(p.opcode) <= buffer.Length
    modifies p`offset, buffer
    ensures p.offset == start && offset == start + Size(p.opcode) && branch == HasLabel(p.opcode)
    ensures start + |Head(Instr(p.opcode, p.operand))| <= buffer.Length
    ensures buffer[..] == Written(old(buffer[..]), start, Head(Instr(p.opcode, p.operand)))
  {
    hide Size;
    hide KindOf;
    hide Written;
    hide Fixed;
    hide OpcodeBytes;
    hide HasLabel;
    var x := Instr(p.opcode, p.operand);
    HeadRoom(x);
    p.offset := start;
    offset := PutOpcode(buffer, start, x.op);
    offset, branch := PutFixed(buffer, offset, x);
    WrittenTwice(old(buffer[..]), start, OpcodeBytes(x.op), Fixed(x));
  }

  /** The heads of the first `n` instructions stand in the buffer, each at its offset. */
  predicate AllLaid(b: seq<byte>, code: Code, n: nat)
    requires n <= |code|
  {
    forall j {:trigger Offset(code, j)} :: 0 <= j < n ==> Slice(b, Offset(code, j), Head(code[j]))
  }

  lemma LaidStep(b: seq<byte>, code: Code, i: nat)
    requires i < |code| && Offset(code, i + 1) <= |b| && AllLaid(b, code, i)
    ensures Offset(code, i) + |Head(code[i])| <= |b| && Offset(code, i + 1) == Offset(code, i) + Size(code[i].op)
    ensures AllLaid(Written(b, Offset(code, i), Head(code[i])), code, i + 1)
  {
    hide Size;
    hide Slice;
    hide Written;
    hide Head;
    hide Offset;
    OffsetNext(code, i);
    var h, o := Head(code[i]), Offset(code, i);
    WrittenHere(b, o, h);
    forall j | 0 <= j < i
      ensures Slice(Written(b, o, h), Offset(code, j), Head(code[j]))
    {
      OffsetNext(code, j);
      OffsetSpan(code, j + 1, i);
      WrittenElsewhere(b, o, h, Offset(code, j), Head(code[j]));
    }
  }

  lemma NodeHolds(nodes: seq<ILInstr>, sentinel: ILInstr, code: Code, i: nat)
    requires Linked(nodes, sentinel) && Holds(nodes, sentinel, code) && i < |nodes|
    ensures nodes[i] != sentinel && |nodes| == |code| && nodes[i].opcode == code[i].op
    ensures SameOperand(nodes[i].operand, code[i].operand, nodes, sentinel)
    ensures Head(Instr(nodes[i].opcode, nodes[i].operand)) == Head(code[i])
  {
    hide KindOf;
    hide OpcodeBytes;
    hide Store;
  }

  lemma RoomFor(code: Code, i: nat, limit: nat)
    requires i <= |code| <= limit
    ensures Offset(code, i) <= CodeSize(code) <= 10 * limit
  {
    OffsetSpan(code, i, |code|);
    OffsetSpan(code, 0, |code|);
  }

  lemma OffsetsStep(nodes: seq<ILInstr>, code: Code, i: nat)
    requires |nodes| == |code| && i < |nodes| && Offsets(nodes[..i], code) && nodes[i].offset == Offset(code, i)
    ensures Offsets(nodes[..i + 1], code)
  {
  }

  method LayOut(rewriter: ILRewriter, buffer: array<byte>, ghost code: Code) returns (offset: nat, branch: bool)
    requires rewriter.Valid() && Holds(rewriter.nodes, rewriter.sentinel, code) && KnownOps(code)
    requires buffer.Length == 10 * rewriter.nInstrs && |rewriter.nodes| == |code|
    modifies rewriter.nodes`offset, rewriter.sentinel`offset, buffer
    ensures offset == CodeSize(code) <= buffer.Length && rewriter.sentinel.offset == offset
    ensures Offsets(rewriter.nodes, code) && AllLaid(buffer[..], code, |code|)
    ensures branch <==> exists i :: 0 <= i < |code| && HasLabel(code[i].op)
  {
    hide *;
    offset, branch := 0, false;
    var sentinel := rewriter.sentinel;
    ghost var nodes, i := rewriter.nodes, 0;
    LinkedAndRoom(rewriter);
    NextAt(nodes, sentinel, 0);
    LayStart(nodes, code, buffer[..]);
    var p := sentinel.next;
    while p != sentinel
      invariant i <= |code| && p == NodeAt(nodes, sentinel, i)
      invariant offset == Offset(code, i)
      invariant Offsets(nodes[..i], code) && AllLaid(buffer[..], code, i)
      invariant branch <==> exists j :: 0 <= j < i && HasLabel(code[j].op)
      decreases |code| - i
    {
      CursorInside(nodes, sentinel, p, i);
      NodeHolds(nodes, sentinel, code, i);
      KnownAt(code, i);
      RoomFor(code, i + 1, rewriter.nInstrs);
      LaidStep(buffer[..], code, i);
      var here;
      offset, here := LayNode(p, buffer, offset);
      branch := branch || here;
      OffsetsStep(nodes, code, i);
      p := p.next;
      i := i + 1;
    }
    CursorInside(nodes, sentinel, p, i);
    assert nodes[..|code|] == nodes;
    RoomFor(code, |code|, rewriter.nInstrs);
    sentinel.offset := offset;
    CodeSizeIs(code);
  }

  lemma LinkedAndRoom(rewriter: ILRewriter)
    requires rewriter.Valid()
    ensures Linked(rewriter.nodes, rewriter.sentinel) && |rewriter.nodes| <= rewriter.nInstrs
  {
  }

  lemma LayStart(nodes: seq<ILInstr>, code: Code, b: seq<byte>)
    requires |nodes| == |code|
    ensures Offset(code, 0) == 0 && Offsets(nodes[..0], code) && AllLaid(b, code, 0)
  {
  }

  lemma KnownAt(code: Code, i: nat)
    requires KnownOps(code) && i < |code|
    ensures code[i].op < COUNT || code[i].op == SWITCH_ARG
  {
  }

  lemma CodeSizeIs(code: Code)
    ensures CodeSize(code) == Offset(code, |code|)
  {
  }

  // ---------- The pass that resolves branches ----------

  /** What stands at instruction `j` once the first `i` have been resolved. */
  function Expected(code: Code, i: nat, j: nat): (s: seq<byte>)
    requires Closed(code) && j < |code|
    ensures |s| <= Size(code[j].op)
  {
    if j < i && !TooFar(code, j) then EncodeAt(code, j) else Head(code[j])
  }

  predicate Resolving(b: seq<byte>, code: Code, i: nat)
    requires Closed(code)
  {
    forall j {:trigger Offset(code, j)} :: 0 <= j < |code| ==> Slice(b, Offset(code, j), Expected(code, i, j))
  }

  lemma ExpectedSame(code: Code, i: nat, j: nat)
    requires Closed(code) && j < |code| && i < |code|
    requires j != i || !HasLabel(code[i].op) || TooFar(code, i)
    ensures Expected(code, i + 1, j) == Expected(code, i, j)
  {
    if j == i {
      HeadOf(code, i);
    }
  }

  lemma ResolveIdle(b: seq<byte>, code: Code, i: nat)
    requires Closed(code) && i < |code| && Resolving(b, code, i)
    requires !HasLabel(code[i].op) || TooFar(code, i)
    ensures Resolving(b, code, i + 1)
  {
    hide Expected;
    hide Slice;
    hide HasLabel;
    hide TooFar;
    hide Offset;
    forall j | 0 <= j < |code|
      ensures Slice(b, Offset(code, j), Expected(code, i + 1, j))
    {
      ExpectedSame(code, i, j);
    }
  }

  lemma ExpectedParts(code: Code, i: nat)
    requires Closed(code) && i < |code| && HasLabel(code[i].op) && !TooFar(code, i)
    ensures Expected(code, i, i) == OpcodeBytes(code[i].op)
    ensures Expected(code, i + 1, i) == OpcodeBytes(code[i].op) + OperandBytes(code, i)
    ensures Offset(code, i) + |OpcodeBytes(code[i].op)| + |OperandBytes(code, i)| == Offset(code, i + 1)
  {
    HeadOf(code, i);
    OffsetNext(code, i);
    hide Size;
    hide KindOf;
    hide OpcodeBytes;
    hide OperandBytes;
    hide HasLabel;
    hide Offset;
  }

  lemma {:induction false} ExpectedHere(b: seq<byte>, code: Code, i: nat)
    requires Closed(code) && i < |code| && HasLabel(code[i].op) && !TooFar(code, i)
    requires Slice(b, Offset(code, i), Expected(code, i, i)) && Offset(code, i + 1) <= |b|
    ensures var mid := Offset(code, i) + |OpcodeBytes(code[i].op)|;
            && mid + |OperandBytes(code, i)| == Offset(code, i + 1)
            && Slice(Written(b, mid, OperandBytes(code, i)), Offset(code, i), Expected(code, i + 1, i))
  {
    hide *;
    ExpectedParts(code, i);
    var o, mid := Offset(code, i), Offset(code, i) + |OpcodeBytes(code[i].op)|;
    WrittenHere(b, mid, OperandBytes(code, i));
    WrittenElsewhere(b, mid, OperandBytes(code, i), o, OpcodeBytes(code[i].op));
    SliceAppend(Written(b, mid, OperandBytes(code, i)), o, OpcodeBytes(code[i].op), OperandBytes(code, i));
  }

  lemma ResolveStep(b: seq<byte>, code: Code, i: nat, mid: nat)
    requires Closed(code) && i < |code| && Resolving(b, code, i) && Offset(code, i + 1) <= |b|
    requires HasLabel(code[i].op) && !TooFar(code, i) && mid == Offset(code, i) + |OpcodeBytes(code[i].op)|
    ensures mid + |OperandBytes(code, i)| == Offset(code, i + 1)
    ensures Resolving(Written(b, mid, OperandBytes(code, i)), code, i + 1)
  {
    hide Expected;
    hide Slice;
    hide HasLabel;
    hide TooFar;
    hide Offset;
    hide Written;
    hide OperandBytes;
    hide OpcodeBytes;
    hide Size;
    ExpectedHere(b, code, i);
    forall j | 0 <= j < |code|
      ensures Slice(Written(b, mid, OperandBytes(code, i)), Offset(code, j), Expected(code, i + 1, j))
    {
      if j != i {
        ExpectedSame(code, i, j);
        Apart(code, i, j);
        WrittenElsewhere(b, mid, OperandBytes(code, i), Offset(code, j), Expected(code, i, j));
      }
    }
  }

  lemma Apart(code: Code, i: nat, j: nat)
    requires i < |code| && j < |code| && i != j
    ensures Offset(code, j) + Size(code[j].op) <= Offset(code, i) || Offset(code, i + 1) <= Offset(code, j)
  {
    hide Size;
    OffsetNext(code, j);
    if j < i {
      OffsetSpan(code, j + 1, i);
    } else {
      OffsetSpan(code, i + 1, j);
    }
  }

  /** Once every branch is resolved the buffer starts with the encoding. */
  lemma {:induction false} ResolvedPrefix(b: seq<byte>, code: Code, i: nat)
    requires Closed(code) && Settled(code) && i <= |code| && CodeSize(code) <= |b| && Resolving(b, code, |code|)
    ensures Offset(code, i) <= |b| && b[..Offset(code, i)] == EncodePrefix(code, i)
  {
    hide *;
    InsideBuffer(code, i);
    if i > 0 {
      ResolvedPrefix(b, code, i - 1);
      ResolvedAt(b, code, i - 1);
      PrefixNext(code, i - 1);
      SlicesJoin(b, Offset(code, i - 1), Offset(code, i), EncodeAt(code, i - 1));
    } else {
      EmptyPrefix(code);
    }
  }

  lemma InsideBuffer(code: Code, i: nat)
    requires i <= |code|
    ensures Offset(code, i) <= CodeSize(code)
  {
    OffsetSpan(code, i, |code|);
  }

  lemma EmptyPrefix(code: Code)
    requires Closed(code)
    ensures Offset(code, 0) == 0 && EncodePrefix(code, 0) == []
  {
  }

  lemma ResolvedAt(b: seq<byte>, code: Code, i: nat)
    requires Closed(code) && Settled(code) && i < |code| && Resolving(b, code, |code|)
    ensures Slice(b, Offset(code, i), EncodeAt(code, i))
  {
    hide TooFar;
    hide Slice;
    hide EncodeAt;
    hide Offset;
    assert !TooFar(code, i);
    assert Slice(b, Offset(code, i), Expected(code, |code|, i));
  }

  lemma SlicesJoin(b: seq<byte>, o: nat, e: nat, s: seq<byte>)
    requires Slice(b, o, s) && e == o + |s|
    ensures e <= |b| && b[..e] == b[..o] + s
  {
  }

  lemma OffsetAt(nodes: seq<ILInstr>, sentinel: ILInstr, code: Code, t: nat)
    requires |nodes| == |code| && t <= |nodes| && Offsets(nodes, code) && sentinel.offset == CodeSize(code)
    ensures NodeAt(nodes, sentinel, t).offset == Offset(code, t)
  {
  }

  /** What the resolve pass reads for instruction `i`, in terms of the layout. */
  lemma {:induction false} TargetOffset(nodes: seq<ILInstr>, sentinel: ILInstr, code: Code, i: nat)
    requires |nodes| == |code| && i < |nodes| && Offsets(nodes, code) && sentinel.offset == CodeSize(code)
    requires Closed(code) && HasLabel(code[i].op) && SameOperand(nodes[i].operand, code[i].operand, nodes, sentinel)
    ensures nodes[i].operand.Label? && nodes[i].operand.dest != null
    ensures nodes[i].operand.dest.offset == Offset(code, code[i].operand.dest)
    ensures code[i].operand.Label? && code[i].operand.dest <= |code|
  {
    hide HasLabel;
    hide Offset;
    OffsetAt(nodes, sentinel, code, code[i].operand.dest);
  }

  /** The operand bytes of a branch or of a switch entry. */
  lemma LabelBytes(code: Code, i: nat)
    requires Closed(code) && i < |code| && HasLabel(code[i].op)
    ensures code[i].op == SWITCH_ARG ==>
              && OperandBytes(code, i) == Store(4, Offset(code, code[i].operand.dest) - SwitchBase(code, i))
              && |OpcodeBytes(code[i].op)| == 0 && !TooFar(code, i)
    ensures KindOf(code[i].op).ShortBranch? ==>
              && OperandBytes(code, i) == Store(1, Delta(code, i))
              && Offset(code, i) + |OpcodeBytes(code[i].op)| == Offset(code, i + 1) - 1
    ensures KindOf(code[i].op).LongBranch? ==>
              && OperandBytes(code, i) == Store(4, Delta(code, i)) && !TooFar(code, i)
              && Offset(code, i) + |OpcodeBytes(code[i].op)| == Offset(code, i + 1) - 4
  {
    OffsetNext(code, i);
    hide Offset;
    hide Store;
    hide SwitchBase;
  }

  /** The bytes a resolved instruction leaves in the buffer. */
  function Resolved(b: seq<byte>, code: Code, i: nat): (r: seq<byte>)
    requires Closed(code) && i < |code| && Offset(code, i + 1) <= |b|
  {
    if HasLabel(code[i].op) && !TooFar(code, i) then
      OffsetNext(code, i);
      Written(b, Offset(code, i) + |OpcodeBytes(code[i].op)|, OperandBytes(code, i))
    else b
  }

  lemma ResolvedStep(b: seq<byte>, code: Code, i: nat)
    requires Closed(code) && i < |code| && Resolving(b, code, i) && Offset(code, i + 1) <= |b|
    ensures Resolving(Resolved(b, code, i), code, i + 1)
  {
    hide Resolving;
    hide OpcodeBytes;
    hide OperandBytes;
    hide Offset;
    hide HasLabel;
    hide TooFar;
    hide Written;
    if HasLabel(code[i].op) && !TooFar(code, i) {
      ResolveStep(b, code, i, Offset(code, i) + |OpcodeBytes(code[i].op)|);
    } else {
      ResolveIdle(b, code, i);
    }
  }

  /** One iteration of the resolve pass (il_rewriter.cpp:454-504). */
  method ResolveNode(p: ILInstr, buffer: array<byte>, base: int, ghost nodes: seq<ILInstr>, ghost sentinel: ILInstr, ghost code: Code, ghost i: nat)
    returns (base': int, again: bool)
    requires |nodes| == |code| && i < |code| && p == nodes[i] && Closed(code)
    requires p.next == NodeAt(nodes, sentinel, i + 1)
    requires p.opcode == code[i].op && SameOperand(p.operand, code[i].operand, nodes, sentinel)
    requires Offsets(nodes, code) && sentinel.offset == CodeSize(code) && base == SwitchBase(code, i)
    requires Offset(code, i + 1) <= buffer.Length
    modifies p`opcode, buffer
    ensures base' == SwitchBase(code, i + 1) && again == TooFar(code, i) && p.opcode == WidenAt(code, i).op
    ensures buffer[..] == Resolved(old(buffer[..]), code, i)
  {
    hide Store;
    hide Offset;
    hide Size;
    hide OpcodeBytes;
    hide Written;
    hide NodeAt;
    hide Offsets;
    hide OperandBytes;
    hide IsInline4;
    base', again := base, false;
    var opcode := p.opcode;
    OffsetNext(code, i);
    OffsetAt(nodes, sentinel, code, i);
    OffsetAt(nodes, sentinel, code, i + 1);
    AtIndex(nodes, sentinel, i);
    if HasLabel(opcode) {
      TargetOffset(nodes, sentinel, code, i);
      LabelBytes(code, i);
    }
    if opcode == SWITCH {
      base' := p.offset + 1 + 4 * (Immediate(Instr(opcode, p.operand)) + 1);
    } else if opcode == SWITCH_ARG {
      Poke(buffer, p.offset, Store(4, p.operand.dest.offset - base));
    } else if IsBranch(opcode) {
      var delta := p.operand.dest.offset - p.next.offset;
      if KindOf(opcode).ShortBranch? {
        if !(-128 <= delta <= 127) {
          p.opcode := Widen(opcode);
          again := true;
        } else {
          Poke(buffer, p.next.offset - 1, Store(1, delta));
        }
      } else {
        Poke(buffer, p.next.offset - 4, Store(4, delta));
      }
    }
  }

  lemma AtIndex(nodes: seq<ILInstr>, sentinel: ILInstr, i: nat)
    requires i < |nodes|
    ensures NodeAt(nodes, sentinel, i) == nodes[i]
  {
  }

  lemma ResolveStart(b: seq<byte>, code: Code)
    requires Closed(code) && AllLaid(b, code, |code|)
    ensures Resolving(b, code, 0) && SwitchBase(code, 0) == 0
  {
    hide Slice;
    hide Head;
    hide Offset;
  }

  lemma OpsFront(nodes: seq<ILInstr>, code: Code, wide: Code, i: nat)
    requires |nodes| == |code| == |wide| && i < |nodes|
    requires OpsAre(nodes[..i], wide[..i]) && nodes[i].opcode == wide[i].op
    ensures OpsAre(nodes[..i + 1], wide[..i + 1])
  {
    var front, ops := nodes[..i + 1], wide[..i + 1];
    forall j | 0 <= j < i + 1
      ensures front[j].opcode == ops[j].op
    {
      assert j < i ==> nodes[..i][j] == nodes[j] && wide[..i][j] == wide[j];
    }
  }

  lemma OpsBack(nodes: seq<ILInstr>, code: Code, i: nat)
    requires |nodes| == |code| && i < |nodes| && OpsAre(nodes[i..], code[i..])
    ensures nodes[i].opcode == code[i].op && OpsAre(nodes[i + 1..], code[i + 1..])
  {
    assert nodes[i] == nodes[i..][0] && code[i] == code[i..][0];
    var back, ops := nodes[i + 1..], code[i + 1..];
    forall j | 0 <= j < |back|
      ensures back[j].opcode == ops[j].op
    {
      assert back[j] == nodes[i..][j + 1] && ops[j] == code[i..][j + 1];
    }
  }

  lemma OperandsWiden(nodes: seq<ILInstr>, sentinel: ILInstr, code: Code)
    requires Closed(code) && OperandsAre(nodes, sentinel, code)
    ensures OperandsAre(nodes, sentinel, WidenPass(code))
  {
  }

  lemma OperandHere(nodes: seq<ILInstr>, sentinel: ILInstr, code: Code, i: nat)
    requires OperandsAre(nodes, sentinel, code) && i < |nodes|
    ensures |nodes| == |code| && SameOperand(nodes[i].operand, code[i].operand, nodes, sentinel)
  {
  }

  lemma HoldsParts(nodes: seq<ILInstr>, sentinel: ILInstr, code: Code)
    ensures Holds(nodes, sentinel, code) <==> OpsAre(nodes, code) && OperandsAre(nodes, sentinel, code)
    ensures OpsAre(nodes, code) ==> |nodes| == |code|
    ensures OpsAre([], [])
  {
  }

  lemma PassSize(code: Code)
    requires Closed(code)
    ensures |WidenPass(code)| == |code|
  {
  }

  lemma PassAt(code: Code, i: nat)
    requires Closed(code) && i < |code|
    ensures |WidenPass(code)| == |code| && WidenPass(code)[i].op == WidenAt(code, i).op
  {
  }

  /** The pass over all control-flow instructions against the offsets of the layout pass. */
  method ResolveBranches(rewriter: ILRewriter, buffer: array<byte>, ghost code: Code) returns (again: bool)
    requires rewriter.Valid() && Holds(rewriter.nodes, rewriter.sentinel, code) && Closed(code)
    requires |rewriter.nodes| == |code| && CodeSize(code) <= buffer.Length
    requires Offsets(rewriter.nodes, code) && rewriter.sentinel.offset == CodeSize(code)
    requires AllLaid(buffer[..], code, |code|)
    modifies rewriter.nodes`opcode, buffer
    ensures Holds(rewriter.nodes, rewriter.sentinel, WidenPass(code))
    ensures again <==> !Settled(code)
    ensures Resolving(buffer[..], code, |code|)
  {
    hide *;
    again := false;
    var sentinel := rewriter.sentinel;
    ghost var nodes, i, wide := rewriter.nodes, 0, WidenPass(code);
    LinkedAndRoom(rewriter);
    HoldsParts(nodes, sentinel, code);
    PassSize(code);
    assert nodes[0..] == nodes && code[0..] == code;
    NextAt(nodes, sentinel, 0);
    ResolveStart(buffer[..], code);
    var base := 0;
    var p := sentinel.next;
    while p != sentinel
      invariant i <= |code| == |wide| && p == NodeAt(nodes, sentinel, i)
      invariant base == SwitchBase(code, i)
      invariant OpsAre(nodes[..i], wide[..i]) && OpsAre(nodes[i..], code[i..])
      invariant Resolving(buffer[..], code, i)
      invariant again <==> exists j :: 0 <= j < i && TooFar(code, j)
      decreases |code| - i
    {
      CursorInside(nodes, sentinel, p, i);
      OpsBack(nodes, code, i);
      OperandHere(nodes, sentinel, code, i);
      RoomFor(code, i + 1, |code|);
      ResolvedStep(buffer[..], code, i);
      PassAt(code, i);
      var far;
      base, far := ResolveNode(p, buffer, base, nodes, sentinel, code, i);
      again := again || far;
      OpsFront(nodes, code, wide, i);
      p := p.next;
      i := i + 1;
    }
    CursorInside(nodes, sentinel, p, i);
    assert nodes[..|code|] == nodes && wide[..|code|] == wide;
    OperandsWiden(nodes, sentinel, code);
    HoldsParts(nodes, sentinel, wide);
    SettledMeans(code);
  }

  lemma SettledMeans(code: Code)
    requires Closed(code)
    ensures Settled(code) <==> forall i :: 0 <= i < |code| ==> !TooFar(code, i)
  {
  }

  /**
   Without branches the resolve pass is skipped; there is nothing for it to write.
   */
  lemma NothingToResolve(nodes: seq<ILInstr>, sentinel: ILInstr, b: seq<byte>, code: Code)
    requires Closed(code) && AllLaid(b, code, |code|)
    requires forall i :: 0 <= i < |code| ==> !HasLabel(code[i].op)
    ensures Settled(code) && Resolving(b, code, |code|)
  {
    forall j | 0 <= j < |code|
      ensures !TooFar(code, j) && Slice(b, Offset(code, j), Expected(code, |code|, j))
    {
      HeadOf(code, j);
    }
  }

  lemma SettleStep(code: Code)
    requires Closed(code) && !Settled(code)
    ensures Settle(WidenPass(code)) == Settle(code) && ShortCount(WidenPass(code)) < ShortCount(code)
    ensures Passes(code) == 1 + Passes(WidenPass(code))
  {
    var i :| 0 <= i < |code| && TooFar(code, i);
    assert WidenPass(code)[i] != code[i];
    WideningCount(code, WidenPass(code));
  }

  lemma SettleDone(code: Code)
    requires Closed(code) && Settled(code)
    ensures Settle(code) == code && Passes(code) == 1
  {
  }

  lemma PassKnown(code: Code)
    requires Closed(code) && KnownOps(code)
    ensures KnownOps(WidenPass(code)) && |WidenPass(code)| == |code|
  {
  }

  /**
   Export up to the header: the list ends up holding the settled layout of its code, and the buffer
   starts with the encoding of that layout. Every store lies inside the buffer.
   */
  method Export(rewriter: ILRewriter, ghost code: Code) returns (buffer: array<byte>, codeSize: nat, ghost passes: nat)
    requires rewriter.Valid() && Represents(rewriter.nodes, rewriter.sentinel, rewriter.Content(), code)
    requires Closed(code) && KnownOps(code)
    modifies rewriter.nodes`opcode, rewriter.nodes`offset, rewriter.sentinel`offset
    ensures rewriter.Valid() && Represents(rewriter.nodes, rewriter.sentinel, rewriter.Content(), Settle(code))
    ensures fresh(buffer) && buffer.Length == 10 * rewriter.nInstrs
    ensures codeSize == CodeSize(Settle(code)) <= buffer.Length && buffer[..codeSize] == Encode(Settle(code))
    ensures Offsets(rewriter.nodes, Settle(code)) && rewriter.sentinel.offset == codeSize
    ensures passes == Passes(code)
  {
    hide *;
    buffer := new byte[10 * rewriter.nInstrs](_ => 0);
    var sentinel := rewriter.sentinel;
    ghost var nodes, current := rewriter.nodes, code;
    ContentIs(rewriter);
    HoldsRepresents(nodes, sentinel, code);
    HoldsParts(nodes, sentinel, code);
    var again := true;
    codeSize, passes := 0, 0;
    while again
      invariant rewriter.Valid() && Closed(current) && KnownOps(current) && |current| == |nodes|
      invariant Holds(nodes, sentinel, current) && Settle(current) == Settle(code)
      invariant again ==> passes + Passes(current) == Passes(code)
      invariant !again ==>
          && Settled(current) && Resolving(buffer[..], current, |current|) && passes == Passes(code)
          && codeSize == CodeSize(current) <= buffer.Length && Offsets(nodes, current) && sentinel.offset == codeSize
      decreases again, ShortCount(current)
    {
      var branch;
      codeSize, branch := LayOut(rewriter, buffer, current);
      passes := passes + 1;
      again := false;
      if branch {
        again := ResolveBranches(rewriter, buffer, current);
        if again {
          SettleStep(current);
          PassKnown(current);
          current := WidenPass(current);
        } else {
          SettleDone(current);
          IdlePass(current);
        }
      } else {
        NothingToResolve(nodes, sentinel, buffer[..], current);
        SettleDone(current);
      }
    }
    SettleDone(current);
    ResolvedPrefix(buffer[..], current, |current|);
    EncodeIs(current);
    HoldsRepresents(nodes, sentinel, current);
    ContentIs(rewriter);
  }

  lemma IdlePass(code: Code)
    requires Closed(code) && Settled(code)
    ensures WidenPass(code) == code
  {
    assert forall i :: 0 <= i < |code| ==> !TooFar(code, i);
  }

  lemma EncodeIs(code: Code)
    requires Closed(code)
    ensures Encode(code) == EncodePrefix(code, |code|) && Offset(code, |code|) == CodeSize(code)
  {
  }

  lemma ContentIs(rewriter: ILRewriter)
    ensures rewriter.Content() == ContentOf(rewriter.nodes)
  {
  }
}
