/**
 The bytes of an exported body and the opcodes that an import accepts, in the numbers of Partition III
 of ECMA-335: what the codec's round trips leave open, because both of its directions share it.
 */
module ByteForm {
  import opened Bytes
  import opened Opcodes
  import opened Layout
  import opened Codec

  /** Integers are stored least significant byte first, cut to their width. */
  lemma LittleEndian(v: int)
    ensures Store(1, v) == [v % 0x100] && Store(2, v) == [v % 0x100, v / 0x100 % 0x100]
    ensures Store(4, v) == [v % 0x100, v / 0x100 % 0x100, v / 0x1_0000 % 0x100, v / 0x100_0000 % 0x100]
    ensures Store(8, v) == Store(4, v) + Store(4, v / 0x1_0000_0000)
  {
    Quotients(v);
    assert Store(1, v) == [v % 0x100] + Store(0, v / 0x100);
    assert Store(2, v) == [v % 0x100] + Store(1, v / 0x100);
    Store4(v);
    Store4(v / 0x1_0000_0000);
    Store8(v);
  }

  lemma Quotients(v: int)
    ensures v / 0x100 / 0x100 == v / 0x1_0000 && v / 0x1_0000 / 0x100 == v / 0x100_0000 && v / 0x100_0000 / 0x100 == v / 0x1_0000_0000
  {
  }

  lemma StoreNext(width: nat, v: int)
    requires width > 0
    ensures Store(width, v) == [v % 0x100] + Store(width - 1, v / 0x100)
  {
  }

  lemma Store4(v: int)
    ensures Store(4, v) == [v % 0x100, v / 0x100 % 0x100, v / 0x1_0000 % 0x100, v / 0x100_0000 % 0x100]
  {
    hide *;
    Quotients(v);
    StoreNext(4, v);
    StoreNext(3, v / 0x100);
    StoreNext(2, v / 0x1_0000);
    StoreNext(1, v / 0x100_0000);
    assert Store(0, v / 0x1_0000_0000) == [];
  }

  lemma Store8(v: int)
    ensures Store(8, v) == Store(4, v) + Store(4, v / 0x1_0000_0000)
  {
    hide *;
    Quotients(v);
    var h := v / 0x1_0000_0000;
    Store4(v);
    StoreNext(8, v);
    StoreNext(7, v / 0x100);
    StoreNext(6, v / 0x1_0000);
    StoreNext(5, v / 0x100_0000);
  }

  /** The bytes `s` stand in the encoding from offset `o` on. */
  predicate WrittenAt(b: seq<byte>, o: nat, s: seq<byte>) {
    o + |s| <= |b| && b[o..o + |s|] == s
  }

  /** A one-byte opcode is its byte, the others are FE and a second byte; a table entry has none. */
  function OpcodeForm(op: nat): (b: seq<byte>)
    requires op < 0x126 || op == 0x127
  {
    if op == 0x127 then [] else if op < 0x100 then [op] else [0xFE, op - 0x100]
  }

  lemma OperandIs(code: Code, i: nat)
    requires Closed(code) && i < |code| && (code[i].op < 0x126 || code[i].op == 0x127)
    ensures var x := code[i]; var p := Offset(code, i) + |OpcodeForm(x.op)|;
            && OpcodeBytes(x.op) == OpcodeForm(x.op)
            && match KindOf(x.op)
               case Plain => OperandBytes(code, i) == []
               case Inline(w) => x.operand.Imm? ==> OperandBytes(code, i) == Store(w, x.operand.value)
               case ShortBranch =>
                 && x.operand.Label? && x.operand.dest <= |code|
                 && OperandBytes(code, i) == Store(1, Offset(code, x.operand.dest) - (p + 1))
               case LongBranch =>
                 && x.operand.Label? && x.operand.dest <= |code|
                 && OperandBytes(code, i) == Store(4, Offset(code, x.operand.dest) - (p + 4))
               case Switch => x.operand.Imm? ==> OperandBytes(code, i) == Store(4, x.operand.value)
               case SwitchEntry =>
                 && x.operand.Label? && x.operand.dest <= |code|
                 && OperandBytes(code, i) == Store(4, Offset(code, x.operand.dest) - SwitchBase(code, i))
  {
    hide *;
    OpcodeIs(code[i].op);
    LabelIs(code, i);
    OperandCases(code, i);
  }

  lemma OperandCases(code: Code, i: nat)
    requires Closed(code) && i < |code|
    ensures var x := code[i]; var b := OperandBytes(code, i);
            match KindOf(x.op)
            case Plain => b == []
            case Inline(w) => x.operand.Imm? ==> b == Store(w, x.operand.value)
            case ShortBranch => HasLabel(x.op) && b == Store(1, Delta(code, i))
            case LongBranch => HasLabel(x.op) && b == Store(4, Delta(code, i))
            case Switch => x.operand.Imm? ==> b == Store(4, x.operand.value)
            case SwitchEntry => HasLabel(x.op) && x.operand.Label? && x.operand.dest <= |code| &&
                                b == Store(4, Offset(code, x.operand.dest) - SwitchBase(code, i))
  {
    assert HasLabel(code[i].op) ==> code[i].operand.Label? && code[i].operand.dest <= |code|;
    hide Store;
    hide Offset;
    hide SwitchBase;
    hide Delta;
    hide Closed;
    hide OpcodeBytes;
  }

  lemma OpcodeIs(op: nat)
    requires op < 0x126 || op == 0x127
    ensures OpcodeBytes(op) == OpcodeForm(op)
  {
  }

  lemma LabelIs(code: Code, i: nat)
    requires Closed(code) && i < |code|
    ensures HasLabel(code[i].op) ==>
              && code[i].operand.Label? && code[i].operand.dest <= |code|
              && Delta(code, i) == Offset(code, code[i].operand.dest) - Offset(code, i + 1)
    ensures KindOf(code[i].op).ShortBranch? ==> Offset(code, i + 1) == Offset(code, i) + |OpcodeBytes(code[i].op)| + 1
    ensures KindOf(code[i].op).LongBranch? ==> Offset(code, i + 1) == Offset(code, i) + |OpcodeBytes(code[i].op)| + 4
  {
    OffsetNext(code, i);
  }

  lemma SlicesStand(code: Code, i: nat)
    requires Closed(code) && i < |code|
    ensures var o := Offset(code, i); var b := Encode(code); var front := OpcodeBytes(code[i].op);
            && WrittenAt(b, o, front) && WrittenAt(b, o + |front|, OperandBytes(code, i))
            && Offset(code, i + 1) == o + |front| + |OperandBytes(code, i)|
  {
    EncodedSlices(code, i);
    hide OpcodeBytes;
    hide OperandBytes;
    hide Encode;
    hide Offset;
    hide Closed;
  }

  /**
   Instruction `i` in the exported body: its opcode at its offset, behind that its operand. Branches
   hold the distance from their own end to their target, switches the number of their entries.
   */
  lemma {:induction false} InstructionBytes(code: Code, i: nat)
    requires Closed(code) && i < |code| && (code[i].op < 0x126 || code[i].op == 0x127)
    ensures var x := code[i]; var o := Offset(code, i); var b := Encode(code); var p := o + |OpcodeForm(x.op)|;
            && WrittenAt(b, o, OpcodeForm(x.op))
            && match KindOf(x.op)
               case Plain => Offset(code, i + 1) == p
               case Inline(w) => x.operand.Imm? ==> WrittenAt(b, p, Store(w, x.operand.value)) && Offset(code, i + 1) == p + w
               case ShortBranch =>
                 && x.operand.Label? && x.operand.dest <= |code|
                 && WrittenAt(b, p, Store(1, Offset(code, x.operand.dest) - (p + 1))) && Offset(code, i + 1) == p + 1
               case LongBranch =>
                 && x.operand.Label? && x.operand.dest <= |code|
                 && WrittenAt(b, p, Store(4, Offset(code, x.operand.dest) - (p + 4))) && Offset(code, i + 1) == p + 4
               case Switch => x.operand.Imm? ==> WrittenAt(b, p, Store(4, x.operand.value)) && Offset(code, i + 1) == p + 4
               case SwitchEntry => Offset(code, i + 1) == p + 4
  {
    hide *;
    OperandIs(code, i);
    SlicesStand(code, i);
  }

  /** Entry `k` of a table holds the distance from the end of the whole table to its target. */
  lemma {:induction false} EntryBytes(code: Code, i: nat, n: nat, k: nat)
    requires Closed(code) && i < |code| && code[i].op == 0x45 && code[i].operand == Imm(n)
    requires k < n && i + 1 + n <= |code| && forall j :: i < j <= i + n ==> code[j].op == 0x127
    ensures var x := code[i + 1 + k]; var end := Offset(code, i) + 5 + 4 * n;
            && x.operand.Label? && x.operand.dest <= |code| && end == Offset(code, i + 1 + n)
            && WrittenAt(Encode(code), Offset(code, i + 1 + k), Store(4, Offset(code, x.operand.dest) - end))
  {
    hide *;
    TableBase(code, i, n, k);
    EntryWritten(code, i + 1 + k);
  }

  lemma TableBase(code: Code, i: nat, n: nat, k: nat)
    requires i < |code| && code[i].op == 0x45 && code[i].operand == Imm(n) && k < n && i + 1 + n <= |code|
    requires forall j :: i < j <= i + n ==> code[j].op == 0x127
    ensures SwitchBase(code, i + 1 + k) == Offset(code, i + 1 + n) == Offset(code, i) + 5 + 4 * n
  {
    SwitchOffsets(code, i, n, k);
    SwitchOffsets(code, i, n, n);
    hide Offset;
    hide SwitchBase;
  }

  lemma EntryWritten(code: Code, q: nat)
    requires Closed(code) && q < |code| && code[q].op == 0x127
    ensures var x := code[q];
            && x.operand.Label? && x.operand.dest <= |code|
            && WrittenAt(Encode(code), Offset(code, q), Store(4, Offset(code, x.operand.dest) - SwitchBase(code, q)))
  {
    assert KindOf(0x127) == SwitchEntry && |OpcodeForm(0x127)| == 0;
    hide *;
    OperandIs(code, q);
    SlicesStand(code, q);
  }

  /** An opcode is accepted exactly if it is one byte below F8 or equal to FF, or FE and a byte below 26. */
  lemma {:induction false} OpcodeAccepted(b: seq<byte>, off: nat, op: nat, next: nat)
    requires off < |b|
    ensures ReadOpcode(b, off) == Ok(Opcode(op, next)) <==>
              || ((b[off] < 0xF8 || b[off] == 0xFF) && op == b[off] && next == off + 1)
              || (b[off] == 0xFE && off + 1 < |b| && b[off + 1] < 0x26 && op == 0x100 + b[off + 1] as int && next == off + 2)
  {
  }
}
