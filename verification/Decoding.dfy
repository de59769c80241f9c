/**
 What ImportIL yields for arbitrary bytes: whenever all targets resolve, the imported list is well
 formed, and exporting it unchanged gives the same bytes.
 */
module Decoding {
  import opened Bytes
  import opened Opcodes
  import opened Layout
  import opened Codec

  /** Every target hit an instruction or the end of the body. */
  predicate Resolvable(decoded: seq<Instr<Option<nat>>>) {
    forall i :: 0 <= i < |decoded| && decoded[i].operand.Label? ==> decoded[i].operand.dest.Some?
  }

  function Located(x: Instr<Option<nat>>): Instr<nat> {
    match x.operand
    case Imm(v) => Instr(x.op, Imm(v))
    case Label(t) => Instr(x.op, Label(if t.Some? then t.value else 0))
  }

  function AsCode(decoded: seq<Instr<Option<nat>>>): (code: Code)
    ensures |code| == |decoded|
  {
    seq(|decoded|, i requires 0 <= i < |decoded| => Located(decoded[i]))
  }

  // ---------- Shape of what is read ----------

  /** One instruction as it can be read. */
  predicate RawOk(r: Raw) {
    match KindOf(r.instr.op)
    case Plain => r.instr.operand == Imm(0)
    case Inline(w) => r.instr.operand.Imm? && Fits(w, r.instr.operand.value)
    case Switch => r.instr.operand.Imm? && 0 <= r.instr.operand.value
    case _ => r.instr.operand.Label?
  }

  /** Element `j` of what was read, where `off` is the offset the layout gives to it. */
  predicate ReadAs(r: Raw, off: nat) {
    && RawOk(r) && (Importable(r.instr.op) || r.instr.op == SWITCH_ARG)
    && r.start == if r.instr.op == SWITCH_ARG then -1 else off
  }

  lemma {:induction false} EntryAt(b: seq<byte>, pos: nat, n: nat, base: int, j: nat)
    requires pos <= |b| && ReadEntries(b, pos, n, base).Ok? && j < n
    ensures pos + 4 * j + 4 <= |b|
    ensures ReadEntries(b, pos, n, base).value[j]
            == Raw(-1, Instr(SWITCH_ARG, Label(base + LoadSigned(b[pos + 4 * j..pos + 4 * j + 4]))))
    decreases n
  {
    if j > 0 {
      EntryAt(b, pos + 4, n - 1, base, j - 1);
    }
  }

  lemma {:induction false} PlainOk(b: seq<byte>, op: nat, off: int, pos: nat)
    requires pos + OperandWidth(op) <= |b| && Importable(op) && op != SWITCH && op != SWITCH_ARG
    ensures RawOk(Raw(off, Instr(op, ReadOperand(b, op, pos))))
  {
    match KindOf(op)
    case Inline(w) => assert |b[pos..pos + w]| == w;
    case _ =>
  }

  /** Cases of ReadFrom, for a successful read. */
  lemma ReadCases(b: seq<byte>, off: nat)
    requires off < |b| && ReadFrom(b, off).Ok?
    ensures ReadOpcode(b, off).Ok?
    ensures var o := ReadOpcode(b, off).value; var raws := ReadFrom(b, off).value;
            if o.op == SWITCH then
              && o.next + 4 <= |b|
              && var n := LoadUnsigned(b[o.next..o.next + 4]);
              && ReadEntries(b, o.next + 4, n, o.next + 4 + 4 * n).Ok?
              && ReadFrom(b, o.next + 4 + 4 * n).Ok?
              && raws == [Raw(off, Instr(SWITCH, Imm(n)))] + ReadEntries(b, o.next + 4, n, o.next + 4 + 4 * n).value
                         + ReadFrom(b, o.next + 4 + 4 * n).value
            else
              && o.next + OperandWidth(o.op) <= |b|
              && ReadFrom(b, o.next + OperandWidth(o.op)).Ok?
              && raws == [Raw(off, Instr(o.op, ReadOperand(b, o.op, o.next)))] + ReadFrom(b, o.next + OperandWidth(o.op)).value
  {
    hide KindOf;
    hide ReadOpcode;
    hide ReadOperand;
    hide OperandWidth;
    hide ReadEntries;
    hide LoadUnsigned;
  }

  // ---------- Walking the bytes and the list together ----------

  /** `code` agrees with what was read, up to the targets. */
  predicate Agree(raws: seq<Raw>, code: Code) {
    && |raws| == |code|
    && forall i {:trigger code[i]} :: 0 <= i < |code| ==>
         && code[i].op == raws[i].instr.op
         && (raws[i].instr.operand.Imm? ==> code[i].operand == Imm(raws[i].instr.operand.value))
         && (raws[i].instr.operand.Label? ==> code[i].operand.Label?)
  }

  predicate From(b: seq<byte>, raws: seq<Raw>, code: Code, i: nat) {
    i <= |raws| == |code| && Offset(code, i) <= |b| && ReadFrom(b, Offset(code, i)) == Ok(raws[i..])
  }

  lemma SizeParts(op: nat)
    requires op != SWITCH && op != SWITCH_ARG
    ensures Size(op) == |OpcodeBytes(op)| + OperandWidth(op)
  {
  }

  lemma OpcodeSpan(b: seq<byte>, off: nat, o: Opcode)
    requires off < |b| && ReadOpcode(b, off) == Ok(o)
    ensures o.next == off + |OpcodeBytes(o.op)| <= |b| && b[off..o.next] == OpcodeBytes(o.op) && Importable(o.op)
    ensures o.op == SWITCH ==> o.next == off + 1
  {
  }

  lemma Tail<T>(s: seq<T>, i: nat, x: T, rest: seq<T>)
    requires i <= |s| && s[i..] == [x] + rest
    ensures i < |s| && s[i] == x && s[i + 1..] == rest
  {
    assert s[i] == s[i..][0] && s[i + 1..] == s[i..][1..];
  }

  lemma TailTable<T>(s: seq<T>, i: nat, x: T, mid: seq<T>, rest: seq<T>)
    requires i <= |s| && s[i..] == [x] + mid + rest
    ensures i + 1 + |mid| <= |s| && s[i] == x && s[i + 1..i + 1 + |mid|] == mid && s[i + 1 + |mid|..] == rest
  {
    var t := s[i..];
    assert s[i] == t[0] && s[i + 1..i + 1 + |mid|] == t[1..1 + |mid|] && s[i + 1 + |mid|..] == t[1 + |mid|..];
  }

  /** One ordinary instruction. */
  lemma {:induction false} PlainStep(b: seq<byte>, raws: seq<Raw>, code: Code, i: nat, o: Opcode)
    requires Agree(raws, code) && From(b, raws, code, i) && Offset(code, i) < |b|
    requires ReadOpcode(b, Offset(code, i)) == Ok(o) && o.op != SWITCH
    ensures i < |code| && raws[i].instr.op == o.op && code[i].op == o.op && o.op != SWITCH_ARG
    ensures o.next + OperandWidth(o.op) == Offset(code, i + 1) <= |b|
    ensures raws[i] == Raw(Offset(code, i), Instr(o.op, ReadOperand(b, o.op, o.next)))
    ensures ReadAs(raws[i], Offset(code, i)) && From(b, raws, code, i + 1)
  {
    hide *;
    FromParts(b, raws, code, i);
    var off := Offset(code, i);
    ReadCases(b, off);
    OpcodeSpan(b, off, o);
    var r := Raw(off, Instr(o.op, ReadOperand(b, o.op, o.next)));
    Tail(raws, i, r, ReadFrom(b, o.next + OperandWidth(o.op)).value);
    AgreeAt(raws, code, i);
    NotEntry(o.op);
    SizeParts(o.op);
    PlainOk(b, o.op, off, o.next);
    OffsetNext(code, i);
    FromNext(b, raws, code, i + 1, o.next + OperandWidth(o.op));
    ReadAsPlain(r, off);
  }

  lemma FromParts(b: seq<byte>, raws: seq<Raw>, code: Code, i: nat)
    requires From(b, raws, code, i)
    ensures i <= |raws| == |code| && Offset(code, i) <= |b| && ReadFrom(b, Offset(code, i)) == Ok(raws[i..])
  {
  }

  lemma AgreeAt(raws: seq<Raw>, code: Code, i: nat)
    requires Agree(raws, code) && i < |code|
    ensures |raws| == |code| && code[i].op == raws[i].instr.op
    ensures raws[i].instr.operand.Imm? ==> code[i].operand == Imm(raws[i].instr.operand.value)
    ensures raws[i].instr.operand.Label? ==> code[i].operand.Label?
  {
  }

  lemma NotEntry(op: nat)
    requires Importable(op)
    ensures op != SWITCH_ARG
  {
  }

  lemma FromNext(b: seq<byte>, raws: seq<Raw>, code: Code, i: nat, off: nat)
    requires i <= |raws| == |code| && off == Offset(code, i) <= |b| && ReadFrom(b, off) == Ok(raws[i..])
    ensures From(b, raws, code, i)
  {
  }

  lemma ReadAsPlain(r: Raw, off: nat)
    requires RawOk(r) && Importable(r.instr.op) && r.instr.op != SWITCH_ARG && r.start == off
    ensures ReadAs(r, off)
  {
  }

  /** One switch together with its table. */
  lemma {:induction false} SwitchStep(b: seq<byte>, raws: seq<Raw>, code: Code, i: nat, o: Opcode, n: nat)
    requires Agree(raws, code) && From(b, raws, code, i) && Offset(code, i) < |b|
    requires ReadOpcode(b, Offset(code, i)) == Ok(o) && o.op == SWITCH
    requires n == if o.next + 4 <= |b| then LoadUnsigned(b[o.next..o.next + 4]) else 0
    ensures o.next == Offset(code, i) + 1 && o.next + 4 <= |b| && i + 1 + n <= |code|
    ensures raws[i] == Raw(Offset(code, i), Instr(SWITCH, Imm(n))) && code[i] == Instr(SWITCH, Imm(n))
    ensures forall j :: 0 <= j < n ==> EntryIs(b, raws, code, i, n, j)
    ensures forall j :: i < j <= i + n ==> code[j].op == SWITCH_ARG
    ensures From(b, raws, code, i + 1 + n)
  {
    hide *;
    FromParts(b, raws, code, i);
    var off := Offset(code, i);
    ReadCases(b, off);
    OpcodeSpan(b, off, o);
    var base := o.next + 4 + 4 * n;
    var entries := ReadEntries(b, o.next + 4, n, base).value;
    EntriesSize(b, o.next + 4, n, base);
    SwitchTail(raws, i, off, n, entries, ReadFrom(b, base).value);
    AgreeAt(raws, code, i);
    forall j | 0 <= j < n
      ensures EntryIs(b, raws, code, i, n, j) && code[i + 1 + j].op == SWITCH_ARG
    {
      EntryAt(b, o.next + 4, n, base, j);
      AgreeAt(raws, code, i + 1 + j);
      assert raws[i + 1 + j] == raws[i + 1..i + 1 + n][j];
      EntryIntro(b, raws, code, i, n, j);
    }
    forall j | i < j <= i + n
      ensures code[j].op == SWITCH_ARG
    {
      assert EntryIs(b, raws, code, i, n, j - i - 1);
      AgreeAt(raws, code, i + 1 + (j - i - 1));
      EntryOp(b, raws, code, i, n, j - i - 1);
    }
    SwitchShape(code, i, n);
    FromNext(b, raws, code, i + 1 + n, base);
  }

  lemma EntriesSize(b: seq<byte>, pos: nat, n: nat, base: int)
    requires pos <= |b| && ReadEntries(b, pos, n, base).Ok?
    ensures |ReadEntries(b, pos, n, base).value| == n && pos + 4 * n <= |b|
  {
  }

  lemma SwitchTail(raws: seq<Raw>, i: nat, off: nat, n: nat, entries: seq<Raw>, rest: seq<Raw>)
    requires i <= |raws| && |entries| == n && raws[i..] == [Raw(off, Instr(SWITCH, Imm(n)))] + entries + rest
    ensures i + 1 + n <= |raws| && raws[i] == Raw(off, Instr(SWITCH, Imm(n)))
    ensures raws[i].instr.operand.Imm? && raws[i].instr.op == SWITCH
    ensures raws[i + 1..i + 1 + n] == entries && raws[i + 1 + n..] == rest
  {
    TailTable(raws, i, Raw(off, Instr(SWITCH, Imm(n))), entries, rest);
  }

  /** Entry `j` of the table of the switch at `i`, with its bytes. */
  predicate EntryIs(b: seq<byte>, raws: seq<Raw>, code: Code, i: nat, n: nat, j: nat) {
    && i + 1 + j < |raws| && i < |code| && Offset(code, i) + 5 + 4 * j + 4 <= |b|
    && var pos := Offset(code, i) + 5 + 4 * j;
       raws[i + 1 + j] == Raw(-1, Instr(SWITCH_ARG, Label(Offset(code, i) + 5 + 4 * n + LoadSigned(b[pos..pos + 4]))))
  }

  lemma EntryIntro(b: seq<byte>, raws: seq<Raw>, code: Code, i: nat, n: nat, j: nat)
    requires i + 1 + j < |raws| == |code| && Offset(code, i) + 5 + 4 * j + 4 <= |b|
    requires var pos := Offset(code, i) + 5 + 4 * j;
       raws[i + 1 + j] == Raw(-1, Instr(SWITCH_ARG, Label(Offset(code, i) + 5 + 4 * n + LoadSigned(b[pos..pos + 4]))))
    ensures EntryIs(b, raws, code, i, n, j)
  {
  }

  lemma EntryOp(b: seq<byte>, raws: seq<Raw>, code: Code, i: nat, n: nat, j: nat)
    requires EntryIs(b, raws, code, i, n, j)
    ensures i + 1 + j < |raws| && raws[i + 1 + j].instr.op == SWITCH_ARG
  {
  }

  lemma SwitchShape(code: Code, i: nat, n: nat)
    requires i + 1 + n <= |code| && code[i].op == SWITCH && code[i].operand == Imm(n)
    requires forall j :: i < j <= i + n ==> code[j].op == SWITCH_ARG
    ensures Offset(code, i + 1 + n) == Offset(code, i) + 5 + 4 * n
  {
    SwitchOffsets(code, i, n, n);
  }

  /** From position `i` on: the table discipline, the offsets, and the shape of every element. */
  predicate WalkedFrom(b: seq<byte>, raws: seq<Raw>, code: Code, i: nat) {
    && i <= |code| == |raws| && TablesOk(code, i) && CodeSize(code) == |b|
    && forall j {:trigger raws[j]} :: i <= j < |raws| ==> ReadAs(raws[j], Offset(code, j))
  }

  lemma WalkEnd(b: seq<byte>, raws: seq<Raw>, code: Code, i: nat)
    requires Agree(raws, code) && From(b, raws, code, i) && Offset(code, i) == |b|
    ensures WalkedFrom(b, raws, code, i) && i == |code|
  {
    assert raws[i..] == [];
    assert i == |code|;
  }

  lemma WalkPlain(b: seq<byte>, raws: seq<Raw>, code: Code, i: nat)
    requires i < |code| && WalkedFrom(b, raws, code, i + 1) && ReadAs(raws[i], Offset(code, i))
    requires code[i].op != SWITCH && code[i].op != SWITCH_ARG
    ensures WalkedFrom(b, raws, code, i)
  {
    hide ReadAs;
    hide Offset;
  }

  lemma WalkSwitch(b: seq<byte>, raws: seq<Raw>, code: Code, i: nat, n: nat)
    requires i + 1 + n <= |code| && WalkedFrom(b, raws, code, i + 1 + n)
    requires raws[i] == Raw(Offset(code, i), Instr(SWITCH, Imm(n))) && code[i] == Instr(SWITCH, Imm(n))
    requires forall j :: 0 <= j < n ==> EntryIs(b, raws, code, i, n, j)
    requires forall j :: i < j <= i + n ==> code[j].op == SWITCH_ARG
    ensures WalkedFrom(b, raws, code, i)
  {
    hide Offset;
    forall j | i <= j < i + 1 + n
      ensures ReadAs(raws[j], Offset(code, j))
    {
      if i < j {
        assert EntryIs(b, raws, code, i, n, j - i - 1);
      }
    }
    hide ReadAs;
    hide EntryIs;
  }

  lemma {:induction false} Walk(b: seq<byte>, raws: seq<Raw>, code: Code, i: nat)
    requires Agree(raws, code) && From(b, raws, code, i) && i <= |code|
    ensures WalkedFrom(b, raws, code, i)
    decreases |code| - i
  {
    hide *;
    FromParts(b, raws, code, i);
    var off := Offset(code, i);
    if off == |b| {
      WalkEnd(b, raws, code, i);
    } else {
      ReadCases(b, off);
      var o := ReadOpcode(b, off).value;
      if o.op == SWITCH {
        var n := LoadUnsigned(b[o.next..o.next + 4]);
        SwitchStep(b, raws, code, i, o, n);
        Walk(b, raws, code, i + 1 + n);
        WalkSwitch(b, raws, code, i, n);
      } else {
        PlainStep(b, raws, code, i, o);
        Walk(b, raws, code, i + 1);
        WalkPlain(b, raws, code, i);
      }
    }
  }

  // ---------- The imported list is well formed ----------

  /** The list that ImportIL builds, its targets as positions. */
  function Import(b: seq<byte>): (r: Option<Code>) {
    match Decode(b)
    case Err => None
    case Ok(d) => if Resolvable(d) then Some(AsCode(d)) else None
  }

  /** Each label of the list lies at the byte offset that was read. */
  predicate Aimed(raws: seq<Raw>, code: Code) {
    && |raws| == |code|
    && forall i {:trigger code[i]} :: 0 <= i < |code| && raws[i].instr.operand.Label? ==>
         && code[i].operand.Label? && code[i].operand.dest <= |code|
         && Offset(code, code[i].operand.dest) == raws[i].instr.operand.dest
         && (code[i].operand.dest < |code| ==> code[code[i].operand.dest].op != SWITCH_ARG)
  }

  lemma {:induction false} ImportAgrees(b: seq<byte>)
    requires Import(b).Some?
    ensures ReadFrom(b, 0).Ok? && Agree(ReadFrom(b, 0).value, Import(b).value)
    ensures From(b, ReadFrom(b, 0).value, Import(b).value, 0)
  {
    var raws := ReadFrom(b, 0).value;
    assert raws[0..] == raws;
  }

  lemma {:induction false} ImportAimed(b: seq<byte>)
    requires Import(b).Some? && ReadFrom(b, 0).Ok?
    requires WalkedFrom(b, ReadFrom(b, 0).value, Import(b).value, 0) && Agree(ReadFrom(b, 0).value, Import(b).value)
    ensures Aimed(ReadFrom(b, 0).value, Import(b).value)
  {
    hide TablesOk;
    hide ReadFrom;
    hide RawOk;
    var raws, code := ReadFrom(b, 0).value, Import(b).value;
    forall i {:trigger code[i]} | 0 <= i < |code| && raws[i].instr.operand.Label?
      ensures code[i].operand.Label? && code[i].operand.dest <= |code|
      ensures Offset(code, code[i].operand.dest) == raws[i].instr.operand.dest
      ensures code[i].operand.dest < |code| ==> code[code[i].operand.dest].op != SWITCH_ARG
    {
      AimedAt(b, raws, code, i);
    }
  }

  lemma {:induction false} AimedAt(b: seq<byte>, raws: seq<Raw>, code: Code, i: nat)
    requires Decode(b).Ok? && ReadFrom(b, 0) == Ok(raws) && Resolvable(Decode(b).value) && code == AsCode(Decode(b).value)
    requires WalkedFrom(b, raws, code, 0) && Agree(raws, code)
    requires i < |code| && raws[i].instr.operand.Label?
    ensures code[i].operand.Label? && code[i].operand.dest <= |code|
    ensures Offset(code, code[i].operand.dest) == raws[i].instr.operand.dest
    ensures code[i].operand.dest < |code| ==> code[code[i].operand.dest].op != SWITCH_ARG
  {
    hide TablesOk;
    hide ReadFrom;
    hide RawOk;
    hide Offset;
    var off := raws[i].instr.operand.dest;
    assert Decode(b).value[i] == Resolve(raws, |b|, raws[i].instr);
    var t := InstrAt(raws, |b|, off);
    assert code[i].operand == Label(t.value);
    if off != |b| {
      assert raws[t.value].start == off && off >= 0;
      assert ReadAs(raws[t.value], Offset(code, t.value));
      AgreeAt(raws, code, t.value);
    }
  }

  lemma {:induction false} ImportWellFormedFrom(b: seq<byte>, raws: seq<Raw>, code: Code)
    requires Agree(raws, code) && WalkedFrom(b, raws, code, 0) && Aimed(raws, code)
    ensures WellFormed(code)
  {
    hide TablesOk;
    hide Offset;
    forall i | 0 <= i < |code|
      ensures OperandOk(code[i]) && (Importable(code[i].op) || code[i].op == SWITCH_ARG)
      ensures HasLabel(code[i].op) ==>
                && code[i].operand.Label? && code[i].operand.dest <= |code|
                && (code[i].operand.dest == |code| || code[code[i].operand.dest].op != SWITCH_ARG)
    {
      AgreeAt(raws, code, i);
      assert ReadAs(raws[i], Offset(code, i));
    }
  }

  /** Whatever bytes are imported, if all targets resolve the list is well formed. */
  lemma {:induction false} ImportWellFormed(b: seq<byte>)
    requires Import(b).Some?
    ensures WellFormed(Import(b).value) && CodeSize(Import(b).value) == |b|
  {
    hide *;
    ImportAgrees(b);
    var raws, code := ReadFrom(b, 0).value, Import(b).value;
    Walk(b, raws, code, 0);
    ImportAimed(b);
    ImportWellFormedFrom(b, raws, code);
    WalkedSize(b, raws, code);
  }

  lemma WalkedSize(b: seq<byte>, raws: seq<Raw>, code: Code)
    requires WalkedFrom(b, raws, code, 0)
    ensures CodeSize(code) == |b|
  {
  }

  // ---------- Exporting an unchanged list ----------

  predicate EncodedHere(b: seq<byte>, code: Code, i: nat)
    requires Closed(code) && i < |code|
  {
    Offset(code, i + 1) <= |b| && Offset(code, i) <= Offset(code, i + 1) && b[Offset(code, i)..Offset(code, i + 1)] == EncodeAt(code, i)
  }

  lemma {:induction false} OperandKept(b: seq<byte>, raws: seq<Raw>, code: Code, i: nat, pos: nat)
    requires Closed(code) && i < |code| == |raws| && code[i].op != SWITCH && code[i].op != SWITCH_ARG
    requires pos + OperandWidth(code[i].op) == Offset(code, i + 1) <= |b|
    requires raws[i].instr.operand == ReadOperand(b, code[i].op, pos)
    requires Agree(raws, code) && Aimed(raws, code)
    ensures OperandBytes(code, i) == b[pos..pos + OperandWidth(code[i].op)]
    ensures !TooFar(code, i)
  {
    var op := code[i].op;
    AgreeAt(raws, code, i);
    var part := b[pos..pos + OperandWidth(op)];
    StoreLoadSigned(part);
    Widths();
    hide Offset;
    hide Store;
    hide LoadSigned;
    hide IsInline4;
    match KindOf(op)
    case Inline(w) => assert OperandBytes(code, i) == Store(w, LoadSigned(part));
    case ShortBranch => assert Delta(code, i) == LoadSigned(part);
    case LongBranch => assert Delta(code, i) == LoadSigned(part);
    case _ =>
  }

  lemma Joined(b: seq<byte>, code: Code, i: nat, mid: nat)
    requires Closed(code) && i < |code| && Offset(code, i) <= mid <= Offset(code, i + 1) <= |b|
    requires b[Offset(code, i)..mid] == OpcodeBytes(code[i].op) && b[mid..Offset(code, i + 1)] == OperandBytes(code, i)
    ensures EncodedHere(b, code, i)
  {
    hide Offset;
    hide OpcodeBytes;
    hide OperandBytes;
    assert b[Offset(code, i)..Offset(code, i + 1)] == b[Offset(code, i)..mid] + b[mid..Offset(code, i + 1)];
  }

  lemma {:induction false} PlainKept(b: seq<byte>, raws: seq<Raw>, code: Code, i: nat, o: Opcode)
    requires Closed(code) && Agree(raws, code) && Aimed(raws, code) && From(b, raws, code, i) && Offset(code, i) < |b|
    requires ReadOpcode(b, Offset(code, i)) == Ok(o) && o.op != SWITCH && i < |code|
    ensures EncodedHere(b, code, i) && !TooFar(code, i)
  {
    hide *;
    AgreeAt(raws, code, i);
    PlainStep(b, raws, code, i, o);
    OpcodeSpan(b, Offset(code, i), o);
    OperandKept(b, raws, code, i, o.next);
    Joined(b, code, i, o.next);
  }

  lemma SwitchBytes(code: Code, i: nat, n: nat)
    requires Closed(code) && i < |code| && code[i] == Instr(SWITCH, Imm(n))
    ensures OperandBytes(code, i) == Store(4, n) && |OpcodeBytes(SWITCH)| == 1 && !TooFar(code, i)
    ensures Offset(code, i + 1) == Offset(code, i) + 5
  {
  }

  lemma {:induction false} SwitchKept(b: seq<byte>, code: Code, i: nat, n: nat, o: Opcode)
    requires Closed(code) && i < |code| && code[i] == Instr(SWITCH, Imm(n)) && Offset(code, i) < |b|
    requires ReadOpcode(b, Offset(code, i)) == Ok(o) && o.op == SWITCH && o.next + 4 <= |b|
    requires n == LoadUnsigned(b[o.next..o.next + 4])
    ensures EncodedHere(b, code, i) && !TooFar(code, i)
  {
    hide *;
    SwitchBytes(code, i, n);
    OpcodeSpan(b, Offset(code, i), o);
    StoreLoadUnsigned(b[o.next..o.next + 4]);
    Joined(b, code, i, o.next);
  }

  lemma {:induction false} EntryKept(b: seq<byte>, raws: seq<Raw>, code: Code, i: nat, n: nat, j: nat)
    requires Closed(code) && Agree(raws, code) && Aimed(raws, code)
    requires i + 1 + n <= |code| && code[i].op == SWITCH && code[i].operand == Imm(n) && j < n
    requires forall k :: i < k <= i + n ==> code[k].op == SWITCH_ARG
    requires EntryIs(b, raws, code, i, n, j)
    ensures EncodedHere(b, code, i + 1 + j) && !TooFar(code, i + 1 + j)
  {
    hide *;
    var k := i + 1 + j;
    SwitchOffsets(code, i, n, j);
    SwitchOffsets(code, i, n, j + 1);
    var pos := Offset(code, k);
    EntryBytes(b, raws, code, i, n, j);
    StoreLoadSigned(b[pos..pos + 4]);
    Joined(b, code, k, pos);
  }

  lemma EntryBytes(b: seq<byte>, raws: seq<Raw>, code: Code, i: nat, n: nat, j: nat)
    requires Closed(code) && Agree(raws, code) && Aimed(raws, code) && EntryIs(b, raws, code, i, n, j)
    requires i + 1 + j < |code| && SwitchBase(code, i + 1 + j) == Offset(code, i) + 5 + 4 * n
    requires Offset(code, i + 1 + j) == Offset(code, i) + 5 + 4 * j
    ensures var k := i + 1 + j; var pos := Offset(code, k);
            && pos + 4 <= |b| && OperandBytes(code, k) == Store(4, LoadSigned(b[pos..pos + 4]))
            && b[pos..pos] == OpcodeBytes(code[k].op) && !TooFar(code, k)
  {
    hide Offset;
    hide SwitchBase;
    hide Store;
    hide LoadSigned;
    hide IsInline4;
    AgreeAt(raws, code, i + 1 + j);
  }

  lemma {:induction false} KeptFrom(b: seq<byte>, raws: seq<Raw>, code: Code, i: nat, k: nat)
    requires Closed(code) && Agree(raws, code) && Aimed(raws, code) && From(b, raws, code, i) && i <= k < |code|
    requires CodeSize(code) == |b|
    ensures EncodedHere(b, code, k) && !TooFar(code, k)
    decreases |code| - i
  {
    hide *;
    FromParts(b, raws, code, i);
    var off := Offset(code, i);
    BeforeEnd(code, i);
    ReadCases(b, off);
    var o := ReadOpcode(b, off).value;
    if o.op == SWITCH {
      var n := LoadUnsigned(b[o.next..o.next + 4]);
      SwitchStep(b, raws, code, i, o, n);
      if k == i {
        SwitchKept(b, code, i, n, o);
      } else if k <= i + n {
        SwitchParts(code[i], n);
        EntryKept(b, raws, code, i, n, k - i - 1);
      } else {
        KeptFrom(b, raws, code, i + 1 + n, k);
      }
    } else {
      if k == i {
        PlainKept(b, raws, code, i, o);
      } else {
        PlainStep(b, raws, code, i, o);
        KeptFrom(b, raws, code, i + 1, k);
      }
    }
  }

  lemma SwitchParts(x: Instr<nat>, n: nat)
    requires x == Instr(SWITCH, Imm(n))
    ensures x.op == SWITCH && x.operand == Imm(n)
  {
  }

  lemma BeforeEnd(code: Code, i: nat)
    requires i < |code|
    ensures Offset(code, i) < CodeSize(code)
  {
    OffsetSpan(code, i, |code|);
  }

  lemma {:induction false} EncodesPrefix(b: seq<byte>, code: Code, i: nat)
    requires Closed(code) && i <= |code| && CodeSize(code) == |b|
    requires forall k :: 0 <= k < |code| ==> EncodedHere(b, code, k)
    ensures Offset(code, i) <= |b| && b[..Offset(code, i)] == EncodePrefix(code, i)
  {
    hide EncodeAt;
    hide Size;
    OffsetSpan(code, i, |code|);
    if i > 0 {
      EncodesPrefix(b, code, i - 1);
      assert EncodedHere(b, code, i - 1);
      assert b[..Offset(code, i)] == b[..Offset(code, i - 1)] + b[Offset(code, i - 1)..Offset(code, i)];
    }
  }

  /**
   Exporting an imported list unchanged: no branch needs widening, and the bytes are the ones
   imported. With ImportAfterExport, importing and exporting are inverse to each other.
   */
  lemma {:induction false} ExportAfterImport(b: seq<byte>)
    requires Import(b).Some?
    ensures var code := Import(b).value; Closed(code) && Settled(code) && Settle(code) == code && Encode(code) == b
  {
    ImportWellFormed(b);
    ImportAgrees(b);
    var raws, code := ReadFrom(b, 0).value, Import(b).value;
    assert Closed(code);
    hide *;
    Walk(b, raws, code, 0);
    ImportAimed(b);
    forall k | 0 <= k < |code|
      ensures EncodedHere(b, code, k) && !TooFar(code, k)
    {
      KeptFrom(b, raws, code, 0, k);
    }
    EncodesPrefix(b, code, |code|);
    Whole(b, code);
  }

  lemma Whole(b: seq<byte>, code: Code)
    requires Closed(code) && CodeSize(code) == |b| && Offset(code, |code|) <= |b| && b[..Offset(code, |code|)] == EncodePrefix(code, |code|)
    requires forall k :: 0 <= k < |code| ==> !TooFar(code, k)
    ensures Settled(code) && Settle(code) == code && Encode(code) == b
  {
  }
}
