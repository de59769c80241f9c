/**
 The byte form of a method body: what ILRewriter::Export writes for a laid-out list
 (il_rewriter.cpp:389-504) and what ILRewriter::ImportIL reads back (il_rewriter.cpp:179-303).
 */
module Codec {
  import opened Bytes
  import opened Opcodes
  import opened Layout

  // ---------- Export ----------

  function OpcodeBytes(op: nat): (b: seq<byte>)
    ensures |b| == if op == SWITCH_ARG then 0 else if op >= 0x100 then 2 else 1
  {
    if op == SWITCH_ARG then [] else if op >= 0x100 then [PREFIX1, op % 256] else [op]
  }

  /** The immediate operand, or 0 where the operand is a label. */
  function Immediate<L>(x: Instr<L>): int {
    if x.operand.Imm? then x.operand.value else 0
  }

  /** The base of the switch table that `i` belongs to, kept while walking the list (il_rewriter.cpp:458-468). */
  function SwitchBase(code: Code, i: nat): int
    requires i <= |code|
  {
    if i == 0 then 0
    else if code[i - 1].op == SWITCH then Offset(code, i - 1) + 1 + 4 * (Immediate(code[i - 1]) + 1)
    else SwitchBase(code, i - 1)
  }

  function OperandBytes(code: Code, i: nat): (b: seq<byte>)
    requires Closed(code) && i < |code|
    ensures |OpcodeBytes(code[i].op)| + |b| == Size(code[i].op)
  {
    match KindOf(code[i].op)
    case Plain => []
    case Inline(w) => Store(w, Immediate(code[i]))
    case ShortBranch => Store(1, Delta(code, i))
    case LongBranch => Store(4, Delta(code, i))
    case Switch => Store(4, Immediate(code[i]))
    case SwitchEntry => Store(4, Offset(code, code[i].operand.dest) - SwitchBase(code, i))
  }

  function EncodeAt(code: Code, i: nat): (b: seq<byte>)
    requires Closed(code) && i < |code|
    ensures |b| == Size(code[i].op)
  {
    OpcodeBytes(code[i].op) + OperandBytes(code, i)
  }

  /** The bytes of the first `i` instructions. */
  function EncodePrefix(code: Code, i: nat): (b: seq<byte>)
    requires Closed(code) && i <= |code|
    ensures |b| == Offset(code, i)
  {
    if i == 0 then [] else EncodePrefix(code, i - 1) + EncodeAt(code, i - 1)
  }

  function Encode(code: Code): (b: seq<byte>)
    requires Closed(code)
    ensures |b| == CodeSize(code)
  {
    EncodePrefix(code, |code|)
  }

  // ---------- Import ----------

  /** An instruction as first read: its start offset (-1 for a switch entry), targets as byte offsets. */
  datatype Raw = Raw(start: int, instr: Instr<int>)

  datatype Opcode = Opcode(op: nat, next: nat)

  function ReadOpcode(b: seq<byte>, off: nat): (r: Result<Opcode>)
    requires off < |b|
    ensures r.Ok? ==> off < r.value.next <= off + 2 && r.value.next <= |b| && Importable(r.value.op)
    ensures r.Ok? ==> OpcodeBytes(r.value.op) == b[off..r.value.next]
  {
    var first: nat := b[off];
    if first == PREFIX1 && off + 1 >= |b| then Err
    else
      var o := if first == PREFIX1 then Opcode(0x100 + b[off + 1] as int, off + 2) else Opcode(first, off + 1);
      if PREFIX7 <= o.op <= PREFIX2 || o.op >= COUNT then Err else Ok(o)
  }

  function ReadEntries(b: seq<byte>, pos: nat, n: nat, base: int): (r: Result<seq<Raw>>)
    requires pos <= |b|
    ensures r.Ok? ==> |r.value| == n && pos + 4 * n <= |b|
    decreases n
  {
    if n == 0 then Ok([])
    else if pos + 4 > |b| then Err
    else
      match ReadEntries(b, pos + 4, n - 1, base)
      case Err => Err
      case Ok(rest) => Ok([Raw(-1, Instr(SWITCH_ARG, Label(base + LoadSigned(b[pos..pos + 4]))))] + rest)
  }

  function OperandWidth(op: nat): nat {
    match KindOf(op)
    case Inline(w) => w
    case ShortBranch => 1
    case LongBranch => 4
    case _ => 0
  }

  /** The operand of a non-switch instruction whose operand bytes start at `pos`. */
  function ReadOperand(b: seq<byte>, op: nat, pos: nat): (o: Operand<int>)
    requires pos + OperandWidth(op) <= |b|
  {
    match KindOf(op)
    case Inline(w) => Imm(LoadSigned(b[pos..pos + w]))
    case ShortBranch => Label(pos + 1 + LoadSigned(b[pos..pos + 1]))
    case LongBranch => Label(pos + 4 + LoadSigned(b[pos..pos + 4]))
    case _ => Imm(0)
  }

  function ReadFrom(b: seq<byte>, off: nat): (r: Result<seq<Raw>>)
    requires off <= |b|
    decreases |b| - off
  {
    if off == |b| then Ok([])
    else
      match ReadOpcode(b, off)
      case Err => Err
      case Ok(o) =>
        if o.op == SWITCH then
          if o.next + 4 > |b| then Err
          else
            var n := LoadUnsigned(b[o.next..o.next + 4]);
            match ReadEntries(b, o.next + 4, n, o.next + 4 + 4 * n)
            case Err => Err
            case Ok(entries) =>
              match ReadFrom(b, o.next + 4 + 4 * n)
              case Err => Err
              case Ok(rest) => Ok([Raw(off, Instr(SWITCH, Imm(n)))] + entries + rest)
        else if o.next + OperandWidth(o.op) > |b| then Err
        else
          match ReadFrom(b, o.next + OperandWidth(o.op))
          case Err => Err
          case Ok(rest) => Ok([Raw(off, Instr(o.op, ReadOperand(b, o.op, o.next)))] + rest)
  }

  /** The position of the instruction that starts at byte `off`, if there is one. */
  function Find(raws: seq<Raw>, off: int): (r: Option<nat>)
    ensures r.Some? ==> r.value < |raws| && raws[r.value].start == off
  {
    if raws == [] then None
    else if raws[0].start == off then Some(0)
    else
      match Find(raws[1..], off)
      case None => None
      case Some(k) => Some(k + 1)
  }

  /** GetInstrFromOffset: the end of the body is the sentinel; other offsets may hit no instruction. */
  function InstrAt(raws: seq<Raw>, size: nat, off: int): (r: Option<nat>)
    ensures r.Some? ==> r.value <= |raws|
  {
    if off == size then Some(|raws|) else if off < 0 then None else Find(raws, off)
  }

  function Resolve(raws: seq<Raw>, size: nat, x: Instr<int>): Instr<Option<nat>> {
    match x.operand
    case Imm(v) => Instr(x.op, Imm(v))
    case Label(off) => Instr(x.op, Label(InstrAt(raws, size, off)))
  }

  /** The imported list; a target that hits no instruction stays null. */
  function Decode(b: seq<byte>): (r: Result<seq<Instr<Option<nat>>>>) {
    match ReadFrom(b, 0)
    case Err => Err
    case Ok(raws) => Ok(seq(|raws|, i requires 0 <= i < |raws| => Resolve(raws, |b|, raws[i].instr)))
  }

  // ---------- Well-formed lists ----------

  predicate OperandOk(x: Instr<nat>) {
    match KindOf(x.op)
    case Plain => true
    case Inline(w) => x.operand.Imm? && Fits(w, x.operand.value)
    case Switch => x.operand.Imm? && 0 <= x.operand.value
    case _ => x.operand.Label?
  }

  /** From `i` on, every switch is followed by exactly its count of entries, and no entry stands alone. */
  predicate TablesOk(code: Code, i: nat)
    requires i <= |code|
    decreases |code| - i
  {
    i == |code| ||
    if code[i].op == SWITCH then
      && code[i].operand.Imm?
      && var n := code[i].operand.value;
      && 0 <= n && i + 1 + n <= |code|
      && (forall j :: i < j <= i + n ==> code[j].op == SWITCH_ARG)
      && TablesOk(code, i + 1 + n)
    else
      code[i].op != SWITCH_ARG && TablesOk(code, i + 1)
  }

  predicate WellFormed(code: Code) {
    && Closed(code)
    && (forall i :: 0 <= i < |code| ==>
          OperandOk(code[i]) && (Importable(code[i].op) || code[i].op == SWITCH_ARG))
    && TablesOk(code, 0)
    && (forall i :: 0 <= i < |code| && HasLabel(code[i].op) ==>
          var t := code[i].operand.dest; t == |code| || code[t].op != SWITCH_ARG)
  }

  /** Operands that the encoding has no room for are lost; they read back as 0. */
  function Canonical(x: Instr<nat>): Instr<Option<nat>> {
    match x.operand
    case Label(t) => if HasLabel(x.op) then Instr(x.op, Label(Some(t))) else Instr(x.op, Imm(0))
    case Imm(v) => if KindOf(x.op).Plain? then Instr(x.op, Imm(0)) else Instr(x.op, Imm(v))
  }

  function Imported(code: Code): (r: seq<Instr<Option<nat>>>)
    ensures |r| == |code|
  {
    seq(|code|, i requires 0 <= i < |code| => Canonical(code[i]))
  }

  // ---------- Slices of the encoding ----------

  lemma {:induction false} PrefixExtends(code: Code, i: nat, n: nat)
    requires Closed(code) && i <= n <= |code|
    ensures EncodePrefix(code, i) <= EncodePrefix(code, n)
  {
    hide EncodeAt;
    hide Closed;
    hide Offset;
    if i < n {
      PrefixExtends(code, i, n - 1);
    }
  }

  lemma PrefixNext(code: Code, i: nat)
    requires Closed(code) && i < |code|
    ensures EncodePrefix(code, i + 1) == EncodePrefix(code, i) + EncodeAt(code, i)
    ensures Offset(code, i + 1) == Offset(code, i) + |EncodeAt(code, i)|
    ensures |EncodePrefix(code, i)| == Offset(code, i) && |EncodePrefix(code, i + 1)| == Offset(code, i + 1)
  {
  }

  lemma {:induction false} PrefixSlice(code: Code, i: nat, n: nat)
    requires Closed(code) && i < n <= |code|
    ensures Offset(code, i + 1) <= Offset(code, n)
    ensures EncodePrefix(code, n)[Offset(code, i)..Offset(code, i + 1)] == EncodeAt(code, i)
  {
    hide *;
    PrefixExtends(code, i + 1, n);
    PrefixNext(code, i);
    PrefixNext(code, n - 1);
    SliceSplit(EncodePrefix(code, n), 0, Offset(code, i + 1), EncodePrefix(code, i), EncodeAt(code, i));
  }

  /** Where the opcode and operand of instruction `i` lie in the encoding. */
  lemma {:induction false} EncodedSlices(code: Code, i: nat)
    requires Closed(code) && i < |code|
    ensures Offset(code, i) + Size(code[i].op) == Offset(code, i + 1) <= CodeSize(code)
    ensures var b := Encode(code); var mid := Offset(code, i) + |OpcodeBytes(code[i].op)|;
            && mid <= Offset(code, i + 1)
            && b[Offset(code, i)..mid] == OpcodeBytes(code[i].op)
            && b[mid..Offset(code, i + 1)] == OperandBytes(code, i)
  {
    PrefixSlice(code, i, |code|);
    hide *;
    SliceSplit(Encode(code), Offset(code, i), Offset(code, i + 1), OpcodeBytes(code[i].op), OperandBytes(code, i));
  }

  // ---------- Import after export ----------

  function RawAt(code: Code, i: nat): Raw
    requires Closed(code) && i < |code|
  {
    Raw(if code[i].op == SWITCH_ARG then -1 else Offset(code, i),
        match Canonical(code[i]).operand
        case Imm(v) => Instr(code[i].op, Imm(v))
        case Label(_) => Instr(code[i].op, Label(Offset(code, code[i].operand.dest))))
  }

  function Raws(code: Code, i: nat): (r: seq<Raw>)
    requires Closed(code) && i <= |code|
    ensures |r| == |code| - i
    ensures forall j :: 0 <= j < |r| ==> r[j] == RawAt(code, i + j)
  {
    seq(|code| - i, j requires 0 <= j < |code| - i => RawAt(code, i + j))
  }

  lemma {:induction false} DeltaFits(code: Code, i: nat)
    requires Closed(code) && Settled(code) && CodeSize(code) < 0x8000_0000
    requires i < |code| && HasLabel(code[i].op)
    ensures -0x8000_0000 <= Delta(code, i) < 0x8000_0000
    ensures KindOf(code[i].op).ShortBranch? ==> Fits(1, Delta(code, i))
    ensures Fits(4, Delta(code, i))
  {
    Widths();
    OffsetSpan(code, i + 1, |code|);
    OffsetSpan(code, code[i].operand.dest, |code|);
    assert !TooFar(code, i);
  }

  lemma {:induction false} OpcodeReadsBack(b: seq<byte>, lo: nat, op: nat)
    requires Importable(op) && lo + |OpcodeBytes(op)| <= |b|
    requires b[lo..lo + |OpcodeBytes(op)|] == OpcodeBytes(op)
    ensures ReadOpcode(b, lo) == Ok(Opcode(op, lo + |OpcodeBytes(op)|))
  {
    var s := OpcodeBytes(op);
    assert b[lo] == s[0];
    if op >= 0x100 {
      assert b[lo + 1] == s[1];
    }
  }

  lemma {:induction false} OperandReadsBack(code: Code, i: nat, b: seq<byte>, mid: nat)
    requires Closed(code) && Settled(code) && CodeSize(code) < 0x8000_0000
    requires i < |code| && OperandOk(code[i]) && code[i].op != SWITCH && code[i].op != SWITCH_ARG
    requires mid + OperandWidth(code[i].op) == Offset(code, i + 1) <= |b|
    requires b[mid..mid + OperandWidth(code[i].op)] == OperandBytes(code, i)
    ensures Raw(Offset(code, i), Instr(code[i].op, ReadOperand(b, code[i].op, mid))) == RawAt(code, i)
  {
    hide Size;
    hide IsInline4;
    var op := code[i].op;
    if HasLabel(op) {
      DeltaFits(code, i);
      LoadStoreSigned(OperandWidth(op), Delta(code, i));
    } else if KindOf(op).Inline? {
      LoadStoreSigned(KindOf(op).width, code[i].operand.value);
    }
  }

  /** A non-switch instruction reads back with its own operand. */
  lemma {:induction false} ReadsBack(code: Code, i: nat)
    requires WellFormed(code) && Settled(code) && CodeSize(code) < 0x8000_0000
    requires i < |code| && code[i].op != SWITCH && code[i].op != SWITCH_ARG
    ensures Offset(code, i) < CodeSize(code)
    ensures var b := Encode(code); var mid := Offset(code, i) + |OpcodeBytes(code[i].op)|;
            && ReadOpcode(b, Offset(code, i)) == Ok(Opcode(code[i].op, mid))
            && mid + OperandWidth(code[i].op) == Offset(code, i + 1) <= |b|
            && Raw(Offset(code, i), Instr(code[i].op, ReadOperand(b, code[i].op, mid))) == RawAt(code, i)
  {
    EncodedSlices(code, i);
    var b, lo, op := Encode(code), Offset(code, i), code[i].op;
    var mid := lo + |OpcodeBytes(op)|;
    assert OperandOk(code[i]) && Importable(op);
    assert |OperandBytes(code, i)| == OperandWidth(op);
    hide *;
    OpcodeReadsBack(b, lo, op);
    OperandReadsBack(code, i, b, mid);
  }

  lemma {:induction false} SwitchOffsets(code: Code, i: nat, n: nat, k: nat)
    requires i < |code| && code[i].op == SWITCH && code[i].operand == Imm(n)
    requires k <= n && i + 1 + n <= |code|
    requires forall j :: i < j <= i + n ==> code[j].op == SWITCH_ARG
    ensures Offset(code, i + 1 + k) == Offset(code, i) + 5 + 4 * k
    ensures SwitchBase(code, i + 1 + k) == Offset(code, i) + 5 + 4 * n
  {
    if k > 0 {
      SwitchOffsets(code, i, n, k - 1);
    }
  }

  /** The table base is the offset just after the last entry (il_rewriter.cpp:458-467). */
  lemma {:induction false} SwitchBaseIsTableEnd(code: Code, i: nat, k: nat)
    requires i < |code| && code[i].op == SWITCH && code[i].operand.Imm?
    requires 0 <= code[i].operand.value && i + 1 + code[i].operand.value <= |code|
    requires k <= code[i].operand.value
    requires forall j :: i < j <= i + code[i].operand.value ==> code[j].op == SWITCH_ARG
    ensures SwitchBase(code, i + 1 + k) == Offset(code, i + 1 + code[i].operand.value)
  {
    SwitchOffsets(code, i, code[i].operand.value, k);
    SwitchOffsets(code, i, code[i].operand.value, code[i].operand.value);
  }

  lemma {:induction false} EntriesReadBack(code: Code, i: nat, n: nat, k: nat)
    requires WellFormed(code) && Settled(code) && CodeSize(code) < 0x8000_0000
    requires i < |code| && code[i].op == SWITCH && code[i].operand == Imm(n)
    requires k <= n && i + 1 + n <= |code|
    requires forall j :: i < j <= i + n ==> code[j].op == SWITCH_ARG
    ensures var pos := Offset(code, i) + 5 + 4 * k;
            && pos <= CodeSize(code)
            && ReadEntries(Encode(code), pos, n - k, Offset(code, i) + 5 + 4 * n)
               == Ok(Raws(code, i + 1 + k)[..n - k])
    decreases n - k
  {
    hide Size;
    hide KindOf;
    hide SwitchBase;
    hide Offset;
    hide EncodePrefix;
    hide LoadSigned;
    hide Store;
    hide TablesOk;
    hide Settled;
    hide Pow256;
    SwitchOffsets(code, i, n, k);
    OffsetSpan(code, i + 1 + k, |code|);
    if k < n {
      var j := i + 1 + k;
      var pos, base, b := Offset(code, j), Offset(code, i) + 5 + 4 * n, Encode(code);
      EncodedSlices(code, j);
      EntriesReadBack(code, i, n, k + 1);
      SwitchOffsets(code, i, n, n);
      OffsetSpan(code, code[j].operand.dest, |code|);
      OffsetSpan(code, i + 1 + n, |code|);
      Widths();
      var d := Offset(code, code[j].operand.dest) - base;
      assert b[pos..pos + 4] == Store(4, d);
      LoadStoreSigned(4, d);
      assert Raw(-1, Instr(SWITCH_ARG, Label(base + d))) == RawAt(code, j);
      assert [RawAt(code, j)] + Raws(code, j + 1)[..n - k - 1] == Raws(code, j)[..n - k];
    }
  }

  lemma {:induction false} SwitchReadsBack(code: Code, i: nat)
    requires WellFormed(code) && Settled(code) && CodeSize(code) < 0x8000_0000
    requires i < |code| && code[i].op == SWITCH && TablesOk(code, i)
    ensures Offset(code, i) < CodeSize(code)
    ensures var b := Encode(code); var lo := Offset(code, i); var n := code[i].operand.value;
            && ReadOpcode(b, lo) == Ok(Opcode(SWITCH, lo + 1))
            && lo + 5 <= |b|
            && LoadUnsigned(b[lo + 1..lo + 5]) == n
            && lo + 5 + 4 * n == Offset(code, i + 1 + n) <= |b|
            && ReadEntries(b, lo + 5, n, lo + 5 + 4 * n) == Ok(Raws(code, i + 1)[..n])
            && Raw(lo, Instr(SWITCH, Imm(n))) == RawAt(code, i)
  {
    hide Size;
    hide KindOf;
    hide Offset;
    hide EncodePrefix;
    hide Store;
    hide SwitchBase;
    hide Settled;
    hide Pow256;
    hide ReadEntries;
    hide Importable;
    var n := code[i].operand.value;
    EncodedSlices(code, i);
    var b, lo := Encode(code), Offset(code, i);
    assert b[lo] == b[lo..lo + 1][0];
    SwitchOffsets(code, i, n, n);
    OffsetSpan(code, i + 1 + n, |code|);
    Widths();
    LoadStoreUnsigned(4, n);
    EntriesReadBack(code, i, n, 0);
  }

  lemma ReadPlain(b: seq<byte>, off: nat, o: Opcode, rest: seq<Raw>)
    requires off < |b| && ReadOpcode(b, off) == Ok(o) && o.op != SWITCH
    requires o.next + OperandWidth(o.op) <= |b|
    requires ReadFrom(b, o.next + OperandWidth(o.op)) == Ok(rest)
    ensures ReadFrom(b, off) == Ok([Raw(off, Instr(o.op, ReadOperand(b, o.op, o.next)))] + rest)
  {
    hide KindOf;
    hide ReadOpcode;
    hide ReadOperand;
    hide OperandWidth;
    hide ReadEntries;
  }

  lemma ReadSwitch(b: seq<byte>, off: nat, n: nat, entries: seq<Raw>, rest: seq<Raw>)
    requires off + 5 + 4 * n <= |b| && ReadOpcode(b, off) == Ok(Opcode(SWITCH, off + 1))
    requires LoadUnsigned(b[off + 1..off + 5]) == n
    requires ReadEntries(b, off + 5, n, off + 5 + 4 * n) == Ok(entries)
    requires ReadFrom(b, off + 5 + 4 * n) == Ok(rest)
    ensures ReadFrom(b, off) == Ok([Raw(off, Instr(SWITCH, Imm(n)))] + entries + rest)
  {
    hide KindOf;
    hide ReadEntries;
    hide ReadOpcode;
    hide LoadUnsigned;
  }

  lemma RawsCons(code: Code, i: nat)
    requires Closed(code) && i < |code|
    ensures [RawAt(code, i)] + Raws(code, i + 1) == Raws(code, i)
  {
    hide RawAt;
    hide KindOf;
  }

  lemma RawsSplit(code: Code, i: nat, n: nat)
    requires Closed(code) && i + 1 + n <= |code|
    ensures [RawAt(code, i)] + Raws(code, i + 1)[..n] + Raws(code, i + 1 + n) == Raws(code, i)
  {
    hide RawAt;
    hide KindOf;
    var sum := [RawAt(code, i)] + Raws(code, i + 1)[..n] + Raws(code, i + 1 + n);
    forall j | 0 <= j < |code| - i
      ensures sum[j] == Raws(code, i)[j]
    {
    }
  }

  lemma TablesStep(code: Code, i: nat)
    requires i < |code| && TablesOk(code, i)
    ensures code[i].op != SWITCH_ARG
    ensures code[i].op == SWITCH ==>
              && code[i].operand.Imm? && 0 <= code[i].operand.value && i + 1 + code[i].operand.value <= |code|
              && TablesOk(code, i + 1 + code[i].operand.value)
    ensures code[i].op != SWITCH ==> TablesOk(code, i + 1)
  {
  }

  lemma OffsetInside(code: Code, i: nat)
    requires Closed(code) && i <= |code|
    ensures Offset(code, i) <= |Encode(code)|
  {
    OffsetSpan(code, i, |code|);
  }

  lemma ReadEnd(code: Code)
    requires Closed(code)
    ensures Offset(code, |code|) == |Encode(code)|
    ensures ReadFrom(Encode(code), Offset(code, |code|)) == Ok(Raws(code, |code|))
  {
  }

  lemma {:induction false} ReadsTailSwitch(code: Code, i: nat, n: nat, b: seq<byte>)
    requires WellFormed(code) && Closed(code) && Settled(code) && CodeSize(code) < 0x8000_0000
    requires i < |code| && code[i].op == SWITCH && TablesOk(code, i)
    requires code[i].operand == Imm(n) && i + 1 + n <= |code|
    requires b == Encode(code) && Offset(code, i + 1 + n) <= |b| && Offset(code, i) <= |b|
    requires ReadFrom(b, Offset(code, i + 1 + n)) == Ok(Raws(code, i + 1 + n))
    ensures ReadFrom(b, Offset(code, i)) == Ok(Raws(code, i))
  {
    hide *;
    SwitchReadsBack(code, i);
    ReadSwitch(b, Offset(code, i), n, Raws(code, i + 1)[..n], Raws(code, i + 1 + n));
    RawsSplit(code, i, n);
  }

  lemma {:induction false} ReadsTailPlain(code: Code, i: nat, b: seq<byte>)
    requires WellFormed(code) && Closed(code) && Settled(code) && CodeSize(code) < 0x8000_0000
    requires i < |code| && code[i].op != SWITCH && code[i].op != SWITCH_ARG
    requires b == Encode(code) && Offset(code, i + 1) <= |b| && Offset(code, i) <= |b|
    requires ReadFrom(b, Offset(code, i + 1)) == Ok(Raws(code, i + 1))
    ensures ReadFrom(b, Offset(code, i)) == Ok(Raws(code, i))
  {
    hide *;
    ReadsBack(code, i);
    var lo := Offset(code, i);
    ReadPlain(b, lo, Opcode(code[i].op, lo + |OpcodeBytes(code[i].op)|), Raws(code, i + 1));
    RawsCons(code, i);
  }

  lemma {:induction false} ReadsFrom(code: Code, i: nat)
    requires WellFormed(code) && Closed(code) && Settled(code) && CodeSize(code) < 0x8000_0000
    requires i <= |code| && TablesOk(code, i)
    ensures Offset(code, i) <= |Encode(code)|
    ensures ReadFrom(Encode(code), Offset(code, i)) == Ok(Raws(code, i))
    decreases |code| - i
  {
    hide *;
    OffsetInside(code, i);
    if i == |code| {
      ReadEnd(code);
    } else {
      TablesStep(code, i);
      if code[i].op == SWITCH {
        var n := code[i].operand.value;
        ReadsFrom(code, i + 1 + n);
        ReadsTailSwitch(code, i, n, Encode(code));
      } else {
        ReadsFrom(code, i + 1);
        ReadsTailPlain(code, i, Encode(code));
      }
    }
  }

  lemma {:induction false} FindsOffset(code: Code, t: nat, i: nat)
    requires Closed(code) && i <= t < |code| && code[t].op != SWITCH_ARG
    ensures Find(Raws(code, i), Offset(code, t)) == Some(t - i)
    decreases t - i
  {
    assert Raws(code, i)[1..] == Raws(code, i + 1);
    if i < t {
      OffsetSpan(code, i, t);
      FindsOffset(code, t, i + 1);
    }
  }

  /** Every target offset resolves to the position that was exported (il_rewriter.cpp:346-353). */
  lemma {:induction false} ResolvesOffset(code: Code, t: nat)
    requires Closed(code) && t <= |code|
    requires t == |code| || code[t].op != SWITCH_ARG
    ensures InstrAt(Raws(code, 0), CodeSize(code), Offset(code, t)) == Some(t)
  {
    hide Size;
    hide KindOf;
    hide RawAt;
    hide Find;
    OffsetSpan(code, t, |code|);
    if t < |code| {
      FindsOffset(code, t, 0);
    }
  }

  lemma {:induction false} ResolvesInstr(code: Code, i: nat)
    requires WellFormed(code) && i < |code|
    ensures Resolve(Raws(code, 0), CodeSize(code), RawAt(code, i).instr) == Canonical(code[i])
  {
    hide KindOf;
    hide Size;
    hide InstrAt;
    hide TablesOk;
    if HasLabel(code[i].op) {
      ResolvesOffset(code, code[i].operand.dest);
    }
  }

  /** Importing the exported bytes of a laid-out list gives the list back. */
  lemma {:induction false} ImportAfterExport(code: Code)
    requires WellFormed(code) && Settled(code) && CodeSize(code) < 0x8000_0000
    ensures Decode(Encode(code)) == Ok(Imported(code))
  {
    ReadsFrom(code, 0);
    var raws := Raws(code, 0);
    assert Offset(code, 0) == 0 && Closed(code);
    hide WellFormed;
    hide Resolve;
    hide ReadFrom;
    hide Canonical;
    hide Settled;
    hide EncodePrefix;
    hide RawAt;
    hide Raws;
    forall i | 0 <= i < |code|
      ensures Resolve(raws, CodeSize(code), raws[i].instr) == Canonical(code[i])
    {
      ResolvesInstr(code, i);
    }
    assert Decode(Encode(code)).value == Imported(code);
  }

  lemma {:induction false} TablesWiden(code: Code, wide: Code, i: nat)
    requires Widening(code, wide) && i <= |code| && TablesOk(code, i)
    ensures TablesOk(wide, i)
    decreases |code| - i
  {
    if i < |code| {
      if code[i].op == SWITCH {
        TablesWiden(code, wide, i + 1 + code[i].operand.value);
      } else {
        TablesWiden(code, wide, i + 1);
      }
    }
  }

  /**
   The whole of Export followed by Import, for every well-formed list: the same instructions,
   operands and target positions, with short branches that did not fit in their long forms.
   */
  lemma {:induction false} ExportImportRoundTrip(code: Code)
    requires WellFormed(code) && CodeSize(Settle(code)) < 0x8000_0000
    ensures Widening(code, Settle(code))
    ensures Decode(Encode(Settle(code))) == Ok(Imported(Settle(code)))
  {
    SettleWidens(code);
    TablesWiden(code, Settle(code), 0);
    ImportAfterExport(Settle(code));
  }
}
