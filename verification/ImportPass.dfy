/**
 ILRewriter::ImportIL over the linked list (il_rewriter.cpp:179-303): one pass that reads
 instructions and appends nodes, filling the table from byte offsets to nodes, and one that turns
 the branch offsets held in the nodes into pointers.
 */
module ImportPass {
  import opened Bytes
  import opened Opcodes
  import opened Layout
  import opened Codec
  import opened Decoding
  import opened ILRewriterObject

  /** What the first pass leaves in the node: the immediate, or the byte offset of the target. */
  function Arg(o: Operand<int>): int {
    match o
    case Imm(v) => v
    case Label(off) => off
  }

  /** Reading the rest, after `front` has been read. */
  function Prepend(front: seq<Raw>, rest: Result<seq<Raw>>): Result<seq<Raw>> {
    match rest
    case Err => Err
    case Ok(more) => Ok(front + more)
  }

  lemma PrependAgain(a: seq<Raw>, b: seq<Raw>, rest: Result<seq<Raw>>)
    ensures Prepend(a, Prepend(b, rest)) == Prepend(a + b, rest)
  {
    if rest.Ok? {
      assert a + (b + rest.value) == a + b + rest.value;
    }
  }

  /** The nodes hold what was read. */
  ghost predicate Read(nodes: seq<ILInstr>, raws: seq<Raw>)
    reads nodes`opcode, nodes`operand
  {
    && |nodes| == |raws|
    && forall j {:trigger nodes[j]} :: 0 <= j < |nodes| ==>
         nodes[j].opcode == raws[j].instr.op && nodes[j].operand == Imm(Arg(raws[j].instr.operand))
  }

  /** The table maps the start of every instruction read so far to its node. */
  ghost predicate Tabled(table: seq<ILInstr?>, nodes: seq<ILInstr>, raws: seq<Raw>, sentinel: ILInstr) {
    && |nodes| == |raws| && |table| > 0 && table[|table| - 1] == sentinel
    && forall off :: 0 <= off < |table| - 1 ==>
         table[off] == match Find(raws, off) case None => null case Some(k) => nodes[k]
  }

  lemma {:induction false} FindAppend(raws: seq<Raw>, r: Raw, off: int)
    ensures Find(raws + [r], off) ==
            if Find(raws, off).Some? then Find(raws, off) else if r.start == off then Some(|raws|) else None
  {
    if raws != [] {
      assert (raws + [r])[1..] == raws[1..] + [r];
      FindAppend(raws[1..], r, off);
    } else {
      assert (raws + [r])[1..] == [];
    }
  }

  /** All instructions read so far start before `bound`. */
  predicate StartsBelow(raws: seq<Raw>, bound: int) {
    forall j :: 0 <= j < |raws| ==> raws[j].start < bound
  }

  lemma {:induction false} FindNothing(raws: seq<Raw>, off: int)
    requires StartsBelow(raws, off)
    ensures Find(raws, off) == None
  {
    if raws != [] {
      FindNothing(raws[1..], off);
    }
  }

  lemma TabledEntry(table: seq<ILInstr?>, nodes: seq<ILInstr>, raws: seq<Raw>, sentinel: ILInstr, x: ILInstr, r: Raw)
    requires Tabled(table, nodes, raws, sentinel) && r.start == -1
    ensures Tabled(table, nodes + [x], raws + [r], sentinel)
  {
    forall off | 0 <= off < |table| - 1
      ensures table[off] == match Find(raws + [r], off) case None => null case Some(k) => (nodes + [x])[k]
    {
      FindAppend(raws, r, off);
    }
  }

  lemma TabledStart(table: seq<ILInstr?>, nodes: seq<ILInstr>, raws: seq<Raw>, sentinel: ILInstr, x: ILInstr, r: Raw)
    requires Tabled(table, nodes, raws, sentinel) && 0 <= r.start < |table| - 1 && StartsBelow(raws, r.start)
    ensures Tabled(table[r.start := x], nodes + [x], raws + [r], sentinel)
  {
    forall off | 0 <= off < |table| - 1
      ensures table[r.start := x][off] == match Find(raws + [r], off) case None => null case Some(k) => (nodes + [x])[k]
    {
      FindAppend(raws, r, off);
      FindNothing(raws, r.start);
    }
  }

  lemma ReadMore(nodes: seq<ILInstr>, raws: seq<Raw>, x: ILInstr, r: Raw)
    requires Read(nodes, raws) && x.opcode == r.instr.op && x.operand == Imm(Arg(r.instr.operand))
    ensures Read(nodes + [x], raws + [r])
  {
  }

  /** Labels stand exactly where the opcode calls for one. */
  predicate Typed(raws: seq<Raw>) {
    forall j :: 0 <= j < |raws| ==> (raws[j].instr.operand.Label? <==> HasLabel(raws[j].instr.op))
  }

  /** The state between two instructions of the reading pass. */
  ghost predicate Reading(rewriter: ILRewriter, table: seq<ILInstr?>, raws: seq<Raw>, bound: int)
    reads rewriter, rewriter.sentinel`next, rewriter.sentinel`prev
    reads rewriter.nodes`next, rewriter.nodes`prev, rewriter.nodes`opcode, rewriter.nodes`operand
  {
    && rewriter.Valid() && Read(rewriter.nodes, raws)
    && Tabled(table, rewriter.nodes, raws, rewriter.sentinel)
    && StartsBelow(raws, bound) && Typed(raws)
  }

  lemma MoreRead(rewriter: ILRewriter, table: seq<ILInstr?>, table': seq<ILInstr?>, nodes: seq<ILInstr>, raws: seq<Raw>, x: ILInstr, r: Raw, bound: int, bound': int)
    requires rewriter.Valid() && rewriter.nodes == nodes + [x] && Read(nodes, raws)
    requires Tabled(table, nodes, raws, rewriter.sentinel) && StartsBelow(raws, bound) && Typed(raws)
    requires x.opcode == r.instr.op && x.operand == Imm(Arg(r.instr.operand))
    requires r.instr.operand.Label? <==> HasLabel(r.instr.op)
    requires bound <= bound' && r.start < bound'
    requires if r.start == -1 then table' == table else bound <= r.start < |table| - 1 && r.start >= 0 && table' == table[r.start := x]
    ensures Reading(rewriter, table', raws + [r], bound')
  {
    ReadMore(nodes, raws, x, r);
    hide Find;
    hide Read;
    hide HasLabel;
    StartsMore(raws, r, bound, bound');
    if r.start == -1 {
      TabledEntry(table, nodes, raws, rewriter.sentinel, x, r);
    } else {
      TabledStart(table, nodes, raws, rewriter.sentinel, x, r);
    }
    hide Tabled;
    hide StartsBelow;
  }

  lemma StartsMore(raws: seq<Raw>, r: Raw, bound: int, bound': int)
    requires StartsBelow(raws, bound) && bound <= bound' && r.start < bound'
    ensures StartsBelow(raws + [r], bound')
    ensures bound <= r.start ==> StartsBelow(raws, r.start)
  {
  }

  method Append(rewriter: ILRewriter, opcode: nat, arg: int) returns (x: ILInstr)
    requires rewriter.Valid()
    modifies rewriter, rewriter.sentinel`next, rewriter.sentinel`prev, rewriter.nodes`next, rewriter.nodes`prev
    ensures rewriter.Valid() && fresh(x) && rewriter.nodes == old(rewriter.nodes) + [x]
    ensures x.opcode == opcode && x.operand == Imm(arg)
    ensures rewriter.maxStack == old(rewriter.maxStack) + Pushes(opcode)
  {
    hide Linked;
    hide Pushes;
    x := rewriter.EmitBefore(rewriter.sentinel, opcode, Imm(arg), |rewriter.nodes|);
  }

  lemma ReadingParts(rewriter: ILRewriter, table: seq<ILInstr?>, raws: seq<Raw>, bound: int)
    requires Reading(rewriter, table, raws, bound)
    ensures rewriter.Valid() && Read(rewriter.nodes, raws) && Tabled(table, rewriter.nodes, raws, rewriter.sentinel)
    ensures StartsBelow(raws, bound) && Typed(raws)
  {
  }

  method AppendEntry(rewriter: ILRewriter, arg: int, ghost table: seq<ILInstr?>, ghost raws: seq<Raw>, ghost r: Raw, ghost bound: int)
    requires Reading(rewriter, table, raws, bound) && bound >= 0
    requires r == EntryRaw(arg)
    modifies rewriter, rewriter.sentinel`next, rewriter.sentinel`prev, rewriter.nodes`next, rewriter.nodes`prev
    ensures Reading(rewriter, table, raws + [r], bound)
    ensures forall i :: 0 <= i < |rewriter.nodes| ==> rewriter.nodes[i] in old(rewriter.nodes) || fresh(rewriter.nodes[i])
    ensures rewriter.maxStack == old(rewriter.maxStack) + Pushes(r.instr.op)
  {
    ghost var nodes := rewriter.nodes;
    hide *;
    ReadingParts(rewriter, table, raws, bound);
    var x := Append(rewriter, SWITCH_ARG, arg);
    EntryShape(r, arg);
    MoreRead(rewriter, table, table, nodes, raws, x, r, bound, bound);
  }

  lemma EntryShape(r: Raw, arg: int)
    requires r == EntryRaw(arg)
    ensures Arg(r.instr.operand) == arg && HasLabel(r.instr.op)
  {
  }

  method SetEntry(table: array<ILInstr?>, start: nat, x: ILInstr)
    requires start < table.Length
    modifies table
    ensures table[..] == old(table[..])[start := x]
  {
    table[start] := x;
  }

  method AppendRead(rewriter: ILRewriter, opcode: nat, arg: int, ghost table: seq<ILInstr?>, ghost raws: seq<Raw>, ghost r: Raw, ghost bound: int)
    returns (x: ILInstr)
    requires 0 <= r.start < |table| - 1 && Reading(rewriter, table, raws, r.start) && r.start < bound
    requires r.instr.op == opcode && Arg(r.instr.operand) == arg
    requires r.instr.operand.Label? <==> HasLabel(opcode)
    modifies rewriter, rewriter.sentinel`next, rewriter.sentinel`prev, rewriter.nodes`next, rewriter.nodes`prev
    ensures Reading(rewriter, table[r.start := x], raws + [r], bound)
    ensures forall i :: 0 <= i < |rewriter.nodes| ==> rewriter.nodes[i] in old(rewriter.nodes) || fresh(rewriter.nodes[i])
    ensures rewriter.maxStack == old(rewriter.maxStack) + Pushes(opcode)
  {
    ghost var nodes := rewriter.nodes;
    hide *;
    ReadingParts(rewriter, table, raws, r.start);
    x := Append(rewriter, opcode, arg);
    MoreRead(rewriter, table, table[r.start := x], nodes, raws, x, r, r.start, bound);
  }

  method AppendInstr(
    rewriter: ILRewriter, table: array<ILInstr?>, start: nat, opcode: nat, arg: int, ghost raws: seq<Raw>, ghost r: Raw, ghost bound: int)
    requires start + 1 < table.Length && Reading(rewriter, table[..], raws, start) && start < bound
    requires r.start == start && r.instr.op == opcode && Arg(r.instr.operand) == arg
    requires r.instr.operand.Label? <==> HasLabel(opcode)
    modifies rewriter, rewriter.sentinel`next, rewriter.sentinel`prev, rewriter.nodes`next, rewriter.nodes`prev, table
    ensures Reading(rewriter, table[..], raws + [r], bound)
    ensures forall i :: 0 <= i < |rewriter.nodes| ==> rewriter.nodes[i] in old(rewriter.nodes) || fresh(rewriter.nodes[i])
    ensures rewriter.maxStack == old(rewriter.maxStack) + Pushes(opcode)
  {
    hide *;
    ghost var was := table[..];
    var x := AppendRead(rewriter, opcode, arg, was, raws, r, bound);
    SetEntry(table, start, x);
  }

  // ---------- Switch tables ----------

  function EntryRaw(off: int): (r: Raw)
    ensures r == Raw(-1, Instr(SWITCH_ARG, Label(off)))
  {
    Raw(-1, Instr(SWITCH_ARG, Label(off)))
  }

  lemma EntriesStep(b: seq<byte>, pos: nat, n: nat, base: int, front: seq<Raw>)
    requires pos <= |b| && n > 0
    ensures pos + 4 > |b| ==> ReadEntries(b, pos, n, base) == Err
    ensures pos + 4 <= |b| ==>
              Prepend(front, ReadEntries(b, pos, n, base)) ==
              Prepend(front + [EntryRaw(base + LoadSigned(b[pos..pos + 4]))], ReadEntries(b, pos + 4, n - 1, base))
  {
    hide LoadSigned;
    if pos + 4 <= |b| {
      PrependAgain(front, [EntryRaw(base + LoadSigned(b[pos..pos + 4]))], ReadEntries(b, pos + 4, n - 1, base));
    }
  }

  lemma EntriesEnd(b: seq<byte>, pos: nat, base: int, front: seq<Raw>)
    requires pos <= |b|
    ensures Prepend(front, ReadEntries(b, pos, 0, base)) == Ok(front)
  {
    assert front + [] == front;
  }

  lemma PrependNothing(rest: Result<seq<Raw>>)
    ensures Prepend([], rest) == rest
  {
    if rest.Ok? {
      assert [] + rest.value == rest.value;
    }
  }

  /** The inner loop over the targets of one switch (il_rewriter.cpp:266-281). */
  method ReadTargets(rewriter: ILRewriter, b: seq<byte>, start: nat, n: nat, base: int, ghost table: seq<ILInstr?>, ghost raws: seq<Raw>, ghost bound: int)
    returns (ok: bool, pos: nat, ghost entries: seq<Raw>)
    requires Reading(rewriter, table, raws, bound) && bound >= 0 && start <= |b|
    modifies rewriter, rewriter.sentinel`next, rewriter.sentinel`prev, rewriter.nodes`next, rewriter.nodes`prev
    ensures ok <==> ReadEntries(b, start, n, base).Ok?
    ensures ok ==> ReadEntries(b, start, n, base) == Ok(entries) && pos == start + 4 * n <= |b|
    ensures ok ==> Reading(rewriter, table, raws + entries, bound)
    ensures forall i :: 0 <= i < |rewriter.nodes| ==> rewriter.nodes[i] in old(rewriter.nodes) || fresh(rewriter.nodes[i])
    ensures ok ==> rewriter.maxStack == old(rewriter.maxStack) + PushesOf(entries) && Typed(entries)
  {
    hide *;
    ok, pos, entries := true, start, [];
    PrependNothing(ReadEntries(b, start, n, base));
    assert raws + [] == raws;
    NoPushes();
    var i := 0;
    while i < n
      invariant i <= n && pos == start + 4 * i <= |b|
      invariant ReadEntries(b, start, n, base) == Prepend(entries, ReadEntries(b, pos, n - i, base))
      invariant Reading(rewriter, table, raws + entries, bound)
      invariant forall i :: 0 <= i < |rewriter.nodes| ==> rewriter.nodes[i] in old(rewriter.nodes) || fresh(rewriter.nodes[i])
      invariant rewriter.maxStack == old(rewriter.maxStack) + PushesOf(entries) && Typed(entries)
    {
      EntriesStep(b, pos, n - i, base, entries);
      if pos + 4 > |b| {
        PrependErr(entries);
        return false, pos, entries;
      }
      ghost var r := EntryRaw(base + LoadSigned(b[pos..pos + 4]));
      EntryShape(r, base + LoadSigned(b[pos..pos + 4]));
      AppendEntry(rewriter, base + LoadSigned(b[pos..pos + 4]), table, raws + entries, r, bound);
      assert raws + entries + [r] == raws + (entries + [r]);
      MorePushes(entries, r);
      entries := entries + [r];
      pos := pos + 4;
      i := i + 1;
    }
    EntriesEnd(b, pos, base, entries);
  }

  /** How far the nodes that were read raise the stack bound. */
  function PushesOf(raws: seq<Raw>): nat {
    if raws == [] then 0 else PushesOf(raws[..|raws| - 1]) + Pushes(raws[|raws| - 1].instr.op)
  }

  lemma NoPushes()
    ensures PushesOf([]) == 0 && Typed([])
  {
  }

  lemma MorePushes(raws: seq<Raw>, r: Raw)
    requires Typed(raws) && (r.instr.operand.Label? <==> HasLabel(r.instr.op))
    ensures PushesOf(raws + [r]) == PushesOf(raws) + Pushes(r.instr.op) && Typed(raws + [r])
  {
    assert (raws + [r])[..|raws|] == raws;
  }

  lemma {:induction false} PushesAppend(a: seq<Raw>, b: seq<Raw>)
    ensures PushesOf(a + b) == PushesOf(a) + PushesOf(b)
  {
    if b == [] {
      assert a + b == a;
    } else {
      PushesAppend(a, b[..|b| - 1]);
      assert (a + b)[..|a + b| - 1] == a + b[..|b| - 1];
    }
  }

  lemma PrependErr(front: seq<Raw>)
    ensures Prepend(front, Err) == Err
  {
  }

  // ---------- The reading pass ----------

  lemma FromErr(b: seq<byte>, off: nat)
    requires off < |b|
    ensures ReadOpcode(b, off).Err? ==> ReadFrom(b, off) == Err
    ensures ReadOpcode(b, off).Ok? ==>
              var o := ReadOpcode(b, off).value;
              && off < o.next <= |b|
              && (o.op == SWITCH && o.next + 4 > |b| ==> ReadFrom(b, off) == Err)
              && (o.op != SWITCH && o.next + OperandWidth(o.op) > |b| ==> ReadFrom(b, off) == Err)
  {
    hide KindOf;
    hide ReadEntries;
    hide ReadOperand;
    hide LoadUnsigned;
    hide OperandWidth;
  }

  function PlainRaw(b: seq<byte>, off: nat, o: Opcode): (r: Raw)
    requires o.next + OperandWidth(o.op) <= |b|
    ensures r.start == off && r.instr.op == o.op
  {
    Raw(off, Instr(o.op, ReadOperand(b, o.op, o.next)))
  }

  lemma FromPlain(b: seq<byte>, off: nat, o: Opcode)
    requires off < |b| && ReadOpcode(b, off) == Ok(o) && o.op != SWITCH && o.next + OperandWidth(o.op) <= |b|
    ensures ReadFrom(b, off) == Prepend([PlainRaw(b, off, o)], ReadFrom(b, o.next + OperandWidth(o.op)))
  {
    hide KindOf;
    hide ReadOpcode;
    hide ReadOperand;
    hide OperandWidth;
    hide ReadEntries;
  }

  lemma PlainShape(b: seq<byte>, off: nat, o: Opcode)
    requires o.next + OperandWidth(o.op) <= |b| && Importable(o.op)
    ensures PlainRaw(b, off, o).instr.operand.Label? <==> HasLabel(o.op)
  {
  }

  function SwitchRaw(off: nat, n: nat): (r: Raw)
    ensures r.start == off && r.instr.op == SWITCH && Arg(r.instr.operand) == n
    ensures r.instr.operand.Label? <==> HasLabel(SWITCH)
  {
    Raw(off, Instr(SWITCH, Imm(n)))
  }

  lemma FromSwitch(b: seq<byte>, off: nat, o: Opcode, n: nat, entries: Result<seq<Raw>>)
    requires off < |b| && ReadOpcode(b, off) == Ok(o) && o.op == SWITCH && o.next + 4 <= |b|
    requires n == LoadUnsigned(b[o.next..o.next + 4])
    requires entries == ReadEntries(b, o.next + 4, n, o.next + 4 + 4 * n)
    ensures entries.Err? ==> ReadFrom(b, off) == Err
    ensures entries.Ok? ==>
              && o.next + 4 + 4 * n <= |b|
              && ReadFrom(b, off) == Prepend([SwitchRaw(off, n)] + entries.value, ReadFrom(b, o.next + 4 + 4 * n))
  {
    hide KindOf;
    hide ReadOpcode;
    hide ReadOperand;
    hide OperandWidth;
    hide ReadEntries;
    hide LoadUnsigned;
  }

  lemma ReadingOn(rewriter: ILRewriter, table: seq<ILInstr?>, raws: seq<Raw>, bound: int, bound': int)
    requires Reading(rewriter, table, raws, bound) && bound <= bound'
    ensures Reading(rewriter, table, raws, bound')
  {
  }

  lemma NothingRead(b: seq<byte>, off: nat)
    requires off <= |b|
    ensures off == |b| ==> ReadFrom(b, off) == Ok([])
  {
  }

  method ReadSwitch(rewriter: ILRewriter, b: seq<byte>, table: array<ILInstr?>, off: nat, o: Opcode, ghost raws: seq<Raw>)
    returns (ok: bool, next: nat, ghost more: seq<Raw>)
    requires off < |b| && table.Length == |b| + 1 && Reading(rewriter, table[..], raws, off)
    requires ReadOpcode(b, off) == Ok(o) && o.op == SWITCH && off < o.next <= |b|
    modifies rewriter, rewriter.sentinel`next, rewriter.sentinel`prev, rewriter.nodes`next, rewriter.nodes`prev, table
    ensures ok ==> off < next <= |b| && ReadFrom(b, off) == Prepend(more, ReadFrom(b, next))
    ensures !ok ==> ReadFrom(b, off) == Err
    ensures ok ==> Reading(rewriter, table[..], raws + more, next)
    ensures ok ==> rewriter.maxStack == old(rewriter.maxStack) + PushesOf(more)
    ensures forall i :: 0 <= i < |rewriter.nodes| ==> rewriter.nodes[i] in old(rewriter.nodes) || fresh(rewriter.nodes[i])
  {
    hide *;
    FromErr(b, off);
    if o.next + 4 > |b| {
      return false, off, [];
    }
    var n := LoadUnsigned(b[o.next..o.next + 4]);
    ghost var r := SwitchRaw(off, n);
    AppendInstr(rewriter, table, off, o.op, n, raws, r, off + 1);
    ghost var entries;
    ok, next, entries := ReadTargets(rewriter, b, o.next + 4, n, o.next + 4 + 4 * n, table[..], raws + [r], off + 1);
    FromSwitch(b, off, o, n, ReadEntries(b, o.next + 4, n, o.next + 4 + 4 * n));
    more := [r] + entries;
    if ok {
      assert raws + [r] + entries == raws + more;
      PushesAppend([r], entries);
      OnePush(r);
      ReadingOn(rewriter, table[..], raws + more, off + 1, next);
    }
  }

  lemma OnePush(r: Raw)
    ensures PushesOf([r]) == Pushes(r.instr.op)
  {
    assert [r][..0] == [];
  }

  method ReadPlain(rewriter: ILRewriter, b: seq<byte>, table: array<ILInstr?>, off: nat, o: Opcode, ghost raws: seq<Raw>)
    returns (ok: bool, next: nat, ghost more: seq<Raw>)
    requires off < |b| && table.Length == |b| + 1 && Reading(rewriter, table[..], raws, off)
    requires ReadOpcode(b, off) == Ok(o) && o.op != SWITCH && off < o.next <= |b| && Importable(o.op)
    modifies rewriter, rewriter.sentinel`next, rewriter.sentinel`prev, rewriter.nodes`next, rewriter.nodes`prev, table
    ensures ok ==> off < next <= |b| && ReadFrom(b, off) == Prepend(more, ReadFrom(b, next))
    ensures !ok ==> ReadFrom(b, off) == Err
    ensures ok ==> Reading(rewriter, table[..], raws + more, next)
    ensures ok ==> rewriter.maxStack == old(rewriter.maxStack) + PushesOf(more)
    ensures forall i :: 0 <= i < |rewriter.nodes| ==> rewriter.nodes[i] in old(rewriter.nodes) || fresh(rewriter.nodes[i])
  {
    hide *;
    FromErr(b, off);
    ok, next, more := false, o.next + OperandWidth(o.op), [];
    if next > |b| {
      return;
    }
    ghost var r := PlainRaw(b, off, o);
    PlainShape(b, off, o);
    FromPlain(b, off, o);
    OnePush(r);
    ArgOf(b, off, o);
    AppendInstr(rewriter, table, off, o.op, Arg(ReadOperand(b, o.op, o.next)), raws, r, next);
    ok, more := true, [r];
  }

  lemma ArgOf(b: seq<byte>, off: nat, o: Opcode)
    requires o.next + OperandWidth(o.op) <= |b|
    ensures PlainRaw(b, off, o).instr.operand == ReadOperand(b, o.op, o.next)
  {
  }

  /** The first loop of ImportIL: reads instruction after instruction until the code ends. */
  method ReadInstructions(rewriter: ILRewriter, b: seq<byte>, table: array<ILInstr?>) returns (ok: bool, ghost raws: seq<Raw>)
    requires table.Length == |b| + 1 && Reading(rewriter, table[..], [], 0)
    modifies rewriter, rewriter.sentinel`next, rewriter.sentinel`prev, rewriter.nodes`next, rewriter.nodes`prev, table
    ensures ok <==> ReadFrom(b, 0).Ok?
    ensures ok ==> ReadFrom(b, 0) == Ok(raws) && Reading(rewriter, table[..], raws, |b|)
    ensures ok ==> rewriter.maxStack == old(rewriter.maxStack) + PushesOf(raws)
    ensures forall i :: 0 <= i < |rewriter.nodes| ==> rewriter.nodes[i] in old(rewriter.nodes) || fresh(rewriter.nodes[i])
  {
    hide *;
    var off := 0;
    ok, raws := true, [];
    PrependNothing(ReadFrom(b, 0));
    NoPushes();
    while off < |b|
      invariant off <= |b| && Reading(rewriter, table[..], raws, off)
      invariant ReadFrom(b, 0) == Prepend(raws, ReadFrom(b, off))
      invariant rewriter.maxStack == old(rewriter.maxStack) + PushesOf(raws)
      invariant forall i :: 0 <= i < |rewriter.nodes| ==> rewriter.nodes[i] in old(rewriter.nodes) || fresh(rewriter.nodes[i])
    {
      FromErr(b, off);
      PrependErr(raws);
      var read := ReadOpcode(b, off);
      if read.Err? {
        return false, raws;
      }
      var next;
      ghost var more;
      if read.value.op == SWITCH {
        ok, next, more := ReadSwitch(rewriter, b, table, off, read.value, raws);
      } else {
        ok, next, more := ReadPlain(rewriter, b, table, off, read.value, raws);
      }
      if !ok {
        return false, raws;
      }
      PrependAgain(raws, more, ReadFrom(b, next));
      PushesAppend(raws, more);
      raws := raws + more;
      off := next;
    }
    NothingRead(b, off);
    PrependAll(raws);
  }

  lemma PrependAll(raws: seq<Raw>)
    ensures Prepend(raws, Ok([])) == Ok(raws)
  {
    assert raws + [] == raws;
  }

  // ---------- The pass that resolves targets ----------

  /** GetInstrFromOffset (il_rewriter.cpp:346-353). */
  function Target(table: seq<ILInstr?>, off: int): ILInstr? {
    if 0 <= off < |table| then table[off] else null
  }

  function ResolvedOperand(table: seq<ILInstr?>, o: Operand<int>): Operand<ILInstr?> {
    match o
    case Imm(v) => Imm(v)
    case Label(off) => Label(Target(table, off))
  }

  ghost predicate Unresolved(back: seq<ILInstr>, raws: seq<Raw>)
    reads back`operand
  {
    |back| == |raws| && forall j {:trigger back[j]} :: 0 <= j < |back| ==> back[j].operand == Imm(Arg(raws[j].instr.operand))
  }

  ghost predicate ResolvedFront(front: seq<ILInstr>, table: seq<ILInstr?>, raws: seq<Raw>)
    reads front`operand
  {
    |front| == |raws| && forall j {:trigger front[j]} :: 0 <= j < |front| ==> front[j].operand == ResolvedOperand(table, raws[j].instr.operand)
  }

  ghost predicate OpcodesRead(nodes: seq<ILInstr>, raws: seq<Raw>)
    reads nodes`opcode
  {
    |nodes| == |raws| && forall j {:trigger nodes[j]} :: 0 <= j < |nodes| ==> nodes[j].opcode == raws[j].instr.op
  }

  lemma ReadSplits(nodes: seq<ILInstr>, raws: seq<Raw>, table: seq<ILInstr?>)
    requires Read(nodes, raws)
    ensures |nodes| == |raws| && OpcodesRead(nodes, raws) && Unresolved(nodes[0..], raws[0..]) && ResolvedFront(nodes[..0], table, raws[..0])
  {
    assert nodes[0..] == nodes && raws[0..] == raws;
  }

  lemma BackStep(nodes: seq<ILInstr>, raws: seq<Raw>, i: nat)
    requires |nodes| == |raws| && i < |nodes| && Unresolved(nodes[i..], raws[i..]) && OpcodesRead(nodes, raws) && Typed(raws)
    ensures nodes[i].operand == Imm(Arg(raws[i].instr.operand)) && Unresolved(nodes[i + 1..], raws[i + 1..])
    ensures nodes[i].opcode == raws[i].instr.op
    ensures HasLabel(nodes[i].opcode) <==> raws[i].instr.operand.Label?
  {
    hide HasLabel;
    assert nodes[i] == nodes[i..][0] && raws[i] == raws[i..][0];
    var back, rest := nodes[i + 1..], raws[i + 1..];
    forall j | 0 <= j < |back|
      ensures back[j].operand == Imm(Arg(rest[j].instr.operand))
    {
      assert back[j] == nodes[i..][j + 1] && rest[j] == raws[i..][j + 1];
    }
  }

  lemma FrontStep(nodes: seq<ILInstr>, table: seq<ILInstr?>, raws: seq<Raw>, i: nat)
    requires |nodes| == |raws| && i < |nodes| && ResolvedFront(nodes[..i], table, raws[..i])
    requires nodes[i].operand == ResolvedOperand(table, raws[i].instr.operand)
    ensures ResolvedFront(nodes[..i + 1], table, raws[..i + 1])
  {
    var front, ops := nodes[..i + 1], raws[..i + 1];
    forall j | 0 <= j < |front|
      ensures front[j].operand == ResolvedOperand(table, ops[j].instr.operand)
    {
      assert j < i ==> nodes[..i][j] == nodes[j] && raws[..i][j] == raws[j];
    }
  }

  lemma OperandStep(table: seq<ILInstr?>, o: Operand<int>)
    ensures ResolvedOperand(table, o) == if o.Label? then Label(Target(table, Arg(o))) else Imm(Arg(o))
  {
  }

  predicate Hits(table: seq<ILInstr?>, o: Operand<int>) {
    o.Label? ==> Target(table, o.dest) != null
  }

  predicate AllHit(table: seq<ILInstr?>, raws: seq<Raw>) {
    forall j {:trigger raws[j]} :: 0 <= j < |raws| ==> Hits(table, raws[j].instr.operand)
  }

  lemma HitsMore(table: seq<ILInstr?>, raws: seq<Raw>, i: nat)
    requires i < |raws|
    ensures AllHit(table, raws[..i + 1]) <==> AllHit(table, raws[..i]) && Hits(table, raws[i].instr.operand)
    ensures AllHit(table, raws[..0])
  {
    hide Hits;
    var more, front := raws[..i + 1], raws[..i];
    assert more == front + [raws[i]];
    if AllHit(table, more) {
      assert Hits(table, more[i].instr.operand);
      forall j {:trigger front[j]} | 0 <= j < i
        ensures Hits(table, front[j].instr.operand)
      {
        assert front[j] == more[j];
      }
    }
  }

  lemma HitsNone(table: seq<ILInstr?>)
    ensures AllHit(table, [])
  {
  }

  lemma HitsIs(table: seq<ILInstr?>, o: Operand<int>)
    ensures Hits(table, o) <==> (o.Label? ==> Target(table, Arg(o)) != null)
  {
  }

  /**
   The second loop of ImportIL; it reports whether every target hit an instruction, which the source
   asserts. Without branches the source skips the loop; then it changes nothing.
   */
  method ResolveTargets(rewriter: ILRewriter, table: array<ILInstr?>, ghost raws: seq<Raw>, ghost bound: int) returns (resolved: bool)
    requires Reading(rewriter, table[..], raws, bound)
    modifies rewriter.nodes`operand
    ensures rewriter.Valid() && OpcodesRead(rewriter.nodes, raws)
    ensures ResolvedFront(rewriter.nodes, table[..], raws)
    ensures resolved <==> AllHit(table[..], raws)
  {
    hide *;
    resolved := true;
    HitsNone(table[..]);
    assert raws[..0] == [];
    var sentinel := rewriter.sentinel;
    ghost var nodes, entries, i := rewriter.nodes, table[..], 0;
    ReadingParts(rewriter, entries, raws, bound);
    ReadSplits(nodes, raws, entries);
    StillLinked(rewriter);
    NextAt(nodes, sentinel, 0);
    var p := sentinel.next;
    while p != sentinel
      invariant i <= |nodes| == |raws| && p == NodeAt(nodes, sentinel, i)
      invariant ResolvedFront(nodes[..i], entries, raws[..i]) && Unresolved(nodes[i..], raws[i..])
      invariant resolved <==> AllHit(entries, raws[..i])
      decreases |nodes| - i
    {
      CursorInside(nodes, sentinel, p, i);
      BackStep(nodes, raws, i);
      OperandStep(entries, raws[i].instr.operand);
      HitsMore(entries, raws, i);
      HitsIs(entries, raws[i].instr.operand);
      if HasLabel(p.opcode) {
        var target := Lookup(table, p.operand.value);
        p.operand := Label(target);
        resolved := resolved && target != null;
      }
      FrontStep(nodes, entries, raws, i);
      p := p.next;
      i := i + 1;
    }
    CursorInside(nodes, sentinel, p, i);
    assert nodes[..|nodes|] == nodes && raws[..|raws|] == raws;
  }

  lemma StillLinked(rewriter: ILRewriter)
    requires rewriter.Valid()
    ensures Linked(rewriter.nodes, rewriter.sentinel)
  {
  }

  method Lookup(table: array<ILInstr?>, off: int) returns (x: ILInstr?)
    ensures x == Target(table[..], off)
  {
    x := if 0 <= off < table.Length then table[off] else null;
  }

  // ---------- ImportIL ----------

  /** A pointer operand and a resolved operand name the same place, null where there is none. */
  predicate SameTarget(o: Operand<ILInstr?>, v: Operand<Option<nat>>, nodes: seq<ILInstr>, sentinel: ILInstr) {
    match (o, v)
    case (Imm(a), Imm(b)) => a == b
    case (Label(p), Label(None)) => p == null
    case (Label(p), Label(Some(t))) => t <= |nodes| && p == NodeAt(nodes, sentinel, t)
    case _ => false
  }

  /** The list is the decoded one, node for node. */
  ghost predicate Decoded(nodes: seq<ILInstr>, sentinel: ILInstr, decoded: seq<Instr<Option<nat>>>)
    reads nodes`opcode, nodes`operand
  {
    && |nodes| == |decoded|
    && forall j {:trigger nodes[j]} :: 0 <= j < |nodes| ==>
         nodes[j].opcode == decoded[j].op && SameTarget(nodes[j].operand, decoded[j].operand, nodes, sentinel)
  }

  lemma TargetIs(table: seq<ILInstr?>, nodes: seq<ILInstr>, raws: seq<Raw>, sentinel: ILInstr, size: nat, off: int)
    requires Tabled(table, nodes, raws, sentinel) && size == |table| - 1 && StartsBelow(raws, size)
    ensures Target(table, off) ==
            match InstrAt(raws, size, off) case None => null case Some(t) => NodeAt(nodes, sentinel, t)
  {
    if off > size {
      FindNothing(raws, off);
    }
  }

  lemma {:induction false} DecodedAll(nodes: seq<ILInstr>, sentinel: ILInstr, table: seq<ILInstr?>, raws: seq<Raw>, b: seq<byte>)
    requires Tabled(table, nodes, raws, sentinel) && |b| == |table| - 1 && StartsBelow(raws, |b|)
    requires OpcodesRead(nodes, raws) && ResolvedFront(nodes, table, raws) && ReadFrom(b, 0) == Ok(raws)
    ensures Decode(b).Ok? && Decoded(nodes, sentinel, Decode(b).value)
    ensures AllHit(table, raws) <==> Resolvable(Decode(b).value)
  {
    hide Tabled;
    hide InstrAt;
    hide NodeAt;
    hide ReadFrom;
    var d := Decode(b).value;
    forall j | 0 <= j < |nodes|
      ensures nodes[j].opcode == d[j].op && SameTarget(nodes[j].operand, d[j].operand, nodes, sentinel)
    {
      TargetIs(table, nodes, raws, sentinel, |b|, Arg(raws[j].instr.operand));
    }
    HitsResolve(nodes, sentinel, table, raws, b);
  }

  lemma {:induction false} HitsResolve(nodes: seq<ILInstr>, sentinel: ILInstr, table: seq<ILInstr?>, raws: seq<Raw>, b: seq<byte>)
    requires Tabled(table, nodes, raws, sentinel) && |b| == |table| - 1 && StartsBelow(raws, |b|) && ReadFrom(b, 0) == Ok(raws)
    ensures AllHit(table, raws) <==> Resolvable(Decode(b).value)
  {
    hide Tabled;
    hide InstrAt;
    hide NodeAt;
    hide ReadFrom;
    var d := Decode(b).value;
    forall j | 0 <= j < |raws|
      ensures d[j].operand.Label? <==> raws[j].instr.operand.Label?
      ensures d[j].operand.Label? ==> (d[j].operand.dest.Some? <==> Target(table, raws[j].instr.operand.dest) != null)
    {
      TargetIs(table, nodes, raws, sentinel, |b|, Arg(raws[j].instr.operand));
      assert d[j] == Resolve(raws, |b|, raws[j].instr);
    }
    if Resolvable(d) {
      forall j {:trigger raws[j]} | 0 <= j < |raws|
        ensures Hits(table, raws[j].instr.operand)
      {
        assert d[j].operand.Label? <==> raws[j].instr.operand.Label?;
      }
    }
    if AllHit(table, raws) {
      forall j | 0 <= j < |d| && d[j].operand.Label?
        ensures d[j].operand.dest.Some?
      {
        assert Hits(table, raws[j].instr.operand);
      }
    }
  }

  /**
   Importing succeeds exactly when the bytes decode, and then the list is the decoded one and the
   stack bound has grown by what its opcodes push.
   */
  method ImportIL(rewriter: ILRewriter, b: seq<byte>) returns (ok: bool, resolved: bool, table: array<ILInstr?>)
    requires rewriter.Valid() && rewriter.nodes == []
    modifies rewriter, rewriter.sentinel`next, rewriter.sentinel`prev
    ensures ok <==> Decode(b).Ok?
    ensures ok ==> (resolved <==> Resolvable(Decode(b).value))
    ensures ok ==> rewriter.Valid() && Decoded(rewriter.nodes, rewriter.sentinel, Decode(b).value)
    ensures ok ==> rewriter.maxStack == old(rewriter.maxStack) + PushesOf(ReadFrom(b, 0).value)
    ensures forall i :: 0 <= i < |rewriter.nodes| ==> fresh(rewriter.nodes[i])
    ensures fresh(table) && table.Length == |b| + 1
    ensures ok ==> Tabled(table[..], rewriter.nodes, ReadFrom(b, 0).value, rewriter.sentinel)
    ensures ok ==> StartsBelow(ReadFrom(b, 0).value, |b|)
  {
    hide *;
    table := new ILInstr?[|b| + 1](_ => null);
    table[|b|] := rewriter.sentinel;
    EmptyTable(table[..], rewriter);
    ghost var raws;
    ok, raws := ReadInstructions(rewriter, b, table);
    DecodeFails(b);
    resolved := false;
    if ok {
      ghost var entries := table[..];
      ReadingParts(rewriter, entries, raws, |b|);
      resolved := ResolveTargets(rewriter, table, raws, |b|);
      DecodedAll(rewriter.nodes, rewriter.sentinel, entries, raws, b);
    }
  }

  lemma EmptyTable(table: seq<ILInstr?>, rewriter: ILRewriter)
    requires rewriter.Valid() && rewriter.nodes == [] && |table| > 0 && table[|table| - 1] == rewriter.sentinel
    requires forall i :: 0 <= i < |table| - 1 ==> table[i] == null
    ensures Reading(rewriter, table, [], 0)
  {
  }

  lemma DecodeFails(b: seq<byte>)
    ensures ReadFrom(b, 0).Ok? <==> Decode(b).Ok?
  {
  }
}
