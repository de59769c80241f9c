/**
 An abstract CIL evaluation-stack machine. The machine is open: everything it does not interpret
 itself is given by functions, so the theorems hold for every semantics of the remaining
 instructions, of the called methods and of exception dispatch that can be given in terms of what
 those functions see. They may be specific to one body: clauses are known to them by index, and
 branches by their number among the branches of the body. A `leave` that has finally clauses to run
 can thus enter the first of them and leave its own number in the world; the last `endfinally`
 resumes at the target of the branch with that number.
 */
module StackMachine {
  import opened Bytes
  import opened Opcodes
  import opened Layout
  import opened Codec
  import opened Replacement
  import opened Regions

  /** The prefix instruction (tail., constrained., volatile., ...) textually before an instruction. */
  type Prefix = Option<(nat, int)>

  /**
   What one instruction does. `Jump` takes its own branch, `Case(k)` entry k of its switch table,
   `Resume(j)` goes where branch number j of the body goes.
   */
  datatype Outcome<V, W, R> =
    | Fall(stack: seq<V>, world: W)
    | Jump(stack: seq<V>, world: W)
    | Case(k: nat, stack: seq<V>, world: W)
    | Resume(j: nat, stack: seq<V>, world: W)
    | Enter(dispatch: Dispatch<V, W, R>)
    | Stuck

  /** Leaving the normal flow: into a clause's handler or filter, or out of the method. */
  datatype Dispatch<V, W, R> =
    | ToHandler(clause: nat, stack: seq<V>, world: W)
    | ToFilter(clause: nat, stack: seq<V>, world: W)
    | Exit(result: R)

  datatype CallResult<V, W> = Returned(value: Option<V>, world: W) | Threw(exn: V, world: W)

  datatype Machine<!V, !W, !R> = Machine(
    prim: (nat, int, Prefix, seq<Cover>, seq<V>, W) -> Outcome<V, W, R>,
    invoke: (nat, int, Prefix, seq<V>, W) -> CallResult<V, W>,
    arity: int -> nat,
    raise: (seq<Cover>, V, W) -> Dispatch<V, W, R>,
    box: (int, V) -> V,
    unbox: (int, V, W) -> CallResult<V, W>,
    int32: int -> V,
    int64: int -> V)

  datatype State<V, W, R> = Running(pc: nat, stack: seq<V>, world: W) | Done(result: R) | Wrong

  /** A body: its instructions and its exception clauses. */
  datatype Body = Body(code: Code, clauses: seq<Clause>)

  predicate BodyOk(b: Body) {
    && Closed(b.code)
    && forall i :: 0 <= i < |b.clauses| ==> ClauseOk(b.clauses[i], |b.code|)
  }

  predicate IsPrefix(op: nat) {
    op == 0x112 || op == 0x113 || op == TAIL || op == CONSTRAINED || op == 0x119 || op == 0x11E
  }

  function PrefixAt(code: Code, pc: nat): Prefix
    requires pc <= |code|
  {
    if pc > 0 && IsPrefix(code[pc - 1].op) then Some((code[pc - 1].op, Immediate(code[pc - 1]))) else None
  }

  function Deliver<V, W, R>(m: Machine<V, W, R>, cover: seq<Cover>, below: seq<V>, r: CallResult<V, W>): Outcome<V, W, R> {
    match r
    case Returned(None, w) => Fall(below, w)
    case Returned(Some(v), w) => Fall(below + [v], w)
    case Threw(e, w) => Enter(m.raise(cover, e, w))
  }

  /**
   The opcodes in numbers: nop, the ldc.i4 family, ldc.i8, box, unbox.any, call and callvirt; all
   others are the machine's own.
   */
  function Execute<V, W, R>(m: Machine<V, W, R>, op: nat, imm: int, prefix: Prefix, cover: seq<Cover>,
                            stack: seq<V>, w: W): Outcome<V, W, R>
  {
    if op == 0x00 then Fall(stack, w)
    else if Int32Constant(op, imm).Some? then Fall(stack + [m.int32(Int32Constant(op, imm).value)], w)
    else if op == 0x21 then Fall(stack + [m.int64(imm)], w)
    else if op == 0x8C then
      if stack == [] then Stuck
      else Fall(stack[..|stack| - 1] + [m.box(imm, stack[|stack| - 1])], w)
    else if op == 0xA5 then
      if stack == [] then Stuck
      else Deliver(m, cover, stack[..|stack| - 1], m.unbox(imm, stack[|stack| - 1], w))
    else if op == 0x28 || op == 0x6F then
      if |stack| < m.arity(imm) then Stuck
      else
        var below := |stack| - m.arity(imm);
        Deliver(m, cover, stack[..below], m.invoke(op, imm, prefix, stack[below..], w))
    else m.prim(op, imm, prefix, cover, stack, w)
  }

  /** The first position from `q` on that is not a switch entry. */
  function SkipEntries(code: Code, q: nat): (r: nat)
    requires q <= |code|
    ensures q <= r <= |code|
    decreases |code| - q
  {
    if q < |code| && code[q].op == SWITCH_ARG then SkipEntries(code, q + 1) else q
  }

  /** The target of entry `k` of the table that starts at `q`. */
  function EntryTarget(code: Code, q: nat, k: nat): Option<nat>
    requires Closed(code) && q <= |code|
    decreases k
  {
    if q == |code| || code[q].op != SWITCH_ARG then None
    else if k == 0 then Some(code[q].operand.dest)
    else EntryTarget(code, q + 1, k - 1)
  }

  /** How many branches of the list stand before `pc`. */
  function Ordinal(code: Code, pc: nat): nat
    requires pc <= |code|
  {
    if pc == 0 then 0 else Ordinal(code, pc - 1) + if IsBranch(code[pc - 1].op) then 1 else 0
  }

  /** What an instruction hands to the machine besides its opcode: a branch its number, any other its immediate. */
  function Argument(code: Code, pc: nat): int
    requires pc < |code|
  {
    if IsBranch(code[pc].op) then Ordinal(code, pc) else Immediate(code[pc])
  }

  /** Where branch number `j` of those from `q` on goes. */
  function BranchTarget(code: Code, q: nat, j: nat): Option<nat>
    requires Closed(code) && q <= |code|
    decreases |code| - q
  {
    if q == |code| then None
    else if !IsBranch(code[q].op) then BranchTarget(code, q + 1, j)
    else if j == 0 then Some(code[q].operand.dest)
    else BranchTarget(code, q + 1, j - 1)
  }

  function Transfer<V, W, R>(b: Body, d: Dispatch<V, W, R>): State<V, W, R> {
    match d
    case Exit(r) => Done(r)
    case ToHandler(i, st, w) =>
      if i < |b.clauses| then Running(b.clauses[i].handlerBegin, st, w) else Wrong
    case ToFilter(i, st, w) =>
      if i < |b.clauses| && b.clauses[i].catch.FilterBegin? then Running(b.clauses[i].catch.pos, st, w) else Wrong
  }

  function Apply<V, W, R>(b: Body, pc: nat, o: Outcome<V, W, R>): State<V, W, R>
    requires BodyOk(b) && pc < |b.code|
  {
    var x := b.code[pc];
    match o
    case Fall(st, w) => Running(if x.op == SWITCH then SkipEntries(b.code, pc + 1) else pc + 1, st, w)
    case Jump(st, w) => if IsBranch(x.op) then Running(x.operand.dest, st, w) else Wrong
    case Case(k, st, w) =>
      if x.op == SWITCH && EntryTarget(b.code, pc + 1, k).Some?
      then Running(EntryTarget(b.code, pc + 1, k).value, st, w) else Wrong
    case Resume(j, st, w) =>
      if BranchTarget(b.code, 0, j).Some? then Running(BranchTarget(b.code, 0, j).value, st, w) else Wrong
    case Enter(d) => Transfer(b, d)
    case Stuck => Wrong
  }

  function Step<V, W, R>(m: Machine<V, W, R>, b: Body, s: State<V, W, R>): State<V, W, R>
    requires BodyOk(b)
  {
    match s
    case Running(pc, st, w) =>
      if pc >= |b.code| then Wrong
      else
        var x := b.code[pc];
        Apply(b, pc, Execute(m, x.op, Argument(b.code, pc), PrefixAt(b.code, pc), Covers(b.clauses, |b.code|, pc), st, w))
    case _ => s
  }

  function Run<V, W, R>(m: Machine<V, W, R>, b: Body, n: nat, s: State<V, W, R>): State<V, W, R>
    requires BodyOk(b)
  {
    if n == 0 then s else Run(m, b, n - 1, Step(m, b, s))
  }

  lemma {:induction false} OrdinalGrows(code: Code, q: nat, pc: nat)
    requires q <= pc <= |code|
    ensures Ordinal(code, q) <= Ordinal(code, pc)
    ensures q < pc && IsBranch(code[q].op) ==> Ordinal(code, q + 1) == Ordinal(code, q) + 1 <= Ordinal(code, pc)
    decreases pc - q
  {
    hide IsBranch;
    if q < pc {
      OrdinalGrows(code, q + 1, pc);
    }
  }

  lemma {:induction false} NumberNamesBranch(code: Code, q: nat, pc: nat)
    requires Closed(code) && q <= pc < |code| && IsBranch(code[pc].op)
    ensures Ordinal(code, q) <= Ordinal(code, pc)
    ensures BranchTarget(code, q, Ordinal(code, pc) - Ordinal(code, q)) == Some(code[pc].operand.dest)
    decreases pc - q
  {
    OrdinalGrows(code, q, pc);
    assert HasLabel(code[pc].op);
    hide IsBranch;
    hide Closed;
    if q < pc {
      NumberNamesBranch(code, q + 1, pc);
    }
  }

  /** An `endfinally` that resumes with the number a branch was given continues at that branch's target. */
  lemma {:induction false} ResumesAtTarget<V, W, R>(b: Body, pc: nat, q: nat, st: seq<V>, w: W)
    requires BodyOk(b) && pc < |b.code| && IsBranch(b.code[pc].op) && q < |b.code|
    ensures Argument(b.code, pc) >= 0 && b.code[pc].operand.Label?
    ensures Apply<V, W, R>(b, q, Resume(Argument(b.code, pc), st, w)) == Running(b.code[pc].operand.dest, st, w)
  {
    NumberNamesBranch(b.code, 0, pc);
    assert HasLabel(b.code[pc].op);
    hide IsBranch;
    hide BranchTarget;
    hide Ordinal;
  }

  lemma StepIs<V, W, R>(m: Machine<V, W, R>, b: Body, pc: nat, st: seq<V>, w: W)
    requires BodyOk(b) && pc < |b.code|
    ensures var x := b.code[pc];
            Step(m, b, Running(pc, st, w)) ==
            Apply(b, pc, Execute(m, x.op, Argument(b.code, pc), PrefixAt(b.code, pc), Covers(b.clauses, |b.code|, pc), st, w))
  {
  }

  lemma OneStep<V, W, R>(m: Machine<V, W, R>, b: Body, s: State<V, W, R>)
    requires BodyOk(b)
    ensures Run(m, b, 1, s) == Step(m, b, s)
  {
    assert Run(m, b, 1, s) == Run(m, b, 0, Step(m, b, s));
  }

  lemma {:induction false} RunSplit<V, W, R>(m: Machine<V, W, R>, b: Body, n: nat, k: nat, s: State<V, W, R>)
    requires BodyOk(b)
    ensures Run(m, b, n + k, s) == Run(m, b, k, Run(m, b, n, s))
  {
    if n > 0 {
      RunSplit(m, b, n - 1, k, Step(m, b, s));
      assert n + k - 1 == n - 1 + k;
    }
  }
}
