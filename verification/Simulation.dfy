/**
 Call replacement preserves meaning: every run of the rewritten body follows a run of the original
 one and the other way round, exceptions and switches included (cor_profiler.cpp:823-971).
 */
module Simulation {
  import opened Bytes
  import opened Opcodes
  import opened Layout
  import opened Codec
  import opened Replacement
  import opened Regions
  import opened StackMachine

  function RewriteBody(b: Body, plan: Planner): (r: Body)
    requires BodyOk(b)
    ensures BodyOk(r) && |r.code| == Pos(b.code, plan, |b.code|)
  {
    RewriteClosed(b.code, plan);
    MovedClausesOk(b, plan);
    Body(Rewrite(b.code, plan), MoveClauses(b.code, plan, b.clauses))
  }

  lemma {:induction false} MovedClausesOk(b: Body, plan: Planner)
    requires BodyOk(b)
    ensures var cs := MoveClauses(b.code, plan, b.clauses);
            forall i :: 0 <= i < |cs| ==> ClauseOk(cs[i], Pos(b.code, plan, |b.code|))
  {
    hide Pos;
    forall i | 0 <= i < |b.clauses|
      ensures ClauseOk(MoveClause(b.code, plan, b.clauses[i]), Pos(b.code, plan, |b.code|))
    {
      var c := b.clauses[i];
      PosGrows(b.code, plan, c.tryBegin, |b.code|);
      PosGrows(b.code, plan, c.tryEnd, |b.code|);
      PosGrows(b.code, plan, c.handlerBegin, |b.code|);
      PosGrows(b.code, plan, c.handlerLast, |b.code|);
      if c.catch.FilterBegin? {
        PosGrows(b.code, plan, c.catch.pos, |b.code|);
      }
    }
  }

  // ---------- What is assumed of the wrappers ----------

  /** The arguments as the wrapper receives them: the last one boxed if planned, then three constants. */
  function Boxed<V, W, R>(m: Machine<V, W, R>, p: Plan, args: seq<V>): (r: seq<V>)
    ensures |r| == |args|
  {
    if p.box.Some? && args != [] then args[..|args| - 1] + [m.box(p.box.value, args[|args| - 1])] else args
  }

  function Extras<V, W, R>(m: Machine<V, W, R>, op: nat, p: Plan): (r: seq<V>)
    ensures |r| == 3
  {
    [m.int32(op), m.int32(p.token), m.int64(p.mvid)]
  }

  /** The wrapper's result stands for the target's result: equal, or equal once unboxed. */
  predicate Agrees<V(==), W(==), R>(m: Machine<V, W, R>, p: Plan, target: CallResult<V, W>, wrapper: CallResult<V, W>) {
    if target.Returned? && target.value.Some? && p.unbox.Some? then
      && wrapper.Returned? && wrapper.value.Some?
      && m.unbox(p.unbox.value, wrapper.value.value, wrapper.world) == target
    else
      wrapper == target && (target.Returned? && target.value.None? ==> p.unbox.None?)
  }

  /** The wrapper acts as the target on the same arguments plus three trailing constants. */
  ghost predicate Faithful<V(!new), W(!new), R>(m: Machine<V, W, R>, op: nat, token: int, p: Plan) {
    m.arity(p.wrapper) == m.arity(token) + 3 && ActsAs(m, op, token, p)
  }

  /** What a wrapper must do; that it takes three arguments more is what acceptance guarantees. */
  ghost predicate ActsAs<V(!new), W(!new), R>(m: Machine<V, W, R>, op: nat, token: int, p: Plan) {
    && (p.box.Some? ==> m.arity(token) >= 1)
    && forall args: seq<V>, w: W :: |args| == m.arity(token) ==>
         Agrees(m, p, m.invoke(op, token, None, args, w),
                m.invoke(CALL, p.wrapper, None, Boxed(m, p, args) + Extras(m, op, p), w))
  }

  function PlanAt(code: Code, plan: Planner, i: nat): Plan
    requires i < |code| && Chosen(code, plan, i)
  {
    plan(Immediate(code[i])).value
  }

  /** Every rewritten call has a faithful wrapper, carries no prefix and does not end a handler. */
  ghost predicate GoodSites<V(!new), W(!new), R>(m: Machine<V, W, R>, b: Body, plan: Planner) {
    forall i :: 0 <= i < |b.code| && Chosen(b.code, plan, i) ==>
      && Faithful(m, b.code[i].op, Immediate(b.code[i]), PlanAt(b.code, plan, i))
      && PrefixAt(b.code, i).None?
      && NotHandlerEnd(b.clauses, i)
  }

  /** The state of the rewritten body that corresponds to a state of the original. */
  function Img<V, W, R>(b: Body, plan: Planner, s: State<V, W, R>): State<V, W, R> {
    match s
    case Running(pc, st, w) => Running(Image(b.code, plan, pc), st, w)
    case _ => s
  }

  // ---------- Instructions that are not rewritten ----------

  lemma BlockEnd<L>(x: Instr<L>, p: Plan)
    ensures var b := Block(x, p); !IsPrefix(b[|b| - 1].op)
  {
    var b := Inserted(x, p);
    assert b[|b| - 1].op == if p.unbox.Some? then UNBOX_ANY else CALL;
    assert Block(x, p)[|b|] == b[|b| - 1];
  }

  lemma {:induction false} BeforeBlock(code: Code, plan: Planner, i: nat)
    requires i < |code|
    ensures var r := Rewrite(code, plan); var q := Pos(code, plan, i + 1);
            && 0 < q <= |r|
            && if Chosen(code, plan, i) then !IsPrefix(r[q - 1].op) && IsCall(code[i].op)
               else r[q - 1] == Relabel(code, plan, code[i])
  {
    var k := |BlockAt(code, plan, i)| - 1;
    RewriteAt(code, plan, i, k);
    assert Pos(code, plan, i + 1) == Pos(code, plan, i) + k + 1;
    if Chosen(code, plan, i) {
      BlockEnd(code[i], plan(Immediate(code[i])).value);
    }
    hide Pos;
    hide Rewrite;
    hide Block;
    hide IsPrefix;
  }

  lemma {:induction false} PrefixKept(code: Code, plan: Planner, i: nat)
    requires i < |code| && !Chosen(code, plan, i)
    ensures Pos(code, plan, i) <= |Rewrite(code, plan)|
    ensures PrefixAt(Rewrite(code, plan), Pos(code, plan, i)) == PrefixAt(code, i)
  {
    if i > 0 {
      hide Pos;
      hide Rewrite;
      hide Chosen;
      BeforeBlock(code, plan, i - 1);
    }
  }

  /** An instruction that is not rewritten occupies one position, with its label following its target. */
  lemma {:induction false} UnchosenAt(code: Code, plan: Planner, i: nat)
    requires i < |code| && !Chosen(code, plan, i)
    ensures Pos(code, plan, i) < |Rewrite(code, plan)| == Pos(code, plan, |code|)
    ensures Rewrite(code, plan)[Pos(code, plan, i)] == Relabel(code, plan, code[i])
    ensures Pos(code, plan, i + 1) == Pos(code, plan, i) + 1
  {
    RewriteAt(code, plan, i, 0);
  }

  lemma {:induction false} EntryAt(code: Code, plan: Planner, q: nat)
    requires q <= |code|
    ensures Pos(code, plan, q) <= |Rewrite(code, plan)| == Pos(code, plan, |code|)
    ensures q < |code| ==>
              && Pos(code, plan, q) < |Rewrite(code, plan)|
              && var x := Rewrite(code, plan)[Pos(code, plan, q)];
              && (x.op == SWITCH_ARG <==> code[q].op == SWITCH_ARG)
              && (x.op == SWITCH_ARG ==>
                    x == Relabel(code, plan, code[q]) && Pos(code, plan, q + 1) == Pos(code, plan, q) + 1)
  {
    if q < |code| {
      RewriteAt(code, plan, q, 0);
    }
  }

  lemma {:induction false} SkipEntriesKept(code: Code, plan: Planner, q: nat)
    requires q <= |code|
    ensures Pos(code, plan, q) <= |Rewrite(code, plan)|
    ensures SkipEntries(Rewrite(code, plan), Pos(code, plan, q)) == Pos(code, plan, SkipEntries(code, q))
    decreases |code| - q
  {
    hide Pos;
    hide Rewrite;
    EntryAt(code, plan, q);
    if q < |code| && code[q].op == SWITCH_ARG {
      SkipEntriesKept(code, plan, q + 1);
    }
  }

  lemma {:induction false} EntryTargetKept(code: Code, plan: Planner, q: nat, k: nat)
    requires Closed(code) && Closed(Rewrite(code, plan)) && q <= |code|
    ensures Pos(code, plan, q) <= |Rewrite(code, plan)|
    ensures var t := EntryTarget(code, q, k); var t' := EntryTarget(Rewrite(code, plan), Pos(code, plan, q), k);
            && (t.Some? <==> t'.Some?)
            && (t.Some? ==> t.value <= |code| && t'.value == Pos(code, plan, t.value))
    decreases k
  {
    hide Pos;
    hide Rewrite;
    EntryAt(code, plan, q);
    if q < |code| && code[q].op == SWITCH_ARG && k > 0 {
      EntryTargetKept(code, plan, q + 1, k - 1);
    }
  }

  lemma BlockHasNoBranch(code: Code, plan: Planner, i: nat, k: nat)
    requires i < |code| && Chosen(code, plan, i) && k < |BlockAt(code, plan, i)|
    ensures Pos(code, plan, i) + k < |Rewrite(code, plan)| && !IsBranch(Rewrite(code, plan)[Pos(code, plan, i) + k].op)
    ensures !IsBranch(code[i].op)
  {
    hide *;
    RewriteAt(code, plan, i, k);
    ChosenBlock(code, plan, i);
    BlockHasNoLabel(code[i], PlanAt(code, plan, i), k);
    RelabelKeeps(code, plan, BlockAt(code, plan, i)[k]);
    ChosenIsCall(code, plan, i);
    CallIsNoBranch(code[i].op);
    NoLabelNoBranch(BlockAt(code, plan, i)[k].op);
  }

  lemma NoLabelNoBranch(op: nat)
    requires !HasLabel(op)
    ensures !IsBranch(op)
  {
  }

  lemma CallIsNoBranch(op: nat)
    requires IsCall(op)
    ensures !IsBranch(op)
  {
  }

  lemma {:induction false} NoBranchCount(code: Code, q: nat, k: nat)
    requires q + k <= |code| && forall p :: q <= p < q + k ==> !IsBranch(code[p].op)
    ensures Ordinal(code, q + k) == Ordinal(code, q)
    decreases k
  {
    hide IsBranch;
    if k > 0 {
      NoBranchCount(code, q, k - 1);
    }
  }

  lemma {:induction false} NoBranchTarget(code: Code, q: nat, k: nat, j: nat)
    requires Closed(code) && q + k <= |code| && forall p :: q <= p < q + k ==> !IsBranch(code[p].op)
    ensures BranchTarget(code, q, j) == BranchTarget(code, q + k, j)
    decreases k
  {
    hide IsBranch;
    hide Closed;
    if k > 0 {
      NoBranchTarget(code, q + 1, k - 1, j);
    }
  }

  /** The positions of a rewritten call, none of them a branch. */
  lemma {:induction false} BlockQuiet(code: Code, plan: Planner, i: nat)
    requires i < |code| && Chosen(code, plan, i)
    ensures var r := Rewrite(code, plan); var q := Pos(code, plan, i); var k := |BlockAt(code, plan, i)|;
            && q + k == Pos(code, plan, i + 1) <= |r|
            && (forall p :: q <= p < q + k ==> !IsBranch(r[p].op))
            && !IsBranch(code[i].op)
  {
    var r, q, k := Rewrite(code, plan), Pos(code, plan, i), |BlockAt(code, plan, i)|;
    PosNext(code, plan, i);
    hide *;
    BlockHasNoBranch(code, plan, i, k - 1);
    forall p | q <= p < q + k
      ensures !IsBranch(r[p].op)
    {
      BlockHasNoBranch(code, plan, i, p - q);
    }
  }

  lemma OrdinalNext(code: Code, i: nat)
    requires i < |code|
    ensures Ordinal(code, i + 1) == Ordinal(code, i) + if IsBranch(code[i].op) then 1 else 0
  {
  }

  lemma Start(code: Code, plan: Planner)
    ensures Pos(code, plan, 0) == 0 && Ordinal(code, 0) == 0 && Ordinal(Rewrite(code, plan), 0) == 0
  {
  }

  lemma RelabelKeeps(code: Code, plan: Planner, x: Instr<nat>)
    ensures Relabel(code, plan, x).op == x.op && Immediate(Relabel(code, plan, x)) == Immediate(x)
    ensures x.operand.Label? && x.operand.dest <= |code| ==>
              Relabel(code, plan, x).operand == Label(Pos(code, plan, x.operand.dest))
  {
  }

  /** Branches keep their numbers. */
  lemma {:induction false} OrdinalKept(code: Code, plan: Planner, i: nat)
    requires i <= |code|
    ensures Pos(code, plan, i) <= |Rewrite(code, plan)|
    ensures Ordinal(Rewrite(code, plan), Pos(code, plan, i)) == Ordinal(code, i)
  {
    hide *;
    if i == 0 {
      Start(code, plan);
    } else {
      OrdinalKept(code, plan, i - 1);
      OrdinalNext(code, i - 1);
      if Chosen(code, plan, i - 1) {
        BlockQuiet(code, plan, i - 1);
        NoBranchCount(Rewrite(code, plan), Pos(code, plan, i - 1), |BlockAt(code, plan, i - 1)|);
      } else {
        UnchosenAt(code, plan, i - 1);
        RelabelKeeps(code, plan, code[i - 1]);
        OrdinalNext(Rewrite(code, plan), Pos(code, plan, i - 1));
      }
    }
  }

  lemma {:induction false} ArgumentKept(code: Code, plan: Planner, i: nat)
    requires i < |code| && !Chosen(code, plan, i)
    ensures Pos(code, plan, i) < |Rewrite(code, plan)|
    ensures Argument(Rewrite(code, plan), Pos(code, plan, i)) == Argument(code, i)
  {
    UnchosenAt(code, plan, i);
    OrdinalKept(code, plan, i);
    RelabelKeeps(code, plan, code[i]);
    hide Rewrite;
    hide Pos;
    hide Ordinal;
    hide IsBranch;
    hide Relabel;
  }

  lemma BranchTargetNext(code: Code, q: nat, j: nat)
    requires Closed(code) && q < |code|
    ensures BranchTarget(code, q, j) ==
            if !IsBranch(code[q].op) then BranchTarget(code, q + 1, j)
            else if j == 0 then Some(code[q].operand.dest) else BranchTarget(code, q + 1, j - 1)
    ensures IsBranch(code[q].op) ==> code[q].operand.Label? && code[q].operand.dest <= |code|
  {
  }

  lemma BranchTargetEnd(code: Code, j: nat)
    requires Closed(code)
    ensures BranchTarget(code, |code|, j) == None
  {
  }

  /** And their targets move with their nodes. */
  lemma {:induction false} BranchTargetKept(code: Code, plan: Planner, q: nat, j: nat)
    requires Closed(code) && Closed(Rewrite(code, plan)) && q <= |code|
    ensures Pos(code, plan, q) <= |Rewrite(code, plan)|
    ensures var t := BranchTarget(code, q, j); var t' := BranchTarget(Rewrite(code, plan), Pos(code, plan, q), j);
            && (t.Some? <==> t'.Some?)
            && (t.Some? ==> t.value <= |code| && t'.value == Pos(code, plan, t.value))
    decreases |code| - q
  {
    hide *;
    EntryAt(code, plan, q);
    var r := Rewrite(code, plan);
    if q == |code| {
      BranchTargetEnd(code, j);
      BranchTargetEnd(r, j);
    } else {
      BranchTargetNext(code, q, j);
      if Chosen(code, plan, q) {
        BlockQuiet(code, plan, q);
        NoBranchTarget(r, Pos(code, plan, q), |BlockAt(code, plan, q)|, j);
        BranchTargetKept(code, plan, q + 1, j);
      } else {
        UnchosenAt(code, plan, q);
        RelabelKeeps(code, plan, code[q]);
        BranchTargetNext(r, Pos(code, plan, q), j);
        if !IsBranch(code[q].op) {
          BranchTargetKept(code, plan, q + 1, j);
        } else if j > 0 {
          BranchTargetKept(code, plan, q + 1, j - 1);
        }
      }
    }
  }

  lemma ResumeKept<V, W, R>(b: Body, plan: Planner, i: nat, j: nat, st: seq<V>, w: W)
    requires BodyOk(b) && i < |b.code|
    ensures Pos(b.code, plan, i) < |RewriteBody(b, plan).code|
    ensures Apply<V, W, R>(RewriteBody(b, plan), Pos(b.code, plan, i), Resume(j, st, w)) == Img(b, plan, Apply(b, i, Resume(j, st, w)))
  {
    BodyParts(b, plan);
    EntryAt(b.code, plan, i);
    Start(b.code, plan);
    RewriteClosed(b.code, plan);
    BranchTargetKept(b.code, plan, 0, j);
    hide Pos;
    hide Rewrite;
    hide MoveClauses;
    hide BranchTarget;
    hide KindOf;
  }

  lemma TransferKept<V, W, R>(b: Body, plan: Planner, d: Dispatch<V, W, R>)
    requires BodyOk(b)
    ensures Transfer(RewriteBody(b, plan), d) == Img(b, plan, Transfer(b, d))
  {
    hide Pos;
    hide Closed;
  }

  lemma FallKept<V, W, R>(b: Body, plan: Planner, i: nat, st: seq<V>, w: W)
    requires BodyOk(b) && i < |b.code| && !Chosen(b.code, plan, i)
    ensures Pos(b.code, plan, i) < |RewriteBody(b, plan).code|
    ensures Apply<V, W, R>(RewriteBody(b, plan), Pos(b.code, plan, i), Fall(st, w)) == Img(b, plan, Apply(b, i, Fall(st, w)))
  {
    hide Pos;
    hide Rewrite;
    hide MoveClauses;
    hide Chosen;
    hide KindOf;
    UnchosenAt(b.code, plan, i);
    SkipEntriesKept(b.code, plan, i + 1);
  }

  lemma CaseKept<V, W, R>(b: Body, plan: Planner, i: nat, k: nat, st: seq<V>, w: W)
    requires BodyOk(b) && i < |b.code| && !Chosen(b.code, plan, i)
    ensures Pos(b.code, plan, i) < |RewriteBody(b, plan).code|
    ensures Apply<V, W, R>(RewriteBody(b, plan), Pos(b.code, plan, i), Case(k, st, w)) == Img(b, plan, Apply(b, i, Case(k, st, w)))
  {
    hide Pos;
    hide Rewrite;
    hide MoveClauses;
    hide Chosen;
    hide KindOf;
    UnchosenAt(b.code, plan, i);
    RewriteClosed(b.code, plan);
    EntryTargetKept(b.code, plan, i + 1, k);
  }

  /** Outside the rewritten calls, whatever an instruction does leads to corresponding states. */
  lemma {:induction false} ApplyKept<V, W, R>(b: Body, plan: Planner, i: nat, o: Outcome<V, W, R>)
    requires BodyOk(b) && i < |b.code| && !Chosen(b.code, plan, i)
    ensures Pos(b.code, plan, i) < |RewriteBody(b, plan).code|
    ensures Apply(RewriteBody(b, plan), Pos(b.code, plan, i), o) == Img(b, plan, Apply(b, i, o))
  {
    RewriteAt(b.code, plan, i, 0);
    if o.Fall? {
      FallKept<V, W, R>(b, plan, i, o.stack, o.world);
    } else if o.Case? {
      CaseKept<V, W, R>(b, plan, i, o.k, o.stack, o.world);
    } else if o.Resume? {
      ResumeKept<V, W, R>(b, plan, i, o.j, o.stack, o.world);
    } else if o.Enter? {
      TransferKept(b, plan, o.dispatch);
    }
    hide Pos;
    hide MoveClauses;
    hide Transfer;
    hide SkipEntries;
    hide EntryTarget;
    hide BranchTarget;
  }

  lemma {:induction false} UnchosenStep<V, W, R>(m: Machine<V, W, R>, b: Body, plan: Planner, s: State<V, W, R>)
    requires BodyOk(b) && s.Running? && s.pc < |b.code| && !Chosen(b.code, plan, s.pc)
    ensures Step(m, RewriteBody(b, plan), Img(b, plan, s)) == Img(b, plan, Step(m, b, s))
  {
    var i, code, b' := s.pc, b.code, RewriteBody(b, plan);
    RewriteAt(code, plan, i, 0);
    PrefixKept(code, plan, i);
    CoversKept(code, plan, b.clauses, i, 0);
    ArgumentKept(code, plan, i);
    var x := code[i];
    var o := Execute(m, x.op, Argument(code, i), PrefixAt(code, i), Covers(b.clauses, |code|, i), s.stack, s.world);
    ApplyKept(b, plan, i, o);
    hide Argument;
    hide Apply;
    hide Execute;
    hide PrefixAt;
    hide Covers;
    hide Pos;
    assert Image(code, plan, i) == Pos(code, plan, i);
  }

  // ---------- Rewritten calls ----------

  /** How many instructions of a block precede the wrapper call. */
  function CallAt(p: Plan): (k: nat)
    ensures 4 <= k <= 5
  {
    if p.box.Some? then 5 else 4
  }

  lemma BlockLayout<L>(x: Instr<L>, p: Plan)
    ensures var b := Block(x, p); var c := CallAt(p);
            && |b| == c + 1 + (if p.unbox.Some? then 1 else 0)
            && b[0].op == NOP
            && (p.box.Some? ==> b[1] == Instr(BOX, Imm(p.box.value)) && b[1].op == BOX)
            && b[c - 3] == LoadInt32(x.op) && b[c - 2] == LoadInt32(p.token)
            && b[c - 1] == Instr(LDC_I8, Imm(p.mvid)) && b[c] == Instr(CALL, Imm(p.wrapper))
            && (p.unbox.Some? ==> b[c + 1] == Instr(UNBOX_ANY, Imm(p.unbox.value)))
  {
    hide LoadInt32;
    var mid: seq<Instr<L>> := [LoadInt32(x.op), LoadInt32(p.token), Instr(LDC_I8, Imm(p.mvid)), Instr(CALL, Imm(p.wrapper))];
    var b := Block(x, p);
    assert b == [x.(op := NOP)] + BoxCode(p) + mid + UnboxCode(p);
    if p.box.Some? {
      assert b[1] == BoxCode<L>(p)[0];
    }
    assert forall j :: 0 <= j < 4 ==> b[CallAt(p) - 3 + j] == mid[j];
    if p.unbox.Some? {
      assert b[CallAt(p) + 1] == UnboxCode<L>(p)[0];
    }
  }

  lemma ImmediateIs<L>(op: nat, v: int)
    ensures Immediate<L>(Instr(op, Imm(v))) == v
  {
  }

  /** The instructions that blocks are made of. */
  predicate IsBlockOp(op: nat) {
    || op == NOP || op == BOX || op == LDC_I8 || op == CALL || op == UNBOX_ANY
    || op == LDC_I4_S || op == LDC_I4 || LDC_I4_0 <= op <= LDC_I4_0 + 8
  }

  lemma BlockOps<L>(x: Instr<L>, p: Plan, k: nat)
    requires k < |Block(x, p)|
    ensures IsBlockOp(Block(x, p)[k].op) && (k > 0 ==> Block(x, p)[k].operand.Imm?)
  {
    BlockLayout(x, p);
  }

  function Straight<V, W, R>(b: Body, pc: nat, o: Outcome<V, W, R>): State<V, W, R> {
    match o
    case Fall(st, w) => Running(pc + 1, st, w)
    case Enter(d) => Transfer(b, d)
    case _ => Wrong
  }

  lemma StraightOps<V, W, R>(m: Machine<V, W, R>, b: Body, pc: nat, st: seq<V>, w: W)
    requires BodyOk(b) && pc < |b.code| && IsBlockOp(b.code[pc].op)
    requires b.code[pc].op == CALL ==> PrefixAt(b.code, pc).None?
    ensures var x := b.code[pc];
            Step(m, b, Running(pc, st, w)) ==
            Straight(b, pc, Execute(m, x.op, Immediate(x), None, Covers(b.clauses, |b.code|, pc), st, w))
  {
    hide Covers;
    hide Transfer;
    hide BodyOk;
  }

  lemma {:induction false} BlockInstr(code: Code, plan: Planner, i: nat, k: nat)
    requires i < |code| && Chosen(code, plan, i) && k < |Block(code[i], PlanAt(code, plan, i))|
    ensures var r := Rewrite(code, plan); var q := Pos(code, plan, i) + k;
            var x := Block(code[i], PlanAt(code, plan, i))[k];
            q < |r| && r[q].op == x.op && Immediate(r[q]) == Immediate(x) && IsBlockOp(x.op)
  {
    assert BlockAt(code, plan, i) == Block(code[i], PlanAt(code, plan, i));
    RewriteAt(code, plan, i, k);
    hide Pos;
    hide Rewrite;
    hide Block;
    BlockOps(code[i], PlanAt(code, plan, i), k);
  }

  lemma {:induction false} BlockCode(code: Code, plan: Planner, i: nat, k: nat)
    requires i < |code| && Chosen(code, plan, i) && k < |Block(code[i], PlanAt(code, plan, i))|
    ensures var r := Rewrite(code, plan); var q := Pos(code, plan, i) + k;
            var x := Block(code[i], PlanAt(code, plan, i))[k];
            && q < |r| && r[q].op == x.op && Immediate(r[q]) == Immediate(x) && IsBlockOp(x.op)
            && (x.op == CALL ==> PrefixAt(r, q).None?)
  {
    assert Block(code[i], PlanAt(code, plan, i))[0].op == NOP;
    hide Pos;
    hide Rewrite;
    hide Block;
    hide Chosen;
    hide PlanAt;
    BlockInstr(code, plan, i, k);
    if k > 0 {
      BlockInstr(code, plan, i, k - 1);
    }
  }

  lemma BodyParts(b: Body, plan: Planner)
    requires BodyOk(b)
    ensures RewriteBody(b, plan).code == Rewrite(b.code, plan)
    ensures RewriteBody(b, plan).clauses == MoveClauses(b.code, plan, b.clauses)
    ensures forall j :: 0 <= j < |b.clauses| ==> ClauseOk(b.clauses[j], |b.code|)
  {
    hide Rewrite;
    hide MoveClauses;
    hide ClauseOk;
  }

  lemma ChosenBlock(code: Code, plan: Planner, i: nat)
    requires i < |code| && Chosen(code, plan, i)
    ensures BlockAt(code, plan, i) == Block(code[i], PlanAt(code, plan, i))
  {
    hide Block;
  }

  /** One step inside a rewritten call: no jumps, no prefix, and the regions of the original call. */
  lemma {:induction false} BlockStep<V, W, R>(m: Machine<V, W, R>, b: Body, plan: Planner, i: nat, k: nat, st: seq<V>, w: W)
    requires BodyOk(b) && i < |b.code| && Chosen(b.code, plan, i) && NotHandlerEnd(b.clauses, i)
    requires k < |Block(b.code[i], PlanAt(b.code, plan, i))|
    ensures var b' := RewriteBody(b, plan); var q := Pos(b.code, plan, i) + k;
            var x := Block(b.code[i], PlanAt(b.code, plan, i))[k];
            && q < |b'.code|
            && Step(m, b', Running(q, st, w)) ==
               Straight(b', q, Execute(m, x.op, Immediate(x), None, Covers(b.clauses, |b.code|, i), st, w))
  {
    hide *;
    var b' := RewriteBody(b, plan);
    BodyParts(b, plan);
    ChosenBlock(b.code, plan, i);
    BlockCode(b.code, plan, i, k);
    CoversKept(b.code, plan, b.clauses, i, k);
    StraightOps(m, b', Pos(b.code, plan, i) + k, st, w);
  }

  /** The evaluation stack after `k` instructions of a block, up to the wrapper call. */
  function BlockStack<V, W, R>(m: Machine<V, W, R>, op: nat, p: Plan, st: seq<V>, k: nat): (r: seq<V>)
    requires k <= CallAt(p)
    ensures |r| <= |st| + 3
  {
    if k < CallAt(p) - 3 then st else Boxed(m, p, st) + Extras(m, op, p)[..k - (CallAt(p) - 3)]
  }

  lemma {:induction false} BlockEffect<V, W, R>(m: Machine<V, W, R>, x: Instr<nat>, p: Plan, cover: seq<Cover>, k: nat, st: seq<V>, w: W)
    requires k < CallAt(p) && (p.box.Some? ==> st != [])
    ensures k < |Block(x, p)|
    ensures var y := Block(x, p)[k];
            Execute(m, y.op, Immediate(y), None, cover, BlockStack(m, x.op, p, st, k), w)
            == Fall(BlockStack(m, x.op, p, st, k + 1), w)
  {
    var c := CallAt(p);
    BlockLayout(x, p);
    LoadInt32Loads(x.op);
    LoadInt32Loads(p.token);
    hide Block;
    hide LoadInt32;
    var e := Extras(m, x.op, p);
    if k < c - 3 {
      assert BlockStack(m, x.op, p, st, k + 1) == if k == 0 && p.box.Some? then st else Boxed(m, p, st) + [];
    } else {
      var j := k - (c - 3);
      assert e[..j + 1] == e[..j] + [e[j]];
      assert Boxed(m, p, st) + e[..j + 1] == (Boxed(m, p, st) + e[..j]) + [e[j]];
    }
  }

  lemma {:induction false} BlockAdvance<V, W, R>(m: Machine<V, W, R>, b: Body, plan: Planner, i: nat, k: nat, st: seq<V>, w: W)
    requires BodyOk(b) && i < |b.code| && Chosen(b.code, plan, i) && NotHandlerEnd(b.clauses, i)
    requires k < CallAt(PlanAt(b.code, plan, i))
    requires PlanAt(b.code, plan, i).box.Some? ==> st != []
    ensures var p := PlanAt(b.code, plan, i); var op := b.code[i].op; var q := Pos(b.code, plan, i) + k;
            Step(m, RewriteBody(b, plan), Running(q, BlockStack(m, op, p, st, k), w)) ==
            Running(q + 1, BlockStack(m, op, p, st, k + 1), w)
  {
    var x, p := b.code[i], PlanAt(b.code, plan, i);
    hide Step;
    hide RewriteBody;
    hide Chosen;
    hide PlanAt;
    hide Block;
    hide Pos;
    hide Covers;
    hide Execute;
    hide BlockStack;
    hide BodyOk;
    BlockEffect(m, x, p, Covers(b.clauses, |b.code|, i), k, st, w);
    BlockStep(m, b, plan, i, k, BlockStack(m, x.op, p, st, k), w);
  }

  lemma {:induction false} RunLast<V, W, R>(m: Machine<V, W, R>, b: Body, n: nat, s: State<V, W, R>)
    requires BodyOk(b)
    ensures Run(m, b, n + 1, s) == Step(m, b, Run(m, b, n, s))
  {
    RunSplit(m, b, n, 1, s);
    assert Run(m, b, 1, Run(m, b, n, s)) == Run(m, b, 0, Step(m, b, Run(m, b, n, s)));
  }

  lemma NothingPushed<V, W, R>(m: Machine<V, W, R>, op: nat, p: Plan, st: seq<V>)
    ensures BlockStack(m, op, p, st, 0) == st
  {
  }

  /** The first instructions of a block push the wrapper's arguments and change nothing else. */
  lemma {:induction false} BlockRun<V, W, R>(m: Machine<V, W, R>, b: Body, plan: Planner, i: nat, k: nat, st: seq<V>, w: W)
    requires BodyOk(b) && i < |b.code| && Chosen(b.code, plan, i) && NotHandlerEnd(b.clauses, i)
    requires k <= CallAt(PlanAt(b.code, plan, i))
    requires PlanAt(b.code, plan, i).box.Some? ==> st != []
    ensures Run(m, RewriteBody(b, plan), k, Running(Pos(b.code, plan, i), st, w)) ==
            Running(Pos(b.code, plan, i) + k, BlockStack(m, b.code[i].op, PlanAt(b.code, plan, i), st, k), w)
  {
    hide *;
    if k == 0 {
      RunZero(m, RewriteBody(b, plan), Running(Pos(b.code, plan, i), st, w));
      NothingPushed(m, b.code[i].op, PlanAt(b.code, plan, i), st);
    } else {
      BlockRun(m, b, plan, i, k - 1, st, w);
      RunLast(m, RewriteBody(b, plan), k - 1, Running(Pos(b.code, plan, i), st, w));
      BlockAdvance(m, b, plan, i, k - 1, st, w);
    }
  }

  /** What the original call does to the machine. */
  function CallOutcome<V, W, R>(m: Machine<V, W, R>, op: nat, token: int, cover: seq<Cover>, st: seq<V>, w: W): Outcome<V, W, R>
    requires |st| >= m.arity(token)
  {
    var below := |st| - m.arity(token);
    Deliver(m, cover, st[..below], m.invoke(op, token, None, st[below..], w))
  }

  lemma BoxedTop<V, W, R>(m: Machine<V, W, R>, p: Plan, st: seq<V>, below: nat)
    requires below <= |st| && (p.box.Some? ==> below < |st|)
    ensures |Boxed(m, p, st)| == |st| && Boxed(m, p, st)[..below] == st[..below]
    ensures Boxed(m, p, st)[below..] == Boxed(m, p, st[below..])
  {
    if p.box.Some? {
      var args, n := st[below..], |st| - 1;
      assert args[..|args| - 1] == st[below..n] && args[|args| - 1] == st[n];
      assert (st[..n] + [m.box(p.box.value, st[n])])[below..] == st[below..n] + [m.box(p.box.value, st[n])];
    }
  }

  /** The wrapper call, and the unboxing after it, end as the original call does. */
  lemma {:induction false} WrapperOutcome<V(!new), W(!new), R>(m: Machine<V, W, R>, op: nat, token: int, p: Plan, cover: seq<Cover>, st: seq<V>, w: W)
    requires Faithful(m, op, token, p) && |st| >= m.arity(token)
    ensures var r := m.invoke(op, token, None, st[|st| - m.arity(token)..], w);
            var o := Execute(m, CALL, p.wrapper, None, cover, BlockStack(m, op, p, st, CallAt(p)), w);
            var want := CallOutcome(m, op, token, cover, st, w);
            if p.unbox.Some? && r.Returned? then
              && o.Fall? && o.stack != [] && |o.stack| <= |st| + 3
              && Execute(m, UNBOX_ANY, p.unbox.value, None, cover, o.stack, o.world) == want
            else o == want
  {
    var n := m.arity(token);
    var below := |st| - n;
    var args := st[below..];
    var full := BlockStack(m, op, p, st, CallAt(p));
    assert full == Boxed(m, p, st) + Extras(m, op, p);
    assert full[..below] == st[..below];
    BoxedTop(m, p, st, below);
    assert full[below..] == Boxed(m, p, args) + Extras(m, op, p);
    var r := m.invoke(op, token, None, args, w);
    var r' := m.invoke(CALL, p.wrapper, None, full[below..], w);
    assert Agrees(m, p, r, r');
    if p.unbox.Some? && r.Returned? {
      assert r.value.Some?;
      var top := st[..below] + [r'.value.value];
      assert top[..|top| - 1] == st[..below];
    }
  }

  function Args<V, W, R>(m: Machine<V, W, R>, token: int, st: seq<V>): Option<seq<V>> {
    if |st| < m.arity(token) then None else Some(st[|st| - m.arity(token)..])
  }

  /** How many steps the rewritten body takes for one step of the original. */
  function Cost<V, W, R>(m: Machine<V, W, R>, b: Body, plan: Planner, s: State<V, W, R>): (n: nat)
    ensures 1 <= n <= 7
  {
    if s.Running? && s.pc < |b.code| && Chosen(b.code, plan, s.pc) then
      var x, p := b.code[s.pc], PlanAt(b.code, plan, s.pc);
      var args := Args(m, Immediate(x), s.stack);
      CallAt(p) + 1 +
      if p.unbox.Some? && args.Some? && m.invoke(x.op, Immediate(x), None, args.value, s.world).Returned? then 1 else 0
    else 1
  }

  lemma OriginalCall<V, W, R>(m: Machine<V, W, R>, b: Body, i: nat, st: seq<V>, w: W)
    requires BodyOk(b) && i < |b.code| && IsCall(b.code[i].op) && PrefixAt(b.code, i).None?
    ensures var x := b.code[i];
            Step(m, b, Running(i, st, w)) ==
            Straight(b, i, if |st| < m.arity(Immediate(x)) then Stuck
                           else CallOutcome(m, x.op, Immediate(x), Covers(b.clauses, |b.code|, i), st, w))
  {
    hide Covers;
    hide Transfer;
  }

  lemma {:induction false} WrongStays<V, W, R>(m: Machine<V, W, R>, b: Body, n: nat)
    requires BodyOk(b)
    ensures Run(m, b, n, Wrong) == Wrong
  {
    if n > 0 {
      WrongStays(m, b, n - 1);
    }
  }

  lemma RunZero<V, W, R>(m: Machine<V, W, R>, b: Body, s: State<V, W, R>)
    requires BodyOk(b)
    ensures Run(m, b, 0, s) == s
  {
  }

  lemma {:induction false} WrapperStep<V, W, R>(m: Machine<V, W, R>, b: Body, plan: Planner, i: nat, st: seq<V>, w: W)
    requires BodyOk(b) && i < |b.code| && Chosen(b.code, plan, i) && NotHandlerEnd(b.clauses, i)
    ensures var p := PlanAt(b.code, plan, i); var b' := RewriteBody(b, plan);
            var q := Pos(b.code, plan, i) + CallAt(p);
            Step(m, b', Running(q, st, w)) ==
            Straight(b', q, Execute(m, CALL, p.wrapper, None, Covers(b.clauses, |b.code|, i), st, w))
  {
    hide *;
    BlockLayout(b.code[i], PlanAt(b.code, plan, i));
    ImmediateIs<nat>(CALL, PlanAt(b.code, plan, i).wrapper);
    BlockStep(m, b, plan, i, CallAt(PlanAt(b.code, plan, i)), st, w);
  }

  lemma {:induction false} UnboxStep<V, W, R>(m: Machine<V, W, R>, b: Body, plan: Planner, i: nat, st: seq<V>, w: W)
    requires BodyOk(b) && i < |b.code| && Chosen(b.code, plan, i) && NotHandlerEnd(b.clauses, i) && PlanAt(b.code, plan, i).unbox.Some?
    ensures var p := PlanAt(b.code, plan, i); var b' := RewriteBody(b, plan);
            var q := Pos(b.code, plan, i) + CallAt(p) + 1;
            Step(m, b', Running(q, st, w)) ==
            Straight(b', q, Execute(m, UNBOX_ANY, p.unbox.value, None, Covers(b.clauses, |b.code|, i), st, w))
  {
    hide *;
    BlockLayout(b.code[i], PlanAt(b.code, plan, i));
    ImmediateIs<nat>(UNBOX_ANY, PlanAt(b.code, plan, i).unbox.value);
    BlockStep(m, b, plan, i, CallAt(PlanAt(b.code, plan, i)) + 1, st, w);
  }

  /** Running a block up to and including the wrapper call. */
  lemma {:induction false} WrapperRun<V, W, R>(m: Machine<V, W, R>, b: Body, plan: Planner, i: nat, st: seq<V>, w: W)
    requires BodyOk(b) && i < |b.code| && Chosen(b.code, plan, i) && NotHandlerEnd(b.clauses, i) && (PlanAt(b.code, plan, i).box.Some? ==> st != [])
    ensures var p := PlanAt(b.code, plan, i); var b' := RewriteBody(b, plan); var c := CallAt(p);
            var full := BlockStack(m, b.code[i].op, p, st, c);
            Run(m, b', c + 1, Running(Pos(b.code, plan, i), st, w)) ==
            Straight(b', Pos(b.code, plan, i) + c,
                     Execute(m, CALL, p.wrapper, None, Covers(b.clauses, |b.code|, i), full, w))
  {
    hide *;
    var p, b' := PlanAt(b.code, plan, i), RewriteBody(b, plan);
    BlockRun(m, b, plan, i, CallAt(p), st, w);
    WrapperStep(m, b, plan, i, BlockStack(m, b.code[i].op, p, st, CallAt(p)), w);
    RunLast(m, b', CallAt(p), Running(Pos(b.code, plan, i), st, w));
  }

  lemma {:induction false} EmptyBoxSteps<V, W, R>(m: Machine<V, W, R>, b: Body, plan: Planner, i: nat, w: W)
    requires BodyOk(b) && i < |b.code| && Chosen(b.code, plan, i) && NotHandlerEnd(b.clauses, i) && PlanAt(b.code, plan, i).box.Some?
    ensures var q := Pos(b.code, plan, i); var b' := RewriteBody(b, plan);
            && Step<V, W, R>(m, b', Running(q, [], w)) == Running(q + 1, [], w)
            && Step<V, W, R>(m, b', Running(q + 1, [], w)) == Wrong
  {
    hide *;
    BlockLayout(b.code[i], PlanAt(b.code, plan, i));
    BlockStep(m, b, plan, i, 0, [], w);
    BlockStep(m, b, plan, i, 1, [], w);
    var block := Block(b.code[i], PlanAt(b.code, plan, i));
    BoxOnEmpty(m, RewriteBody(b, plan), Pos(b.code, plan, i), block[0], block[1], Covers(b.clauses, |b.code|, i), w);
  }

  lemma BoxOnEmpty<V, W, R>(m: Machine<V, W, R>, b: Body, q: nat, nop: Instr<nat>, box: Instr<nat>, cover: seq<Cover>, w: W)
    requires nop.op == NOP && box.op == BOX
    ensures Straight<V, W, R>(b, q, Execute(m, nop.op, Immediate(nop), None, cover, [], w)) == Running(q + 1, [], w)
    ensures Straight<V, W, R>(b, q + 1, Execute(m, box.op, Immediate(box), None, cover, [], w)) == Wrong
  {
  }

  /** Boxing with an empty stack goes wrong at the second instruction. */
  lemma {:induction false} EmptyBoxRun<V, W, R>(m: Machine<V, W, R>, b: Body, plan: Planner, i: nat, j: nat, w: W)
    requires BodyOk(b) && i < |b.code| && Chosen(b.code, plan, i) && NotHandlerEnd(b.clauses, i) && PlanAt(b.code, plan, i).box.Some? && j > 0
    ensures Run<V, W, R>(m, RewriteBody(b, plan), j, Running(Pos(b.code, plan, i), [], w)) ==
            if j == 1 then Running(Pos(b.code, plan, i) + 1, [], w) else Wrong
  {
    var b' := RewriteBody(b, plan);
    var start: State<V, W, R> := Running(Pos(b.code, plan, i), [], w);
    hide *;
    EmptyBoxSteps(m, b, plan, i, w);
    RunZero(m, b', start);
    RunLast(m, b', 0, start);
    if j >= 2 {
      RunLast(m, b', 1, start);
      RunSplit(m, b', 2, j - 2, start);
      WrongStays(m, b', j - 2);
    }
  }

  /** With too few arguments on the stack, both bodies go wrong. */
  lemma {:induction false} UnderflowRun<V(!new), W(!new), R>(m: Machine<V, W, R>, b: Body, plan: Planner, i: nat, st: seq<V>, w: W)
    requires BodyOk(b) && i < |b.code| && Chosen(b.code, plan, i) && NotHandlerEnd(b.clauses, i)
    requires Faithful(m, b.code[i].op, Immediate(b.code[i]), PlanAt(b.code, plan, i))
    requires |st| < m.arity(Immediate(b.code[i]))
    ensures Run(m, RewriteBody(b, plan), CallAt(PlanAt(b.code, plan, i)) + 1, Running(Pos(b.code, plan, i), st, w)) == Wrong
  {
    var p := PlanAt(b.code, plan, i);
    if p.box.Some? && st == [] {
      hide *;
      EmptyBoxRun(m, b, plan, i, CallAt(p) + 1, w);
    } else {
        hide Run;
      hide RewriteBody;
      hide PlanAt;
      hide Pos;
      hide Covers;
      WrapperRun(m, b, plan, i, st, w);
    }
  }

  /** The original call returns, and the wrapper's result is unboxed afterwards. */
  ghost predicate Unboxes<V, W, R>(m: Machine<V, W, R>, x: Instr<nat>, p: Plan, st: seq<V>, w: W)
    requires |st| >= m.arity(Immediate(x))
  {
    p.unbox.Some? && m.invoke(x.op, Immediate(x), None, st[|st| - m.arity(Immediate(x))..], w).Returned?
  }

  lemma CostAt<V, W, R>(m: Machine<V, W, R>, b: Body, plan: Planner, i: nat, st: seq<V>, w: W)
    requires i < |b.code| && Chosen(b.code, plan, i)
    ensures var x, p := b.code[i], PlanAt(b.code, plan, i);
            && |Block(x, p)| == CallAt(p) + 1 + (if p.unbox.Some? then 1 else 0)
            && Cost<V, W, R>(m, b, plan, Running(i, st, w)) == CallAt(p) + 1 +
               if |st| >= m.arity(Immediate(x)) && Unboxes(m, x, p, st, w) then 1 else 0
  {
    BlockLayout(b.code[i], PlanAt(b.code, plan, i));
  }

  lemma FaithfulBox<V(!new), W(!new), R>(m: Machine<V, W, R>, op: nat, token: int, p: Plan)
    requires Faithful(m, op, token, p)
    ensures p.box.Some? ==> m.arity(token) >= 1
  {
  }

  /** Where nothing is unboxed afterwards, either there is no unboxing or the call threw. */
  lemma PlainMeans<V, W, R>(m: Machine<V, W, R>, x: Instr<nat>, p: Plan, cover: seq<Cover>, st: seq<V>, w: W)
    requires |st| >= m.arity(Immediate(x)) && !Unboxes(m, x, p, st, w)
    ensures !(p.unbox.Some? && m.invoke(x.op, Immediate(x), None, st[|st| - m.arity(Immediate(x))..], w).Returned?)
    ensures p.unbox.Some? ==> CallOutcome(m, x.op, Immediate(x), cover, st, w).Enter?
  {
  }

  lemma {:induction false} ChosenRunPlain<V(!new), W(!new), R>(m: Machine<V, W, R>, b: Body, plan: Planner, i: nat, st: seq<V>, w: W)
    requires BodyOk(b) && i < |b.code| && Chosen(b.code, plan, i) && NotHandlerEnd(b.clauses, i) && |st| >= m.arity(Immediate(b.code[i]))
    requires Faithful(m, b.code[i].op, Immediate(b.code[i]), PlanAt(b.code, plan, i))
    requires !Unboxes(m, b.code[i], PlanAt(b.code, plan, i), st, w)
    ensures var p := PlanAt(b.code, plan, i); var x := b.code[i];
            var want := CallOutcome(m, x.op, Immediate(x), Covers(b.clauses, |b.code|, i), st, w);
            && Run(m, RewriteBody(b, plan), CallAt(p) + 1, Running(Pos(b.code, plan, i), st, w)) ==
               Straight(RewriteBody(b, plan), Pos(b.code, plan, i) + CallAt(p), want)
            && (p.unbox.Some? ==> want.Enter?)
  {
    hide *;
    var p, x := PlanAt(b.code, plan, i), b.code[i];
    var cover := Covers(b.clauses, |b.code|, i);
    FaithfulBox(m, x.op, Immediate(x), p);
    PlainMeans(m, x, p, cover, st, w);
    WrapperRun(m, b, plan, i, st, w);
    WrapperOutcome(m, x.op, Immediate(x), p, cover, st, w);
  }

  lemma {:induction false} ChosenRunUnbox<V(!new), W(!new), R>(m: Machine<V, W, R>, b: Body, plan: Planner, i: nat, st: seq<V>, w: W)
    requires BodyOk(b) && i < |b.code| && Chosen(b.code, plan, i) && NotHandlerEnd(b.clauses, i) && |st| >= m.arity(Immediate(b.code[i]))
    requires Faithful(m, b.code[i].op, Immediate(b.code[i]), PlanAt(b.code, plan, i))
    requires Unboxes(m, b.code[i], PlanAt(b.code, plan, i), st, w)
    ensures var p := PlanAt(b.code, plan, i); var x := b.code[i]; var start := Running(Pos(b.code, plan, i), st, w);
            var want := CallOutcome(m, x.op, Immediate(x), Covers(b.clauses, |b.code|, i), st, w);
            var mid := Run(m, RewriteBody(b, plan), CallAt(p) + 1, start);
            && mid.Running? && mid.pc == Pos(b.code, plan, i) + CallAt(p) + 1 && |mid.stack| <= |st| + 3
            && Run(m, RewriteBody(b, plan), CallAt(p) + 2, start) ==
               Straight(RewriteBody(b, plan), Pos(b.code, plan, i) + CallAt(p) + 1, want)
  {
    var p, x := PlanAt(b.code, plan, i), b.code[i];
    var cover := Covers(b.clauses, |b.code|, i);
    assert p.box.Some? ==> st != [];
    assert p.unbox.Some? && BodyOk(b);
    hide Run;
    hide Step;
    hide RewriteBody;
    hide PlanAt;
    hide Pos;
    hide Covers;
    hide Execute;
    hide BlockStack;
    hide CallOutcome;
    hide Transfer;
    hide BodyOk;
    hide Faithful;
    WrapperRun(m, b, plan, i, st, w);
    WrapperOutcome(m, x.op, Immediate(x), p, cover, st, w);
    var o := Execute(m, CALL, p.wrapper, None, cover, BlockStack(m, x.op, p, st, CallAt(p)), w);
    UnboxStep(m, b, plan, i, o.stack, o.world);
    RunLast(m, RewriteBody(b, plan), CallAt(p) + 1, Running(Pos(b.code, plan, i), st, w));
  }

  /** A rewritten call takes the machine where the original call takes it. */
  lemma {:induction false} ChosenRun<V(!new), W(!new), R>(m: Machine<V, W, R>, b: Body, plan: Planner, i: nat, st: seq<V>, w: W)
    requires BodyOk(b) && i < |b.code| && Chosen(b.code, plan, i) && NotHandlerEnd(b.clauses, i) && PrefixAt(b.code, i).None?
    requires Faithful(m, b.code[i].op, Immediate(b.code[i]), PlanAt(b.code, plan, i))
    ensures Run(m, RewriteBody(b, plan), Cost(m, b, plan, Running(i, st, w)), Running(Pos(b.code, plan, i), st, w)) ==
            Img(b, plan, Step(m, b, Running(i, st, w)))
  {
    hide *;
    var x, p, b', q := b.code[i], PlanAt(b.code, plan, i), RewriteBody(b, plan), Pos(b.code, plan, i);
    ChosenIsCall(b.code, plan, i);
    CostAt(m, b, plan, i, st, w);
    OriginalCall(m, b, i, st, w);
    NextBlock(b.code, plan, i);
    if |st| < m.arity(Immediate(x)) {
      UnderflowRun(m, b, plan, i, st, w);
      StuckKept<V, W, R>(b, plan, i);
    } else {
      var want := CallOutcome(m, x.op, Immediate(x), Covers(b.clauses, |b.code|, i), st, w);
      if Unboxes(m, x, p, st, w) {
        ChosenRunUnbox(m, b, plan, i, st, w);
        UnboxesHas(m, x, p, st, w);
        StraightKept(b, plan, i, q + CallAt(p) + 1, want);
      } else {
        ChosenRunPlain(m, b, plan, i, st, w);
        StraightKept(b, plan, i, q + CallAt(p), want);
      }
    }
  }

  lemma ChosenIsCall(code: Code, plan: Planner, i: nat)
    requires i < |code| && Chosen(code, plan, i)
    ensures IsCall(code[i].op)
  {
  }

  lemma UnboxesHas<V, W, R>(m: Machine<V, W, R>, x: Instr<nat>, p: Plan, st: seq<V>, w: W)
    requires |st| >= m.arity(Immediate(x)) && Unboxes(m, x, p, st, w)
    ensures p.unbox.Some?
  {
  }

  lemma NextBlock(code: Code, plan: Planner, i: nat)
    requires i < |code| && Chosen(code, plan, i)
    ensures Pos(code, plan, i + 1) == Pos(code, plan, i) + |Block(code[i], PlanAt(code, plan, i))|
  {
    hide Block;
  }

  lemma StuckKept<V, W, R>(b: Body, plan: Planner, i: nat)
    ensures Img<V, W, R>(b, plan, Straight(b, i, Stuck)) == Wrong
  {
  }

  /** The last instruction of a block leads where the original call leads. */
  lemma StraightKept<V, W, R>(b: Body, plan: Planner, i: nat, last: nat, o: Outcome<V, W, R>)
    requires BodyOk(b) && i < |b.code| && (o.Enter? || last + 1 == Pos(b.code, plan, i + 1))
    ensures Straight(RewriteBody(b, plan), last, o) == Img(b, plan, Straight(b, i, o))
  {
    hide Pos;
    hide Transfer;
    hide RewriteBody;
    hide BodyOk;
    if o.Enter? {
      TransferKept(b, plan, o.dispatch);
    }
  }
}
