/**
 Call replacement as a transformation of instruction lists (cor_profiler.cpp:615-983): which calls
 one pass rewrites, what each becomes, and where every original instruction ends up.
 */
module Replacement {
  import opened Bytes
  import opened Opcodes
  import opened Layout
  import opened Codec

  /**
   What one replacement decides for a target token: the boxing of the last argument, the wrapper
   to call, the token and module-version pointer to pass, and the unboxing of the result.
   */
  datatype Plan = Plan(box: Option<int>, wrapper: int, token: int, mvid: int, unbox: Option<int>)

  /** The decision for each call target; None where any of the checks fails. */
  type Planner = int -> Option<Plan>

  predicate IsCall(op: nat) {
    op == CALL || op == CALLVIRT
  }

  predicate Matches<L>(x: Instr<L>, plan: Planner) {
    IsCall(x.op) && plan(Immediate(x)).Some?
  }

  /** ILRewriterWrapper::LoadInt32 (il_rewriter_wrapper.cpp:28-47). */
  function LoadInt32<L>(v: int): (x: Instr<L>)
    ensures x.operand.Imm? && Pushes(x.op) == 1
  {
    if 0 <= v <= 8 then Instr(LDC_I4_0 + v, Imm(0))
    else if -128 <= v <= 127 then Instr(LDC_I4_S, Imm(v))
    else Instr(LDC_I4, Imm(v))
  }

  /** The constant that an ldc.i4 instruction pushes. */
  function Int32Constant(op: nat, imm: int): Option<int> {
    if 0x16 <= op <= 0x1E then Some(op - 0x16)
    else if op == 0x1F || op == 0x20 then Some(imm)
    else None
  }

  /** Whichever encoding LoadInt32 picks, it loads the value it was given. */
  lemma LoadInt32Loads(v: int)
    ensures var x: Instr<nat> := LoadInt32(v); Int32Constant(x.op, Immediate(x)) == Some(v)
  {
  }

  function BoxCode<L>(p: Plan): seq<Instr<L>> {
    if p.box.Some? then [Instr(BOX, Imm(p.box.value))] else []
  }

  function UnboxCode<L>(p: Plan): seq<Instr<L>> {
    if p.unbox.Some? then [Instr(UNBOX_ANY, Imm(p.unbox.value))] else []
  }

  /** The instructions inserted after the call site (cor_profiler.cpp:892-970). */
  function Inserted<L>(x: Instr<L>, p: Plan): (b: seq<Instr<L>>)
    ensures 4 <= |b| <= 6
  {
    BoxCode(p) +
    [LoadInt32(x.op), LoadInt32(p.token), Instr(LDC_I8, Imm(p.mvid)), Instr(CALL, Imm(p.wrapper))] +
    UnboxCode(p)
  }

  /** What a replaced call turns into; the call's own node becomes the nop. */
  function Block<L>(x: Instr<L>, p: Plan): (b: seq<Instr<L>>)
    ensures 5 <= |b| <= 7 && b[0] == x.(op := NOP) && b[1..] == Inserted(x, p)
  {
    [x.(op := NOP)] + Inserted(x, p)
  }

  /**
   The sites of one pass: scanning left to right, a matching call is rewritten unless it directly
   follows one that was, because the cursor steps over the instruction after a rewritten call.
   */
  predicate Chosen<L>(code: seq<Instr<L>>, plan: Planner, i: nat)
    requires i < |code|
  {
    Matches(code[i], plan) && (i == 0 || !Chosen(code, plan, i - 1))
  }

  /** `run` matching calls stand directly before position `i`, and no further one before those. */
  predicate RunBefore<L>(code: seq<Instr<L>>, plan: Planner, i: nat, run: nat)
    requires i < |code|
  {
    && run <= i && (forall k :: i - run <= k < i ==> Matches(code[k], plan))
    && (run < i ==> !Matches(code[i - run - 1], plan))
  }

  /** So in a run of adjacent matching calls the first is rewritten, and from there every second one. */
  lemma {:induction false} ChosenIffEvenRun<L>(code: seq<Instr<L>>, plan: Planner, i: nat, run: nat)
    requires i < |code| && RunBefore(code, plan, i, run)
    ensures Chosen(code, plan, i) <==> Matches(code[i], plan) && run % 2 == 0
  {
    if run > 0 {
      ChosenIffEvenRun(code, plan, i - 1, run - 1);
    }
  }

  function BlockAt<L>(code: seq<Instr<L>>, plan: Planner, i: nat): (b: seq<Instr<L>>)
    requires i < |code|
    ensures 1 <= |b| <= 7
  {
    if Chosen(code, plan, i) then Block(code[i], plan(Immediate(code[i])).value) else [code[i]]
  }

  /** The rewritten form of the first `n` instructions, labels still naming the original targets. */
  function Expand<L>(code: seq<Instr<L>>, plan: Planner, n: nat): (r: seq<Instr<L>>)
    requires n <= |code|
  {
    if n == 0 then [] else Expand(code, plan, n - 1) + BlockAt(code, plan, n - 1)
  }

  /** Where the node of original instruction `i` (or the sentinel) stands afterwards. */
  function Pos<L>(code: seq<Instr<L>>, plan: Planner, i: nat): nat
    requires i <= |code|
  {
    |Expand(code, plan, i)|
  }

  function Image(code: Code, plan: Planner, t: nat): nat {
    Pos(code, plan, if t <= |code| then t else |code|)
  }

  function Relabel(code: Code, plan: Planner, x: Instr<nat>): Instr<nat> {
    if x.operand.Label? then x.(operand := Label(Image(code, plan, x.operand.dest))) else x
  }

  /** The rewritten list, targets as positions again: pointers to a node follow the node. */
  function Rewrite(code: Code, plan: Planner): (r: Code) {
    var e := Expand(code, plan, |code|);
    seq(|e|, q requires 0 <= q < |e| => Relabel(code, plan, e[q]))
  }

  // ---------- Positions ----------

  lemma {:induction false} PosGrows<L>(code: seq<Instr<L>>, plan: Planner, i: nat, j: nat)
    requires i <= j <= |code|
    ensures Pos(code, plan, i) + (j - i) <= Pos(code, plan, j)
    ensures i < j ==> Pos(code, plan, i) + |BlockAt(code, plan, i)| <= Pos(code, plan, j)
  {
    hide *;
    if i < j {
      PosGrows(code, plan, i, j - 1);
      PosNext(code, plan, j - 1);
    }
  }

  lemma PosNext<L>(code: seq<Instr<L>>, plan: Planner, i: nat)
    requires i < |code|
    ensures Pos(code, plan, i + 1) == Pos(code, plan, i) + |BlockAt(code, plan, i)| && |BlockAt(code, plan, i)| >= 1
  {
  }

  lemma {:induction false} ExpandAt<L>(code: seq<Instr<L>>, plan: Planner, i: nat, k: nat, n: nat)
    requires i < n <= |code| && k < |BlockAt(code, plan, i)|
    ensures Pos(code, plan, i) + k < Pos(code, plan, n)
    ensures Expand(code, plan, n)[Pos(code, plan, i) + k] == BlockAt(code, plan, i)[k]
  {
    if i + 1 < n {
      ExpandAt(code, plan, i, k, n - 1);
    }
  }

  /** Block `i` of the rewritten list, instruction by instruction. */
  lemma {:induction false} RewriteAt(code: Code, plan: Planner, i: nat, k: nat)
    requires i < |code| && k < |BlockAt(code, plan, i)|
    ensures |Rewrite(code, plan)| == Pos(code, plan, |code|)
    ensures Pos(code, plan, i) + k < |Rewrite(code, plan)|
    ensures Rewrite(code, plan)[Pos(code, plan, i) + k] == Relabel(code, plan, BlockAt(code, plan, i)[k])
  {
    ExpandAt(code, plan, i, k, |code|);
  }

  /** Every position of the rewritten list belongs to exactly one original instruction. */
  lemma {:induction false} BlockOf<L>(code: seq<Instr<L>>, plan: Planner, q: nat, n: nat) returns (i: nat, k: nat)
    requires n <= |code| && q < Pos(code, plan, n)
    ensures i < n && k < |BlockAt(code, plan, i)| && q == Pos(code, plan, i) + k
  {
    if q < Pos(code, plan, n - 1) {
      i, k := BlockOf(code, plan, q, n - 1);
    } else {
      i, k := n - 1, q - Pos(code, plan, n - 1);
    }
  }

  lemma {:induction false} BlockIsUnique<L>(code: seq<Instr<L>>, plan: Planner, i: nat, k: nat, j: nat, m: nat)
    requires i < |code| && k < |BlockAt(code, plan, i)|
    requires j < |code| && m < |BlockAt(code, plan, j)|
    requires Pos(code, plan, i) + k == Pos(code, plan, j) + m
    ensures i == j && k == m
  {
    if i < j {
      PosGrows(code, plan, i, j);
    } else if j < i {
      PosGrows(code, plan, j, i);
    }
  }

  /** Rewriting keeps every target inside the list. */
  lemma {:induction false} RewriteClosed(code: Code, plan: Planner)
    requires Closed(code)
    ensures Closed(Rewrite(code, plan))
  {
    hide *;
    var r := Rewrite(code, plan);
    forall q | 0 <= q < |r| && HasLabel(r[q].op)
      ensures r[q].operand.Label? && r[q].operand.dest <= |r|
    {
      RewriteLength(code, plan);
      var i, k := BlockOf(code, plan, q, |code|);
      RewriteAt(code, plan, i, k);
      RelabelledOp(code, plan, BlockAt(code, plan, i)[k]);
      LabelIsOriginal(code, plan, i, k);
      RelabelInside(code, plan, code[i]);
    }
    ClosedIntro(r);
  }

  lemma ClosedIntro(code: Code)
    requires forall i :: 0 <= i < |code| && HasLabel(code[i].op) ==> code[i].operand.Label? && code[i].operand.dest <= |code|
    ensures Closed(code)
  {
  }

  lemma RewriteLength(code: Code, plan: Planner)
    ensures |Rewrite(code, plan)| == Pos(code, plan, |code|)
  {
  }

  lemma RelabelledOp(code: Code, plan: Planner, x: Instr<nat>)
    ensures Relabel(code, plan, x).op == x.op
  {
  }

  /** An instruction of the rewritten list that carries a label is an original one. */
  lemma LabelIsOriginal(code: Code, plan: Planner, i: nat, k: nat)
    requires Closed(code) && i < |code| && k < |BlockAt(code, plan, i)| && HasLabel(BlockAt(code, plan, i)[k].op)
    ensures BlockAt(code, plan, i)[k] == code[i] && code[i].operand.Label? && code[i].operand.dest <= |code|
  {
    if Chosen(code, plan, i) {
      BlockHasNoLabel(code[i], plan(Immediate(code[i])).value, k);
    }
  }

  lemma BlockHasNoLabel<L>(x: Instr<L>, p: Plan, k: nat)
    requires k < |Block(x, p)|
    ensures !HasLabel(Block(x, p)[k].op)
  {
  }

  lemma RelabelInside(code: Code, plan: Planner, x: Instr<nat>)
    requires x.operand.Label? && x.operand.dest <= |code|
    ensures Relabel(code, plan, x).operand.Label? && Relabel(code, plan, x).operand.dest <= Pos(code, plan, |code|)
  {
    PosGrows(code, plan, x.operand.dest, |code|);
  }

  /** A branch to an original instruction lands on that instruction's node, the nop if it was replaced. */
  lemma {:induction false} BranchesFollowNodes(code: Code, plan: Planner, i: nat)
    requires Closed(code) && i < |code| && HasLabel(code[i].op)
    ensures var r := Rewrite(code, plan); var t := code[i].operand.dest; var p := Pos(code, plan, i);
            && p < |r| && r[p].op == code[i].op && r[p].operand == Label(Pos(code, plan, t))
            && Pos(code, plan, t) <= |r|
            && (t < |code| ==>
                  && Pos(code, plan, t) < |r|
                  && r[Pos(code, plan, t)].op == if Chosen(code, plan, t) then NOP else code[t].op)
  {
    var t := code[i].operand.dest;
    assert !Chosen(code, plan, i);
    RewriteAt(code, plan, i, 0);
    PosGrows(code, plan, t, |code|);
    if t < |code| {
      RewriteAt(code, plan, t, 0);
    }
  }
}
