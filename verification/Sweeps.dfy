/**
 The loop of one method replacement as the code runs it (cor_profiler.cpp:616-983). After a site is
 rewritten the cursor stands on the node behind the inserted ones and the loop then steps past it.
 If the site was the last instruction, that node is the sentinel and the step goes to the front of
 the list: another round starts, on the list that has just been rewritten.
 */
module Sweeps {
  import opened Bytes
  import opened Opcodes
  import opened Layout
  import opened Codec
  import opened Replacement

  predicate LastChosen<L>(code: seq<Instr<L>>, plan: Planner) {
    code != [] && Chosen(code, plan, |code| - 1)
  }

  // ---------- When the loop ends ----------

  /** The loop ends after at most `n` further rounds. */
  predicate StopsWithin(code: Code, plan: Planner, n: nat)
    decreases n
  {
    !LastChosen(code, plan) || (n > 0 && StopsWithin(Rewrite(code, plan), plan, n - 1))
  }

  ghost predicate Ends(code: Code, plan: Planner) {
    exists n: nat :: StopsWithin(code, plan, n)
  }

  function FurtherRounds(code: Code, plan: Planner, n: nat): (k: nat)
    requires StopsWithin(code, plan, n)
    ensures StopsWithin(code, plan, k)
    decreases n
  {
    if !LastChosen(code, plan) then 0 else 1 + FurtherRounds(Rewrite(code, plan), plan, n - 1)
  }

  lemma {:induction false} RoundsUnique(code: Code, plan: Planner, n: nat, k: nat)
    requires StopsWithin(code, plan, n) && StopsWithin(code, plan, k)
    ensures FurtherRounds(code, plan, n) == FurtherRounds(code, plan, k)
    decreases n
  {
    hide Rewrite;
    hide LastChosen;
    if LastChosen(code, plan) {
      RoundsUnique(Rewrite(code, plan), plan, n - 1, k - 1);
    }
  }

  /** How many times the loop starts over. */
  ghost function Rounds(code: Code, plan: Planner): (k: nat)
    requires Ends(code, plan)
  {
    var n: nat :| StopsWithin(code, plan, n);
    FurtherRounds(code, plan, n)
  }

  lemma {:induction false} NextRound(code: Code, plan: Planner)
    requires Ends(code, plan) && LastChosen(code, plan)
    ensures Ends(Rewrite(code, plan), plan) && Rounds(code, plan) == 1 + Rounds(Rewrite(code, plan), plan)
  {
    hide Rewrite;
    hide LastChosen;
    var n: nat :| StopsWithin(code, plan, n) && Rounds(code, plan) == FurtherRounds(code, plan, n);
    assert StopsWithin(Rewrite(code, plan), plan, n - 1);
    var k: nat :| StopsWithin(Rewrite(code, plan), plan, k) &&
                  Rounds(Rewrite(code, plan), plan) == FurtherRounds(Rewrite(code, plan), plan, k);
    RoundsUnique(Rewrite(code, plan), plan, n - 1, k);
    assert FurtherRounds(code, plan, n) == 1 + FurtherRounds(Rewrite(code, plan), plan, n - 1);
  }

  /**
   From one call target to the next: the replacement of a call to `t` ends in a call to the wrapper of
   `t`, unless an unboxing follows it. The chain stops where there is no plan, or an unboxing.
   */
  predicate ChainStops(plan: Planner, t: int, n: nat)
    decreases n
  {
    plan(t).None? || (n > 0 && (plan(t).value.unbox.Some? || ChainStops(plan, plan(t).value.wrapper, n - 1)))
  }

  ghost predicate ChainEnds(plan: Planner, t: int) {
    exists n: nat :: ChainStops(plan, t, n)
  }

  lemma BlockTail(x: Instr<nat>, p: Plan)
    ensures var b := Block(x, p);
            if p.unbox.None? then b[|b| - 1] == Instr(CALL, Imm(p.wrapper)) && b[|b| - 2] == Instr(LDC_I8, Imm(p.mvid))
            else b[|b| - 1] == Instr(UNBOX_ANY, Imm(p.unbox.value))
  {
    hide LoadInt32;
  }

  /** One round: what the last instruction of the rewritten list is, and whether it is chosen again. */
  lemma {:induction false} RoundTail(code: Code, plan: Planner)
    requires LastChosen(code, plan)
    ensures var t := Immediate(code[|code| - 1]); var r := Rewrite(code, plan);
            && plan(t).Some? && |r| > 0
            && (plan(t).value.unbox.None? ==> Immediate(r[|r| - 1]) == plan(t).value.wrapper)
            && (LastChosen(r, plan) <==> plan(t).value.unbox.None? && plan(plan(t).value.wrapper).Some?)
  {
    var i, r := |code| - 1, Rewrite(code, plan);
    var t := Immediate(code[i]);
    var p := plan(t).value;
    var b := Block(code[i], p);
    BlockTail(code[i], p);
    RewriteAt(code, plan, i, |b| - 1);
    RewriteAt(code, plan, i, |b| - 2);
    assert |r| == Pos(code, plan, i) + |b|;
    var last := r[|r| - 1];
    hide Rewrite;
    hide Pos;
    if p.unbox.None? {
      assert last == Instr(CALL, Imm(p.wrapper)) && r[|r| - 2] == Instr(LDC_I8, Imm(p.mvid));
      assert !Chosen(r, plan, |r| - 2);
    } else {
      assert last.op == UNBOX_ANY;
    }
  }

  lemma {:induction false} StopsAsChain(code: Code, plan: Planner, n: nat)
    requires LastChosen(code, plan)
    ensures StopsWithin(code, plan, n) <==> ChainStops(plan, Immediate(code[|code| - 1]), n)
    decreases n
  {
    RoundTail(code, plan);
    hide Rewrite;
    hide LastChosen;
    if n > 0 && LastChosen(Rewrite(code, plan), plan) {
      StopsAsChain(Rewrite(code, plan), plan, n - 1);
    }
  }

  /**
   Exactly when the loop ends, for any decisions whatever: it does not rewrite the last instruction,
   or the chain of wrappers from that instruction's target reaches a stop.
   */
  lemma {:induction false} LoopEndsIff(code: Code, plan: Planner)
    ensures Ends(code, plan) <==>
            !LastChosen(code, plan) || ChainEnds(plan, Immediate(code[|code| - 1]))
  {
    if !LastChosen(code, plan) {
      assert StopsWithin(code, plan, 0);
    } else {
      var t := Immediate(code[|code| - 1]);
      if Ends(code, plan) {
        var n: nat :| StopsWithin(code, plan, n);
        StopsAsChain(code, plan, n);
        assert ChainStops(plan, t, n);
      }
      if ChainEnds(plan, t) {
        var n: nat :| ChainStops(plan, t, n);
        StopsAsChain(code, plan, n);
        assert StopsWithin(code, plan, n);
      }
    }
  }

  /** No replacement's own wrapper is a target of that replacement. */
  ghost predicate WrappersUnmatched(plan: Planner) {
    forall t :: plan(t).Some? ==> plan(plan(t).value.wrapper).None?
  }

  /** Then the loop starts over at most once. */
  lemma {:induction false} UnmatchedEnds(code: Code, plan: Planner)
    requires WrappersUnmatched(plan)
    ensures Ends(code, plan) && StopsWithin(code, plan, 1)
  {
    hide Rewrite;
    if LastChosen(code, plan) {
      RoundTail(code, plan);
      assert StopsWithin(Rewrite(code, plan), plan, 0);
    }
    assert StopsWithin(code, plan, 1);
  }

  // ---------- What the loop leaves ----------

  /** What the loop of one replacement leaves behind. */
  ghost function Swept(code: Code, plan: Planner): (r: Code)
    requires Ends(code, plan)
    decreases Rounds(code, plan)
  {
    if LastChosen(code, plan) then
      NextRound(code, plan);
      Swept(Rewrite(code, plan), plan)
    else Rewrite(code, plan)
  }

  /** Where the loop leaves the node that stood at position `t`. */
  ghost function SweptPos(code: Code, plan: Planner, t: nat): (p: nat)
    requires Ends(code, plan) && t <= |code|
    ensures p <= |Swept(code, plan)|
    decreases Rounds(code, plan)
  {
    PosGrows(code, plan, t, |code|);
    if LastChosen(code, plan) then
      NextRound(code, plan);
      SweptPos(Rewrite(code, plan), plan, Pos(code, plan, t))
    else Pos(code, plan, t)
  }

  /** All labels, also of instructions that do not branch, point into the list or at the sentinel. */
  predicate LabelsInside(code: Code) {
    forall i :: 0 <= i < |code| && code[i].operand.Label? ==> code[i].operand.dest <= |code|
  }

  predicate AnyMatch<L>(code: seq<Instr<L>>, plan: Planner) {
    exists i :: 0 <= i < |code| && Matches(code[i], plan)
  }

  lemma {:induction false} NothingChosen<L>(code: seq<Instr<L>>, plan: Planner, n: nat)
    requires n <= |code| && !AnyMatch(code, plan)
    ensures Expand(code, plan, n) == code[..n]
  {
    if n > 0 {
      NothingChosen(code, plan, n - 1);
      assert !Matches(code[n - 1], plan);
      assert code[..n] == code[..n - 1] + [code[n - 1]];
    }
  }

  lemma {:induction false} RewriteIdle(code: Code, plan: Planner)
    requires LabelsInside(code) && !AnyMatch(code, plan)
    ensures Rewrite(code, plan) == code && !LastChosen(code, plan)
  {
    NothingChosen(code, plan, |code|);
    assert code != [] ==> !Matches(code[|code| - 1], plan);
    forall i | 0 <= i < |code|
      ensures Rewrite(code, plan)[i] == code[i]
    {
      if code[i].operand.Label? {
        NothingChosen(code, plan, code[i].operand.dest);
      }
    }
  }

  lemma {:induction false} FirstMatchChosen<L>(code: seq<Instr<L>>, plan: Planner)
    requires AnyMatch(code, plan)
    ensures exists i :: 0 <= i < |code| && Chosen(code, plan, i)
  {
    var i :| 0 <= i < |code| && Matches(code[i], plan);
    assert Chosen(code, plan, i) || (i > 0 && Chosen(code, plan, i - 1));
  }

  lemma {:induction false} RewriteGrows(code: Code, plan: Planner)
    ensures |Rewrite(code, plan)| >= |code|
    ensures AnyMatch(code, plan) ==> |Rewrite(code, plan)| > |code|
  {
    PosGrows(code, plan, 0, |code|);
    if AnyMatch(code, plan) {
      FirstMatchChosen(code, plan);
      var i :| 0 <= i < |code| && Chosen(code, plan, i);
      PosGrows(code, plan, 0, i);
      PosGrows(code, plan, i + 1, |code|);
    }
  }

  lemma {:induction false} SweptGrows(code: Code, plan: Planner)
    requires Ends(code, plan)
    ensures |Swept(code, plan)| >= |Rewrite(code, plan)|
    decreases Rounds(code, plan)
  {
    if LastChosen(code, plan) {
      NextRound(code, plan);
      SweptGrows(Rewrite(code, plan), plan);
      RewriteGrows(Rewrite(code, plan), plan);
    }
  }

  lemma {:induction false} RewriteLabels(code: Code, plan: Planner)
    ensures LabelsInside(Rewrite(code, plan))
  {
    var r := Rewrite(code, plan);
    forall q | 0 <= q < |r| && r[q].operand.Label?
      ensures r[q].operand.dest <= |r|
    {
      var e := Expand(code, plan, |code|);
      var t := e[q].operand.dest;
      PosGrows(code, plan, if t <= |code| then t else |code|, |code|);
    }
  }

  // ---------- When the loop is one greedy pass ----------

  lemma {:induction false} BlockMatch(x: Instr<nat>, p: Plan, plan: Planner, k: nat)
    requires k < |Block(x, p)|
    ensures Matches(Block(x, p)[k], plan) <==> Block(x, p)[k] == Instr(CALL, Imm(p.wrapper)) && plan(p.wrapper).Some?
  {
  }

  lemma BlockCalls(x: Instr<nat>, p: Plan)
    ensures exists k :: 0 <= k < |Block(x, p)| && Block(x, p)[k] == Instr(CALL, Imm(p.wrapper))
  {
    var b := Block(x, p);
    var k := |b| - (if p.unbox.Some? then 2 else 1);
    assert b[k] == Instr(CALL, Imm(p.wrapper));
  }

  /** A matching call that was stepped over, or a rewritten one whose wrapper matches in turn. */
  predicate LeavesMatch(code: Code, plan: Planner, i: nat)
    requires i < |code|
  {
    if Chosen(code, plan, i) then plan(plan(Immediate(code[i])).value.wrapper).Some? else Matches(code[i], plan)
  }

  lemma {:induction false} MatchLeft(code: Code, plan: Planner, i: nat)
    requires i < |code|
    ensures LeavesMatch(code, plan, i) <==>
            exists k :: 0 <= k < |BlockAt(code, plan, i)| && Matches(BlockAt(code, plan, i)[k], plan)
  {
    var block := BlockAt(code, plan, i);
    if Chosen(code, plan, i) {
      var p := plan(Immediate(code[i])).value;
      forall k | 0 <= k < |block|
        ensures Matches(block[k], plan) <==> block[k] == Instr(CALL, Imm(p.wrapper)) && plan(p.wrapper).Some?
      {
        BlockMatch(code[i], p, plan, k);
      }
      BlockCalls(code[i], p);
    } else {
      assert block[0] == code[i];
    }
  }

  /** What a round leaves to match: exactly the calls it stepped over and the wrappers that match. */
  lemma {:induction false} MatchesLeft(code: Code, plan: Planner)
    ensures AnyMatch(Rewrite(code, plan), plan) <==> exists i :: 0 <= i < |code| && LeavesMatch(code, plan, i)
  {
    var r := Rewrite(code, plan);
    if q :| 0 <= q < |r| && Matches(r[q], plan) {
      var i, k := BlockOf(code, plan, q, |code|);
      RewriteAt(code, plan, i, k);
      MatchLeft(code, plan, i);
      assert Matches(BlockAt(code, plan, i)[k], plan);
    }
    if i :| 0 <= i < |code| && LeavesMatch(code, plan, i) {
      MatchLeft(code, plan, i);
      var k :| 0 <= k < |BlockAt(code, plan, i)| && Matches(BlockAt(code, plan, i)[k], plan);
      RewriteAt(code, plan, i, k);
      assert Matches(r[Pos(code, plan, i) + k], plan);
    }
  }

  /**
   For any decisions with which the loop ends, it rewrites exactly the left-to-right greedy choice of
   calls if and only if it does not rewrite the last instruction, or the first round leaves nothing
   that matches: no call stepped over, no wrapper that is a target itself.
   */
  lemma {:induction false} SweepIsGreedyIff(code: Code, plan: Planner)
    requires Ends(code, plan)
    ensures Swept(code, plan) == Rewrite(code, plan) <==>
            !LastChosen(code, plan) || forall i :: 0 <= i < |code| ==> !LeavesMatch(code, plan, i)
  {
    if LastChosen(code, plan) {
      var r := Rewrite(code, plan);
      NextRound(code, plan);
      RewriteLabels(code, plan);
      MatchesLeft(code, plan);
      if !AnyMatch(r, plan) {
        RewriteIdle(r, plan);
      } else {
        RewriteGrows(r, plan);
        SweptGrows(r, plan);
      }
    }
  }

  /** Three adjacent calls to the target: the middle one is stepped over, then reached from the front. */
  lemma {:induction false} LastSiteWraps(x: Instr<nat>, plan: Planner)
    requires Matches(x, plan) && Ends([x, x, x], plan)
    ensures Swept([x, x, x], plan) != Rewrite([x, x, x], plan)
  {
    var code := [x, x, x];
    assert Chosen(code, plan, 0) && !Chosen(code, plan, 1) && Chosen(code, plan, 2);
    SweepIsGreedyIff(code, plan);
    assert LeavesMatch(code, plan, 1);
  }
}
