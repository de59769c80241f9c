/**
 What the simulation asks of every call a pass rewrites, derived from conditions on the replacements
 and on the imported body alone.
 */
module SiteConditions {
  import opened Bytes
  import opened Opcodes
  import opened Layout
  import opened Codec
  import opened Replacement
  import opened Regions
  import opened Sweeps
  import opened StackMachine
  import opened Simulation
  import opened Preservation
  import opened Acceptance

  // ---------- Wrappers ----------

  /** The machine takes as many arguments off the stack as the signatures in the metadata say. */
  ghost predicate ReadsArity<V(!new), W(!new), R(!new)>(m: Machine<V, W, R>, rule: Rule) {
    forall t :: rule.signatureOf(t).Some? ==> m.arity(t) == StackArguments(rule.signatureOf(t).value)
  }

  /** Every wrapper acts as the target it was accepted for. */
  ghost predicate WrappersAct<V(!new), W(!new), R(!new)>(m: Machine<V, W, R>, plan: Planner) {
    forall op: nat, t :: IsCall(op) && plan(t).Some? ==> ActsAs(m, op, t, plan(t).value)
  }

  ghost predicate WrappersFaithful<V(!new), W(!new), R(!new)>(m: Machine<V, W, R>, plan: Planner) {
    forall op: nat, t :: IsCall(op) && plan(t).Some? ==> Faithful(m, op, t, plan(t).value)
  }

  /** Acceptance gives the three extra stack slots; only the behaviour is left to assume. */
  lemma {:induction false} AcceptedFaithful<V(!new), W(!new), R(!new)>(m: Machine<V, W, R>, rule: Rule)
    requires RuleOk(rule) && ReadsArity(m, rule) && WrappersAct(m, PlannerOf(rule))
    ensures WrappersFaithful(m, PlannerOf(rule))
  {
    var plan := PlannerOf(rule);
    hide ActsAs;
    hide RuleOk;
    hide PlannerOf;
    forall op: nat, t | IsCall(op) && plan(t).Some?
      ensures Faithful(m, op, t, plan(t).value)
    {
      PlannedTakesThreeMore(rule, t);
      assert ActsAs(m, op, t, plan(t).value);
    }
  }

  // ---------- Sites ----------

  predicate AnyPlan(x: Instr<nat>, plans: seq<Planner>) {
    exists k :: 0 <= k < |plans| && Matches(x, plans[k])
  }

  /** The call at `i` carries no prefix and ends no handler. */
  predicate Unguarded(b: Body, i: nat)
    requires i < |b.code|
  {
    PrefixAt(b.code, i).None? && NotHandlerEnd(b.clauses, i)
  }

  /** No call that any of the replacements matches carries a prefix or ends a handler. */
  predicate Clean(b: Body, plans: seq<Planner>) {
    forall i :: 0 <= i < |b.code| && AnyPlan(b.code[i], plans) ==> Unguarded(b, i)
  }

  lemma {:induction false} PosApart(code: Code, plan: Planner, i: nat, k: nat, last: nat)
    requires i < |code| && k < |BlockAt(code, plan, i)| && last <= |code| && (k > 0 || last != i)
    ensures Pos(code, plan, last) != Pos(code, plan, i) + k
  {
    hide BlockAt;
    hide Pos;
    if last <= i {
      PosGrows(code, plan, last, i);
    } else {
      PosGrows(code, plan, i, last);
    }
  }

  lemma {:induction false} NotMovedEnd(b: Body, plan: Planner, i: nat, k: nat)
    requires BodyOk(b) && i < |b.code| && k < |BlockAt(b.code, plan, i)| && (k > 0 || NotHandlerEnd(b.clauses, i))
    ensures NotHandlerEnd(RewriteBody(b, plan).clauses, Pos(b.code, plan, i) + k)
  {
    BodyParts(b, plan);
    var moved := RewriteBody(b, plan).clauses;
    hide RewriteBody;
    hide Pos;
    hide BlockAt;
    hide BodyOk;
    forall j | 0 <= j < |moved|
      ensures moved[j].handlerLast != Pos(b.code, plan, i) + k
    {
      assert ClauseOk(b.clauses[j], |b.code|);
      assert moved[j] == MoveClause(b.code, plan, b.clauses[j]);
      PosApart(b.code, plan, i, k, b.clauses[j].handlerLast);
    }
  }

  lemma SameMatch(code: Code, plan: Planner, x: Instr<nat>, plans: seq<Planner>)
    ensures AnyPlan(Relabel(code, plan, x), plans) <==> AnyPlan(x, plans)
  {
    var y := Relabel(code, plan, x);
    assert y.op == x.op && Immediate(y) == Immediate(x);
    assert forall k :: 0 <= k < |plans| ==> (Matches(y, plans[k]) <==> Matches(x, plans[k]));
  }

  lemma AnyPlanIsCall(x: Instr<nat>, plans: seq<Planner>)
    requires AnyPlan(x, plans)
    ensures IsCall(x.op)
  {
  }

  lemma BlockCallIs(op: nat)
    requires IsBlockOp(op) && IsCall(op)
    ensures op == CALL
  {
  }

  /** One position of the rewritten body. */
  lemma {:induction false} CleanAt(b: Body, plan: Planner, plans: seq<Planner>, i: nat, k: nat)
    requires BodyOk(b) && Clean(b, plans) && i < |b.code| && k < |BlockAt(b.code, plan, i)|
    requires Pos(b.code, plan, i) + k < |RewriteBody(b, plan).code|
    requires AnyPlan(RewriteBody(b, plan).code[Pos(b.code, plan, i) + k], plans)
    ensures Unguarded(RewriteBody(b, plan), Pos(b.code, plan, i) + k)
  {
    hide *;
    BodyParts(b, plan);
    RewriteAt(b.code, plan, i, k);
    if Chosen(b.code, plan, i) {
      ChosenBlock(b.code, plan, i);
      BlockCode(b.code, plan, i, k);
      AnyPlanIsCall(Rewrite(b.code, plan)[Pos(b.code, plan, i) + k], plans);
      BlockCallIs(Rewrite(b.code, plan)[Pos(b.code, plan, i) + k].op);
      NotFirst(b.code, plan, i, k);
      NotMovedEnd(b, plan, i, k);
    } else {
      OnlyOne(b.code, plan, i);
      SameMatch(b.code, plan, b.code[i], plans);
      CleanHere(b, plans, i);
      PrefixKept(b.code, plan, i);
      NotMovedEnd(b, plan, i, k);
    }
    UnguardedIs(RewriteBody(b, plan), Pos(b.code, plan, i) + k);
  }

  lemma OnlyOne(code: Code, plan: Planner, i: nat)
    requires i < |code| && !Chosen(code, plan, i)
    ensures BlockAt(code, plan, i) == [code[i]] && |BlockAt(code, plan, i)| == 1
  {
  }

  /** The node of a rewritten call is a nop, so a call in its block is behind it. */
  lemma NotFirst(code: Code, plan: Planner, i: nat, k: nat)
    requires i < |code| && Chosen(code, plan, i) && k < |Block(code[i], PlanAt(code, plan, i))|
    requires Block(code[i], PlanAt(code, plan, i))[k].op == CALL
    ensures k > 0
  {
  }

  lemma CleanHere(b: Body, plans: seq<Planner>, i: nat)
    requires Clean(b, plans) && i < |b.code| && AnyPlan(b.code[i], plans)
    ensures PrefixAt(b.code, i).None? && NotHandlerEnd(b.clauses, i)
  {
  }

  lemma UnguardedIs(b: Body, i: nat)
    requires i < |b.code| && PrefixAt(b.code, i).None? && NotHandlerEnd(b.clauses, i)
    ensures Unguarded(b, i)
  {
  }

  /** A pass leaves no matching call with a prefix or at the end of a handler, not even among those it inserts. */
  lemma {:induction false} CleanStep(b: Body, plan: Planner, plans: seq<Planner>)
    requires BodyOk(b) && Clean(b, plans)
    ensures Clean(RewriteBody(b, plan), plans)
  {
    var r := RewriteBody(b, plan);
    hide RewriteBody;
    hide Unguarded;
    hide AnyPlan;
    BodyParts(b, plan);
    RewriteLength(b.code, plan);
    forall q | 0 <= q < |r.code| && AnyPlan(r.code[q], plans)
      ensures Unguarded(r, q)
    {
      var i, k := BlockOf(b.code, plan, q, |b.code|);
      CleanAt(b, plan, plans, i, k);
    }
  }

  lemma {:induction false} CleanSites<V(!new), W(!new), R(!new)>(m: Machine<V, W, R>, b: Body, plans: seq<Planner>, k: nat)
    requires k < |plans| && Clean(b, plans) && WrappersFaithful(m, plans[k])
    ensures GoodSites(m, b, plans[k])
  {
    hide Faithful;
    forall i | 0 <= i < |b.code| && Chosen(b.code, plans[k], i)
      ensures Faithful(m, b.code[i].op, Immediate(b.code[i]), PlanAt(b.code, plans[k], i))
      ensures PrefixAt(b.code, i).None? && NotHandlerEnd(b.clauses, i)
    {
      assert Matches(b.code[i], plans[k]) && AnyPlan(b.code[i], plans);
      assert Unguarded(b, i);
    }
  }

  ghost predicate IsPlan(pass: Planner, plans: seq<Planner>) {
    exists k :: 0 <= k < |plans| && pass == plans[k]
  }

  /** No call that any of the replacements matches ends a handler. */
  predicate HandlersClear(b: Body, plans: seq<Planner>) {
    forall i :: 0 <= i < |b.code| && AnyPlan(b.code[i], plans) ==> NotHandlerEnd(b.clauses, i)
  }

  lemma ClearAt(b: Body, plans: seq<Planner>, i: nat)
    requires HandlersClear(b, plans) && i < |b.code| && AnyPlan(b.code[i], plans)
    ensures NotHandlerEnd(b.clauses, i)
  {
  }

  lemma {:induction false} HandlersClearAt(b: Body, plan: Planner, plans: seq<Planner>, i: nat, k: nat)
    requires BodyOk(b) && HandlersClear(b, plans) && i < |b.code| && k < |BlockAt(b.code, plan, i)|
    requires Pos(b.code, plan, i) + k < |RewriteBody(b, plan).code|
    requires AnyPlan(RewriteBody(b, plan).code[Pos(b.code, plan, i) + k], plans)
    ensures NotHandlerEnd(RewriteBody(b, plan).clauses, Pos(b.code, plan, i) + k)
  {
    hide *;
    BodyParts(b, plan);
    RewriteAt(b.code, plan, i, k);
    if Chosen(b.code, plan, i) {
      ChosenBlock(b.code, plan, i);
      BlockCode(b.code, plan, i, k);
      AnyPlanIsCall(Rewrite(b.code, plan)[Pos(b.code, plan, i) + k], plans);
      BlockCallIs(Rewrite(b.code, plan)[Pos(b.code, plan, i) + k].op);
      NotFirst(b.code, plan, i, k);
    } else {
      OnlyOne(b.code, plan, i);
      SameMatch(b.code, plan, b.code[i], plans);
      ClearAt(b, plans, i);
    }
    NotMovedEnd(b, plan, i, k);
  }

  /** A pass leaves no matching call at the end of a handler. */
  lemma {:induction false} HandlersClearStep(b: Body, plan: Planner, plans: seq<Planner>)
    requires BodyOk(b) && HandlersClear(b, plans)
    ensures HandlersClear(RewriteBody(b, plan), plans)
  {
    var r := RewriteBody(b, plan);
    hide RewriteBody;
    hide NotHandlerEnd;
    hide AnyPlan;
    BodyParts(b, plan);
    RewriteLength(b.code, plan);
    forall q | 0 <= q < |r.code| && AnyPlan(r.code[q], plans)
      ensures NotHandlerEnd(r.clauses, q)
    {
      var i, k := BlockOf(b.code, plan, q, |b.code|);
      HandlersClearAt(b, plan, plans, i, k);
    }
  }

  /** Every pass is one of the plans. */
  ghost predicate PassesOf(passes: seq<Planner>, plans: seq<Planner>) {
    forall j :: 0 <= j < |passes| ==> IsPlan(passes[j], plans)
  }

  lemma PassIs(passes: seq<Planner>, plans: seq<Planner>, j: nat) returns (k: nat)
    requires PassesOf(passes, plans) && j < |passes|
    ensures k < |plans| && passes[j] == plans[k]
  {
    assert IsPlan(passes[j], plans);
    k :| 0 <= k < |plans| && passes[j] == plans[k];
  }

  lemma PassesRest(passes: seq<Planner>, plans: seq<Planner>)
    requires PassesOf(passes, plans) && passes != []
    ensures PassesOf(passes[1..], plans)
  {
    forall j | 0 <= j < |passes[1..]|
      ensures IsPlan(passes[1..][j], plans)
    {
      assert passes[1..][j] == passes[j + 1];
    }
  }

  /** A condition on the imported body is enough for all passes over it. */
  lemma {:induction false} CleanPasses<V(!new), W(!new), R(!new)>(
    m: Machine<V, W, R>, b: Body, passes: seq<Planner>, plans: seq<Planner>)
    requires BodyOk(b) && Clean(b, plans) && PassesOf(passes, plans)
    requires forall k :: 0 <= k < |plans| ==> WrappersFaithful(m, plans[k])
    ensures GoodPasses(m, b, passes)
    decreases |passes|
  {
    hide Clean;
    hide WrappersFaithful;
    hide GoodSites;
    hide RewriteBody;
    if passes != [] {
      var k := PassIs(passes, plans, 0);
      CleanSites(m, b, plans, k);
      CleanStep(b, passes[0], plans);
      PassesRest(passes, plans);
      CleanPasses(m, RewriteBody(b, passes[0]), passes[1..], plans);
    }
  }
}
