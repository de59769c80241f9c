/**
 What compiling a method does to its body, stage by stage (cor_profiler.cpp:536-580): the startup hook
 and the insertions each import the stored body, put calls in front and store it again, then the
 replacements do their part. What is stored is read back by the next stage, and in the end by the
 runtime.
 */
module Stages {
  import opened Bytes
  import opened Opcodes
  import opened Layout
  import opened Codec
  import opened Decoding
  import opened Replacement
  import opened Regions
  import opened Sweeps
  import opened RewrittenForm
  import opened StackMachine
  import opened Simulation
  import opened Preservation
  import opened Acceptance
  import opened SiteConditions
  import opened WideningMeaning
  import opened Insertion
  import opened ILRewriterObject
  import opened ReplacementPass
  import opened ClausePass
  import opened Pipeline
  import opened RegionChain

  // ---------- Insertions keep the form ----------

  predicate TokensFit(tokens: seq<int>) {
    forall k :: 0 <= k < |tokens| ==> Fits(4, tokens[k])
  }

  lemma {:induction false} TablesShift(code: Code, token: int, i: nat)
    requires i <= |code| && TablesOk(code, i)
    ensures TablesOk(InsertFirst(code, token), i + 1)
    decreases |code| - i
  {
    var r := InsertFirst(code, token);
    if i < |code| {
      assert r[i + 1] == Shift(code[i]);
      if code[i].op == SWITCH {
        var n := code[i].operand.value;
        TablesShift(code, token, i + 1 + n);
        forall j | i + 1 < j <= i + 1 + n
          ensures r[j].op == SWITCH_ARG
        {
          assert r[j] == Shift(code[j - 1]);
        }
      } else {
        TablesShift(code, token, i + 1);
      }
    }
  }

  lemma ShiftProper(code: Code, token: int, x: Instr<nat>)
    requires Proper(code, x)
    ensures Proper(InsertFirst(code, token), Shift(x))
  {
    hide KindOf;
    hide Importable;
    if HasLabel(x.op) && x.operand.dest < |code| {
      assert InsertFirst(code, token)[x.operand.dest + 1] == Shift(code[x.operand.dest]);
    }
    OperandShift(x);
  }

  lemma OperandShift(x: Instr<nat>)
    requires OperandOk(x)
    ensures OperandOk(Shift(x))
  {
    hide KindOf;
  }

  lemma CallProper(code: Code, token: int)
    requires Fits(4, token)
    ensures Proper(code, Instr(CALL, Imm(token)))
  {
  }

  lemma {:induction false} InsertWellFormed(code: Code, token: int)
    requires WellFormed(code) && Fits(4, token)
    ensures WellFormed(InsertFirst(code, token))
  {
    hide *;
    ProperMeans(code);
    var r := InsertFirst(code, token);
    InsertShape(code, token);
    forall i | 0 <= i < |r|
      ensures Proper(r, r[i])
    {
      if i == 0 {
        CallProper(r, token);
      } else {
        ShiftProper(code, token, code[i - 1]);
      }
    }
    TablesShift(code, token, 0);
    TablesFront(r);
    ProperMeans(r);
  }

  lemma InsertShape(code: Code, token: int)
    ensures var r := InsertFirst(code, token);
            && |r| == |code| + 1 && r[0] == Instr(CALL, Imm(token)) && r[0].op == CALL
            && forall i :: 0 < i < |r| ==> r[i] == Shift(code[i - 1])
  {
    var r := InsertFirst(code, token);
    forall i | 0 < i < |r|
      ensures r[i] == Shift(code[i - 1])
    {
      assert r[(i - 1) + 1] == Shift(code[i - 1]);
    }
  }

  lemma TablesFront(r: Code)
    requires |r| > 0 && r[0].op == CALL && TablesOk(r, 1)
    ensures TablesOk(r, 0)
  {
  }

  lemma StartsShift(code: Code, token: int, p: nat)
    requires StartsInstr(code, p)
    ensures StartsInstr(InsertFirst(code, token), p + 1)
  {
    if p < |code| {
      assert InsertFirst(code, token)[p + 1] == Shift(code[p]);
    }
  }

  lemma {:induction false} BoundariesShift(code: Code, token: int, c: Clause)
    requires BoundariesOk(code, c)
    ensures BoundariesOk(InsertFirst(code, token), ShiftClause(c))
  {
    StartsShift(code, token, c.tryBegin);
    StartsShift(code, token, c.tryEnd);
    StartsShift(code, token, c.handlerBegin);
    StartsShift(code, token, Next(c.handlerLast, |code|));
    if c.catch.FilterBegin? {
      StartsShift(code, token, c.catch.pos);
    }
    InsertShape(code, token);
    var r := InsertFirst(code, token);
    assert StartsInstr(r, 0);
    hide *;
    ShiftedBoundaries(code, r, c);
  }

  lemma ShiftedBoundaries(code: Code, r: Code, c: Clause)
    requires BoundariesOk(code, c) && |r| == |code| + 1 && StartsInstr(r, 0)
    requires StartsInstr(r, c.tryBegin + 1) && StartsInstr(r, c.tryEnd + 1) && StartsInstr(r, c.handlerBegin + 1)
    requires StartsInstr(r, Next(c.handlerLast, |code|) + 1)
    requires c.catch.FilterBegin? ==> StartsInstr(r, c.catch.pos + 1)
    ensures BoundariesOk(r, ShiftClause(c))
  {
    hide StartsInstr;
  }

  lemma {:induction false} InsertBoundaries(b: Body, token: int)
    requires BodyBoundaries(b) && BodyOk(b) && Fits(4, token)
    ensures BodyBoundaries(InsertBody(b, token))
  {
    var r := InsertBody(b, token);
    InsertWellFormed(b.code, token);
    hide WellFormed;
    hide InsertFirst;
    hide BoundariesOk;
    forall i | 0 <= i < |r.clauses|
      ensures BoundariesOk(r.code, r.clauses[i])
    {
      BoundariesShift(b.code, token, b.clauses[i]);
    }
  }

  lemma InsertBare(code: Code, token: int)
    requires Bare(code)
    ensures Bare(InsertFirst(code, token))
  {
    var r := InsertFirst(code, token);
    InsertShape(code, token);
    hide InsertFirst;
    forall i {:trigger r[i]} | 0 <= i < |r|
      ensures BareAt(r[i])
    {
      if i > 0 {
        assert BareAt(code[i - 1]);
      }
    }
  }

  /** What the stages need of a body, and keep: clause boundaries at instruction starts, no operand to lose. */
  ghost predicate Sturdy(b: Body) {
    BodyOk(b) && BodyBoundaries(b) && Bare(b.code)
  }

  lemma {:induction false} InsertAllSturdy(b: Body, tokens: seq<int>)
    requires Sturdy(b) && TokensFit(tokens)
    ensures Sturdy(InsertAll(b, tokens))
    decreases |tokens|
  {
    if tokens != [] {
      InsertBoundaries(b, tokens[0]);
      InsertBare(b.code, tokens[0]);
      hide BodyBoundaries;
      hide Bare;
      InsertAllSturdy(InsertBody(b, tokens[0]), tokens[1..]);
    }
  }

  lemma {:induction false} ImportSturdy(held: Stored)
    requires ImportBody(held.bytes, held.clauses).Some?
    ensures Sturdy(ImportBody(held.bytes, held.clauses).value)
  {
    ImportBodyIs(held.bytes, held.clauses);
    hide *;
    StartBoundaries(held.bytes, held.clauses);
    ImportBodyOk(held.bytes, held.clauses);
    ImportBare(held.bytes);
    SturdyIs(ImportBody(held.bytes, held.clauses).value);
  }

  lemma SturdyIs(b: Body)
    ensures Sturdy(b) <==> BodyOk(b) && BodyBoundaries(b) && Bare(b.code)
  {
  }

  lemma {:induction false} InstrumentedSturdy(b: Body, plans: seq<Planner>)
    requires Sturdy(b) && EndsAll(b.code, plans) && PlansFit(plans)
    ensures Sturdy(Instrumented(b, plans))
  {
    assert Instrumented(b, plans) == RewriteAll(b, AllPasses(b.code, plans));
    hide *;
    SturdyIs(b);
    AllPassesOf(b.code, plans);
    PassesFit(AllPasses(b.code, plans), plans);
    PassesBoundaries(b, AllPasses(b.code, plans));
    PassesBare(b, AllPasses(b.code, plans));
    SturdyIs(Instrumented(b, plans));
  }

  // ---------- The insertion stage over the linked list ----------

  /**
   ProcessInsertionCalls, and RunILStartupHook with the hook's token: unless there is nothing to
   insert, the body is stored with the calls in front and its stack bound raised.
   */
  method ProcessInsertionCalls(held: Stored, tokens: seq<int>) returns (out: StageResult)
    requires TokensFit(tokens)
    ensures out.Fault? <==> Decode(held.bytes).Ok? && ImportBody(held.bytes, held.clauses).None?
    ensures ImportBody(held.bytes, held.clauses).Some? ==>
              var body := ImportBody(held.bytes, held.clauses).value;
              && BodyOk(body) && (out.Unchanged? <==> tokens == [])
              && (out.Written? ==> StoredAs(out.stored, InsertAll(body, tokens), held.maxStack + PushSum(body.code) + |tokens|))
    ensures Decode(held.bytes).Err? ==> out.Unchanged?
  {
    hide *;
    var rewriter := new ILRewriter(held.maxStack);
    var ok, fault, ns := ImportMethod(rewriter, held.bytes, held.clauses);
    ImportBodyIs(held.bytes, held.clauses);
    ImportIs(held.bytes);
    if !ok {
      return Unchanged;
    }
    if fault {
      return Fault;
    }
    if tokens == [] {
      return Unchanged;
    }
    ghost var body := ImportBody(held.bytes, held.clauses).value;
    InsertCalls(rewriter, tokens, body, ns);
    ImportSturdy(held);
    InsertAllSturdy(body, tokens);
    SturdyIs(InsertAll(body, tokens));
    BoundariesBody(InsertAll(body, tokens));
    var stored := ExportMethod(rewriter, ns, InsertAll(body, tokens));
    out := Written(stored);
  }

  // ---------- Regions through an insertion stage ----------

  /**
   An insertion stage keeps the regions, the filters and the class tokens of every original
   instruction, on the stored and the written bytes.
   */
  lemma {:induction false} InsertionRegionsSurvive(held: Stored, tokens: seq<int>, out: Stored, maxStack: int, j: nat, i: nat)
    requires ImportBody(held.bytes, held.clauses).Some? && BodyOk(ImportBody(held.bytes, held.clauses).value)
    requires StoredAs(out, InsertAll(ImportBody(held.bytes, held.clauses).value, tokens), maxStack)
    requires j < |held.clauses| && i < |ImportBody(held.bytes, held.clauses).value.code|
    ensures var body := ImportBody(held.bytes, held.clauses).value; var wide := Settle(InsertAll(body, tokens).code);
            && j < |out.clauses| && |tokens| + i < |wide|
            && SameRegions(held.clauses[j], Offset(body.code, i), out.clauses[j], Offset(wide, |tokens| + i))
  {
    hide *;
    var body := ImportBody(held.bytes, held.clauses).value;
    var after := InsertAll(body, tokens);
    ClauseCount(held);
    InsertedCovers(body, tokens, j, i);
    RegionsAcross(held, after, out, maxStack, j, i, |tokens| + i);
  }

  /** The inserted calls are written outside every try, handler and filter range. */
  lemma {:induction false} InsertedWrittenOutside(b: Body, tokens: seq<int>, out: Stored, maxStack: int, j: nat, k: nat)
    requires BodyOk(b) && StoredAs(out, InsertAll(b, tokens), maxStack) && j < |b.clauses| && k < |tokens|
    ensures var wide := Settle(InsertAll(b, tokens).code);
            && j < |out.clauses| && k < |wide|
            && var g := out.clauses[j]; var o := Offset(wide, k);
               && !ByteIn(o, g.tryOffset, g.tryLength) && !ByteIn(o, g.handlerOffset, g.handlerLength)
               && (g.flags % 2 == 1 ==> !(g.tokenOrFilter <= o < g.handlerOffset))
  {
    var after := InsertAll(b, tokens);
    var wide := Settle(after.code);
    SettleWidens(after.code);
    assert |wide| == |after.code|;
    InsertedCovers(b, tokens, j, k);
    assert |out.clauses| == |after.clauses| && ClauseOk(after.clauses[j], |wide|);
    assert out.clauses[j] == ExportClause(wide, after.clauses[j]);
    ExportedRangesExact(wide, after.clauses[j], k);
    hide Offset;
    hide Settle;
    hide InsertAll;
    hide ByteIn;
  }

  // ---------- What is stored and what it does ----------

  /** A stored body is read back with a list that any machine runs like the one that was stored. */
  lemma {:induction false} StoredAlike(body: Body, out: Stored, maxStack: int)
    requires BodyOk(body) && Sturdy(body) && StoredAs(out, body, maxStack) && CodeSize(Settle(body.code)) < 0x8000_0000
    ensures ImportBody(out.bytes, out.clauses).Some?
    ensures var back := ImportBody(out.bytes, out.clauses).value;
            BodyOk(back) && back.clauses == body.clauses && Alike(body.code, back.code)
  {
    var wide := Settle(body.code);
    assert Closed(wide);
    hide *;
    SturdyIs(body);
    BodyReadsBack(body, out, maxStack);
    ImportBodyOk(out.bytes, out.clauses);
    AlikeTransitive(body.code, wide, AsCode(Imported(wide)));
  }

  /** What the meaning theorems ask of the machine and of the replacements. */
  ghost predicate Lawful<V(!new), W(!new), R(!new)>(m: Machine<V, W, R>, rules: seq<Rule>) {
    && WidthBlind(m) && RulesOk(rules)
    && forall k :: 0 <= k < |rules| ==> ReadsArity(m, rules[k]) && WrappersAct(m, PlannerOf(rules[k]))
  }

  lemma {:induction false} LawfulPasses<V(!new), W(!new), R(!new)>(m: Machine<V, W, R>, rules: seq<Rule>, b: Body)
    requires Lawful(m, rules) && BodyOk(b) && Clean(b, Planners(rules)) && EndsAll(b.code, Planners(rules))
    ensures GoodPasses(m, b, AllPasses(b.code, Planners(rules)))
  {
    var plans := Planners(rules);
    hide ReadsArity;
    hide WrappersAct;
    hide WrappersFaithful;
    hide RuleOk;
    hide PlannerOf;
    hide Clean;
    hide AllPasses;
    hide EndsAll;
    hide GoodPasses;
    hide BodyOk;
    forall k | 0 <= k < |plans|
      ensures WrappersFaithful(m, plans[k])
    {
      AcceptedFaithful(m, rules[k]);
    }
    AllPassesOf(b.code, plans);
    CleanPasses(m, b, AllPasses(b.code, plans), plans);
  }

  /**
   The body that the replacements store behaves as the one they imported, as the runtime reads it
   back, widened branches and all: one reaches a state exactly when the other reaches its image. The
   conditions are on the rules and on the imported body: wrappers act as their targets, and no
   matching call carries a prefix or ends a handler.
   */
  lemma {:induction false} PipelinePreservesMeaning<V(!new), W(!new), R(!new)>(
    m: Machine<V, W, R>, held: Stored, rules: seq<Rule>, out: Stored, maxStack: int, s: State<V, W, R>, t: State<V, W, R>)
    requires Lawful(m, rules) && ImportBody(held.bytes, held.clauses).Some?
    requires var body := ImportBody(held.bytes, held.clauses).value; var plans := Planners(rules);
             && BodyOk(body) && EndsAll(body.code, plans) && Clean(body, plans) && InRange(body, s) && InRange(body, t)
             && StoredAs(out, Instrumented(body, plans), maxStack)
             && CodeSize(Settle(Instrumented(body, plans).code)) < 0x8000_0000
    ensures ImportBody(out.bytes, out.clauses).Some? && BodyOk(ImportBody(out.bytes, out.clauses).value)
    ensures var body := ImportBody(held.bytes, held.clauses).value; var passes := AllPasses(body.code, Planners(rules));
            Reaches(m, body, s, t) <==>
            Reaches(m, ImportBody(out.bytes, out.clauses).value, ImgAll(body, passes, s), ImgAll(body, passes, t))
  {
    var body, plans := ImportBody(held.bytes, held.clauses).value, Planners(rules);
    var passes, after := AllPasses(body.code, plans), Instrumented(body, plans);
    assert after == RewriteAll(body, passes);
    assert WidthBlind(m) && RulesOk(rules);
    hide *;
    RulesEnd(rules, body.code);
    ImportSturdy(held);
    InstrumentedSturdy(body, plans);
    StoredAlike(after, out, maxStack);
    LawfulPasses(m, rules, body);
    AllReplacementsPreserveMeaning(m, body, passes, s, t);
    ReachesAlike(m, after, ImportBody(out.bytes, out.clauses).value, ImgAll(body, passes, s), ImgAll(body, passes, t));
  }

  // ---------- Stack depth over all stages ----------

  /** The bound covers every state of every run from the method's entry. */
  ghost predicate Bounded<V(!new), W(!new), R>(m: Machine<V, W, R>, b: Body, bound: int)
    requires BodyOk(b)
  {
    forall w: W, n: nat :: Depth(Run(m, b, n, Running(0, [], w))) <= bound
  }

  /** The header of a stored body is right. */
  ghost predicate CoversStack<V(!new), W(!new), R>(m: Machine<V, W, R>, held: Stored) {
    && ImportBody(held.bytes, held.clauses).Some? && BodyOk(ImportBody(held.bytes, held.clauses).value)
    && Bounded(m, ImportBody(held.bytes, held.clauses).value, held.maxStack)
  }

  /** A call that can stand in front of a method: no arguments, no result. */
  ghost predicate VoidCall<V(!new), W(!new), R>(m: Machine<V, W, R>, token: int) {
    m.arity(token) == 0 && forall w: W :: m.invoke(CALL, token, None, [], w).Returned? ==> m.invoke(CALL, token, None, [], w).value.None?
  }

  /** An exception outside every region leaves the method. */
  ghost predicate RespectsRegions<V(!new), W(!new), R>(m: Machine<V, W, R>) {
    forall cover: seq<Cover>, e: V, w: W :: Outside(cover) ==> m.raise(cover, e, w).Exit?
  }

  lemma {:induction false} DoneStays<V, W, R>(m: Machine<V, W, R>, b: Body, n: nat, r: R)
    requires BodyOk(b)
    ensures Run(m, b, n, Done(r)) == Done(r)
  {
    if n > 0 {
      DoneStays(m, b, n - 1, r);
    }
  }

  /** A call inserted in front does not deepen the stack. */
  lemma {:induction false} InsertDepth<V(!new), W(!new), R>(m: Machine<V, W, R>, b: Body, token: int, bound: nat)
    requires BodyOk(b) && Bounded(m, b, bound) && VoidCall(m, token) && RespectsRegions(m)
    ensures Bounded(m, InsertBody(b, token), bound)
  {
    var r := InsertBody(b, token);
    forall w: W, n: nat
      ensures Depth(Run(m, r, n, Running(0, [], w))) <= bound
    {
      if n > 0 {
        InsertedRunsOnce(m, b, token, n - 1, [], w);
        var first := m.invoke(CALL, token, None, [], w);
        if first.Returned? {
          assert Depth(Run(m, b, n - 1, Running(0, [], first.world))) <= bound;
        } else {
          ThrownLeaves(m, b, token, n, w);
        }
      }
      hide Run;
      hide InsertBody;
    }
  }

  lemma {:induction false} ThrownLeaves<V(!new), W(!new), R>(m: Machine<V, W, R>, b: Body, token: int, n: nat, w: W)
    requires BodyOk(b) && m.arity(token) == 0 && RespectsRegions(m) && n > 0 && m.invoke(CALL, token, None, [], w).Threw?
    ensures Run(m, InsertBody(b, token), n, Running(0, [], w)).Done?
  {
    var r, first := InsertBody(b, token), m.invoke(CALL, token, None, [], w);
    FirstStep(m, b, token, [], w);
    InsertedOutsideRegions(b.clauses, |b.code|, 0);
    var d := m.raise(Covers(r.clauses, |r.code|, 0), first.exn, first.world);
    assert d.Exit?;
    assert Step(m, r, Running(0, [], w)) == Done(d.result);
    hide Step;
    DoneStays(m, r, n - 1, d.result);
  }

  lemma {:induction false} InsertAllDepth<V(!new), W(!new), R>(m: Machine<V, W, R>, b: Body, tokens: seq<int>, bound: nat)
    requires BodyOk(b) && Bounded(m, b, bound) && RespectsRegions(m) && forall k :: 0 <= k < |tokens| ==> VoidCall(m, tokens[k])
    ensures Bounded(m, InsertAll(b, tokens), bound)
    decreases |tokens|
  {
    hide Bounded;
    hide VoidCall;
    hide RespectsRegions;
    hide InsertBody;
    if tokens != [] {
      InsertDepth(m, b, tokens[0], bound);
      InsertAllDepth(m, InsertBody(b, tokens[0]), tokens[1..], bound);
    }
  }

  lemma {:induction false} EntryImage<V, W, R>(b: Body, passes: seq<Planner>, w: W)
    requires BodyOk(b)
    ensures ImgAll<V, W, R>(b, passes, Running(0, [], w)) == Running(0, [], w)
    decreases |passes|
  {
    if passes != [] {
      assert Img<V, W, R>(b, passes[0], Running(0, [], w)) == Running(0, [], w);
      EntryImage<V, W, R>(RewriteBody(b, passes[0]), passes[1..], w);
    }
  }

  lemma {:induction false} InstrumentedDepth<V(!new), W(!new), R(!new)>(m: Machine<V, W, R>, rules: seq<Rule>, b: Body, bound: nat)
    requires Lawful(m, rules) && BodyOk(b) && Clean(b, Planners(rules)) && EndsAll(b.code, Planners(rules)) && Bounded(m, b, bound)
    ensures var after := Instrumented(b, Planners(rules)); Bounded(m, after, bound + |after.code| - |b.code|)
  {
    var plans := Planners(rules);
    var passes := AllPasses(b.code, plans);
    assert Instrumented(b, plans) == RewriteAll(b, passes);
    LawfulPasses(m, rules, b);
    hide Lawful;
    hide Clean;
    hide EndsAll;
    hide AllPasses;
    hide RewriteAll;
    hide GoodPasses;
    hide BodyOk;
    hide Run;
    hide ImgAll;
    forall w: W, n: nat
      ensures Depth(Run(m, RewriteAll(b, passes), n, Running(0, [], w))) <= bound + |RewriteAll(b, passes).code| - |b.code|
    {
      assert forall k: nat :: Depth(Run(m, b, k, Running(0, [], w))) <= bound;
      StackDepthBound(m, b, passes, bound, Running(0, [], w), n);
      EntryImage<V, W, R>(b, passes, w);
    }
  }

  /** The header written for a body is right if its value, before it was cut to 16 bits, was and fits. */
  lemma {:induction false} StoredCovers<V(!new), W(!new), R>(m: Machine<V, W, R>, body: Body, out: Stored, maxStack: nat)
    requires WidthBlind(m) && BodyOk(body) && Sturdy(body) && StoredAs(out, body, maxStack) && CodeSize(Settle(body.code)) < 0x8000_0000
    requires Bounded(m, body, maxStack) && maxStack < 0x1_0000
    ensures CoversStack(m, out)
  {
    assert out.maxStack == maxStack;
    StoredAlike(body, out, maxStack);
    var back := ImportBody(out.bytes, out.clauses).value;
    hide Sturdy;
    hide StoredAs;
    hide Run;
    hide Alike;
    hide WidthBlind;
    hide BodyOk;
    forall w: W, n: nat
      ensures Depth(Run(m, back, n, Running(0, [], w))) <= maxStack
    {
      RunAlike(m, body, back, n, Running(0, [], w));
      assert Depth(Run(m, body, n, Running(0, [], w))) <= maxStack;
    }
  }

  lemma BoundedMore<V(!new), W(!new), R>(m: Machine<V, W, R>, b: Body, bound: int, more: int)
    requires BodyOk(b) && Bounded(m, b, bound) && bound <= more
    ensures Bounded(m, b, more)
  {
    hide Run;
  }

  /** One insertion stage: what it writes into the stack bound, all of which must fit the header's field. */
  ghost predicate Inserts(held: Stored, tokens: seq<int>, out: Stored) {
    && ImportBody(held.bytes, held.clauses).Some? && BodyOk(ImportBody(held.bytes, held.clauses).value)
    && var body := ImportBody(held.bytes, held.clauses).value; var sum := held.maxStack + PushSum(body.code) + |tokens|;
    if tokens == [] then out == held
    else StoredAs(out, InsertAll(body, tokens), sum) && sum < 0x1_0000 && CodeSize(Settle(InsertAll(body, tokens).code)) < 0x8000_0000
  }

  lemma InsertsParts(held: Stored, tokens: seq<int>, out: Stored)
    requires Inserts(held, tokens, out)
    ensures ImportBody(held.bytes, held.clauses).Some? && BodyOk(ImportBody(held.bytes, held.clauses).value)
    ensures var body := ImportBody(held.bytes, held.clauses).value; var sum := held.maxStack + PushSum(body.code) + |tokens|;
            if tokens == [] then out == held
            else StoredAs(out, InsertAll(body, tokens), sum) && sum < 0x1_0000 && CodeSize(Settle(InsertAll(body, tokens).code)) < 0x8000_0000
  {
    hide StoredAs;
    hide ImportBody;
    hide InsertAll;
    hide BodyOk;
    hide Settle;
    hide Offset;
    hide PushSum;
  }

  lemma {:induction false} InsertsCovers<V(!new), W(!new), R>(m: Machine<V, W, R>, held: Stored, tokens: seq<int>, out: Stored)
    requires Inserts(held, tokens, out) && TokensFit(tokens) && CoversStack(m, held) && WidthBlind(m) && RespectsRegions(m)
    requires forall k :: 0 <= k < |tokens| ==> VoidCall(m, tokens[k])
    ensures CoversStack(m, out)
  {
    hide *;
    InsertsParts(held, tokens, out);
    if tokens != [] {
      var body := ImportBody(held.bytes, held.clauses).value;
      var sum := held.maxStack + PushSum(body.code) + |tokens|;
      CoversIs(m, held);
      ImportSturdy(held);
      InsertAllSturdy(body, tokens);
      InsertAllDepth(m, body, tokens, held.maxStack);
      BoundedMore(m, InsertAll(body, tokens), held.maxStack, sum);
      StoredCovers(m, InsertAll(body, tokens), out, sum);
    }
  }

  lemma CoversIs<V(!new), W(!new), R>(m: Machine<V, W, R>, held: Stored)
    requires CoversStack(m, held)
    ensures BodyOk(ImportBody(held.bytes, held.clauses).value) && Bounded(m, ImportBody(held.bytes, held.clauses).value, held.maxStack)
  {
  }

  /** The replacement stage likewise. */
  ghost predicate Replaces(held: Stored, plans: seq<Planner>, out: Stored) {
    && ImportBody(held.bytes, held.clauses).Some? && BodyOk(ImportBody(held.bytes, held.clauses).value)
    && var body := ImportBody(held.bytes, held.clauses).value;
    && EndsAll(body.code, plans)
    && (out == held ||
        (var after := Instrumented(body, plans); var sum := MaxStack(held.maxStack, body.code, plans);
         StoredAs(out, after, sum) && 0 <= sum < 0x1_0000 && CodeSize(Settle(after.code)) < 0x8000_0000))
  }

  lemma {:induction false} ReplacesCovers<V(!new), W(!new), R(!new)>(m: Machine<V, W, R>, held: Stored, rules: seq<Rule>, out: Stored)
    requires Lawful(m, rules) && Replaces(held, Planners(rules), out) && CoversStack(m, held)
    requires Clean(ImportBody(held.bytes, held.clauses).value, Planners(rules))
    ensures CoversStack(m, out)
  {
    if out != held {
      var body, plans := ImportBody(held.bytes, held.clauses).value, Planners(rules);
      var after, sum := Instrumented(body, plans), MaxStack(held.maxStack, body.code, plans);
      assert BodyOk(body) && Bounded(m, body, held.maxStack) && StoredAs(out, after, sum) && WidthBlind(m) && RulesOk(rules);
      SweptAllIsPasses(body, plans);
      assert after.code == SweptAll(body.code, plans);
      assert sum == held.maxStack + PushSum(body.code) + |after.code| - |body.code|;
      hide *;
      ImportSturdy(held);
      RulesEnd(rules, body.code);
      InstrumentedSturdy(body, plans);
      InstrumentedDepth(m, rules, body, held.maxStack);
      BoundedMore(m, after, held.maxStack + |after.code| - |body.code|, sum);
      StoredCovers(m, after, out, sum);
    }
  }

  // ---------- The condition on sites across stages ----------

  lemma ShiftMatches(x: Instr<nat>, plans: seq<Planner>)
    ensures AnyPlan(Shift(x), plans) <==> AnyPlan(x, plans)
  {
    assert forall k :: 0 <= k < |plans| ==> (Matches(Shift(x), plans[k]) <==> Matches(x, plans[k]));
  }

  lemma {:induction false} CleanInsert(b: Body, token: int, plans: seq<Planner>)
    requires BodyOk(b) && Clean(b, plans)
    ensures Clean(InsertBody(b, token), plans)
  {
    var r := InsertBody(b, token);
    InsertShape(b.code, token);
    hide Shift;
    hide InsertFirst;
    forall i | 0 <= i < |r.code| && AnyPlan(r.code[i], plans)
      ensures Unguarded(r, i)
    {
      if i > 0 {
        ShiftMatches(b.code[i - 1], plans);
        assert Unguarded(b, i - 1);
        PrefixShift(b.code, token, i - 1);
      }
      forall j | 0 <= j < |r.clauses|
        ensures r.clauses[j].handlerLast != i
      {
        assert r.clauses[j] == ShiftClause(b.clauses[j]);
      }
    }
  }

  lemma {:induction false} CleanInsertAll(b: Body, tokens: seq<int>, plans: seq<Planner>)
    requires BodyOk(b) && Clean(b, plans)
    ensures Clean(InsertAll(b, tokens), plans)
    decreases |tokens|
  {
    if tokens != [] {
      CleanInsert(b, tokens[0], plans);
      hide Clean;
      hide InsertBody;
      CleanInsertAll(InsertBody(b, tokens[0]), tokens[1..], plans);
    }
  }

  lemma AlikeMatches(x: Instr<nat>, y: Instr<nat>, plans: seq<Planner>)
    requires AlikeAt(x, y)
    ensures AnyPlan(y, plans) ==> AnyPlan(x, plans)
  {
    if k :| 0 <= k < |plans| && Matches(y, plans[k]) {
      assert Matches(x, plans[k]);
    }
  }

  lemma {:induction false} CleanAlike(a: Body, b: Body, plans: seq<Planner>)
    requires Alike(a.code, b.code) && b.clauses == a.clauses && Clean(a, plans)
    ensures Clean(b, plans)
  {
    forall i | 0 <= i < |b.code| && AnyPlan(b.code[i], plans)
      ensures Unguarded(b, i)
    {
      assert AlikeAt(a.code[i], b.code[i]);
      AlikeMatches(a.code[i], b.code[i], plans);
      assert Unguarded(a, i);
      PrefixAlike(a.code, b.code, i);
    }
  }

  lemma {:induction false} InsertsClean(held: Stored, tokens: seq<int>, out: Stored, plans: seq<Planner>)
    requires Inserts(held, tokens, out) && TokensFit(tokens) && Clean(ImportBody(held.bytes, held.clauses).value, plans)
    ensures ImportBody(out.bytes, out.clauses).Some? && Clean(ImportBody(out.bytes, out.clauses).value, plans)
  {
    hide *;
    InsertsParts(held, tokens, out);
    if tokens != [] {
      var body := ImportBody(held.bytes, held.clauses).value;
      var sum := held.maxStack + PushSum(body.code) + |tokens|;
      ImportSturdy(held);
      InsertAllSturdy(body, tokens);
      StoredAlike(InsertAll(body, tokens), out, sum);
      CleanInsertAll(body, tokens, plans);
      CleanAlike(InsertAll(body, tokens), ImportBody(out.bytes, out.clauses).value, plans);
    }
  }

  /**
   The header stays right through hook, insertions and replacements, each of which imports what the
   one before stored and adds the push counts of all of it again: if the original header covered every
   run from the method's entry and every sum fitted the 16-bit field, so does the last one.
   */
  lemma {:induction false} HeaderCoversStack<V(!new), W(!new), R(!new)>(
    m: Machine<V, W, R>, held: Stored, hook: seq<int>, hooked: Stored, tokens: seq<int>, inserted: Stored, rules: seq<Rule>, out: Stored)
    requires Lawful(m, rules) && RespectsRegions(m) && CoversStack(m, held)
    requires Clean(ImportBody(held.bytes, held.clauses).value, Planners(rules))
    requires TokensFit(hook) && TokensFit(tokens)
    requires forall k :: 0 <= k < |hook| ==> VoidCall(m, hook[k])
    requires forall k :: 0 <= k < |tokens| ==> VoidCall(m, tokens[k])
    requires Inserts(held, hook, hooked) && Inserts(hooked, tokens, inserted) && Replaces(inserted, Planners(rules), out)
    ensures CoversStack(m, out)
  {
    assert WidthBlind(m);
    hide *;
    InsertsClean(held, hook, hooked, Planners(rules));
    InsertsClean(hooked, tokens, inserted, Planners(rules));
    InsertsCovers(m, held, hook, hooked);
    InsertsCovers(m, hooked, tokens, inserted);
    ReplacesCovers(m, inserted, rules, out);
  }
}
