/**
 ProcessReplacementCalls from bytes to bytes (cor_profiler.cpp:588-996): import the body, sweep over
 it once per method replacement, export it if anything changed.
 */
module Pipeline {
  import opened Bytes
  import opened Opcodes
  import opened Layout
  import opened Codec
  import opened Decoding
  import opened Replacement
  import opened Regions
  import opened Sweeps
  import opened RewrittenForm
  import opened StackMachine
  import opened Simulation
  import opened Preservation
  import opened ILRewriterObject
  import opened ImportPass
  import opened ReplacementPass
  import opened ExportPass
  import opened ClausePass
  import opened Acceptance

  // ---------- All replacements ----------

  ghost predicate PlansFit(plans: seq<Planner>) {
    forall k :: 0 <= k < |plans| ==> PlanFits(plans[k])
  }

  /** The loops of all replacements end, each on the list that the ones before it have left. */
  ghost predicate EndsAll(code: Code, plans: seq<Planner>)
    decreases |plans|
  {
    plans == [] || (Ends(code, plans[0]) && EndsAll(Swept(code, plans[0]), plans[1..]))
  }

  /** The list after the loops of all replacements. */
  ghost function SweptAll(code: Code, plans: seq<Planner>): (r: Code)
    requires EndsAll(code, plans)
    decreases |plans|
  {
    if plans == [] then code else SweptAll(Swept(code, plans[0]), plans[1..])
  }

  lemma {:induction false} SweptAllWellFormed(code: Code, plans: seq<Planner>)
    requires WellFormed(code) && EndsAll(code, plans) && PlansFit(plans)
    ensures WellFormed(SweptAll(code, plans))
    decreases |plans|
  {
    if plans != [] {
      SweptWellFormed(code, plans[0]);
      SweptAllWellFormed(Swept(code, plans[0]), plans[1..]);
    }
  }

  // ---------- Sweeps as passes ----------

  /** The passes that the loop of one replacement amounts to. */
  ghost function SweepPasses(code: Code, plan: Planner): (r: seq<Planner>)
    requires Ends(code, plan)
    decreases Rounds(code, plan)
  {
    if LastChosen(code, plan) then
      NextRound(code, plan);
      [plan] + SweepPasses(Rewrite(code, plan), plan)
    else [plan]
  }

  ghost function AllPasses(code: Code, plans: seq<Planner>): (r: seq<Planner>)
    requires EndsAll(code, plans)
    decreases |plans|
  {
    if plans == [] then [] else SweepPasses(code, plans[0]) + AllPasses(Swept(code, plans[0]), plans[1..])
  }

  lemma {:induction false} RewriteAllSplit(b: Body, p: seq<Planner>, q: seq<Planner>)
    requires BodyOk(b)
    ensures RewriteAll(b, p + q) == RewriteAll(RewriteAll(b, p), q)
    decreases |p|
  {
    if p == [] {
      assert p + q == q;
    } else {
      assert (p + q)[1..] == p[1..] + q;
      RewriteAllSplit(RewriteBody(b, p[0]), p[1..], q);
    }
  }

  /** The clauses of `out` are those of `b`, moved by the loop of one replacement. */
  ghost predicate ClausesSwept(b: Body, plan: Planner, out: Body)
    requires BodyOk(b) && Ends(b.code, plan)
  {
    |out.clauses| == |b.clauses| &&
    forall i {:trigger out.clauses[i]} :: 0 <= i < |b.clauses| ==> out.clauses[i] == SweptClause(b.code, plan, b.clauses[i])
  }

  lemma {:induction false} ClausesRound(b: Body, plan: Planner, b': Body, out: Body)
    requires BodyOk(b) && Ends(b.code, plan) && b' == RewriteBody(b, plan) && BodyOk(b')
    requires LastChosen(b.code, plan) ==> Ends(b'.code, plan) && ClausesSwept(b', plan, out)
    requires !LastChosen(b.code, plan) ==> out == b'
    ensures ClausesSwept(b, plan, out)
  {
    hide SweptClause;
    hide MoveClause;
    hide LastChosen;
    hide Rewrite;
    assert b'.code == Rewrite(b.code, plan) && |b'.clauses| == |b.clauses|;
    forall i {:trigger out.clauses[i]} | 0 <= i < |b.clauses|
      ensures out.clauses[i] == SweptClause(b.code, plan, b.clauses[i])
    {
      assert ClauseOk(b.clauses[i], |b.code|);
      assert b'.clauses[i] == MoveClause(b.code, plan, b.clauses[i]);
      SweptClauseStep(b.code, plan, b.clauses[i]);
    }
  }

  /** The loop of one replacement is a sequence of passes, on the code and on the clauses. */
  lemma {:induction false} SweepIsPasses(b: Body, plan: Planner)
    requires BodyOk(b) && Ends(b.code, plan)
    ensures var out := RewriteAll(b, SweepPasses(b.code, plan));
            out.code == Swept(b.code, plan) && ClausesSwept(b, plan, out)
    decreases Rounds(b.code, plan)
  {
    hide BodyOk;
    hide ClausesSwept;
    var b' := RewriteBody(b, plan);
    assert b'.code == Rewrite(b.code, plan);
    if LastChosen(b.code, plan) {
      NextRound(b.code, plan);
      SweepIsPasses(b', plan);
      assert ([plan] + SweepPasses(b'.code, plan))[1..] == SweepPasses(b'.code, plan);
    } else {
      assert [plan][1..] == [] && RewriteAll(b', []) == b';
      assert RewriteAll(b, SweepPasses(b.code, plan)) == b';
    }
    ClausesRound(b, plan, b', RewriteAll(b, SweepPasses(b.code, plan)));
  }

  /** The body after the loops of all replacements. */
  ghost function Instrumented(b: Body, plans: seq<Planner>): (r: Body)
    requires BodyOk(b) && EndsAll(b.code, plans)
    ensures BodyOk(r)
  {
    RewriteAll(b, AllPasses(b.code, plans))
  }

  lemma {:induction false} InstrumentedStep(b: Body, plans: seq<Planner>, i: nat)
    requires BodyOk(b) && i < |plans| && EndsAll(b.code, plans[i..]) && Ends(b.code, plans[i])
    requires EndsAll(Swept(b.code, plans[i]), plans[i + 1..])
    ensures RewriteAll(b, SweepPasses(b.code, plans[i])).code == Swept(b.code, plans[i])
    ensures Instrumented(b, plans[i..]) == Instrumented(RewriteAll(b, SweepPasses(b.code, plans[i])), plans[i + 1..])
  {
    assert plans[i..][1..] == plans[i + 1..] && plans[i..][0] == plans[i];
    var first := SweepPasses(b.code, plans[i]);
    var b' := RewriteAll(b, first);
    SweepIsPasses(b, plans[i]);
    RewriteAllSplit(b, first, AllPasses(b'.code, plans[i + 1..]));
  }

  lemma InstrumentedEnd(b: Body)
    requires BodyOk(b)
    ensures EndsAll(b.code, []) && Instrumented(b, []) == b
  {
  }

  lemma {:induction false} SweptAllIsPasses(b: Body, plans: seq<Planner>)
    requires BodyOk(b) && EndsAll(b.code, plans)
    ensures RewriteAll(b, AllPasses(b.code, plans)).code == SweptAll(b.code, plans)
    decreases |plans|
  {
    if plans != [] {
      var first := SweepPasses(b.code, plans[0]);
      var b' := RewriteAll(b, first);
      SweepIsPasses(b, plans[0]);
      SweptAllIsPasses(b', plans[1..]);
      RewriteAllSplit(b, first, AllPasses(b'.code, plans[1..]));
    }
  }

  // ---------- Replacements by their rules ----------

  function Planners(rules: seq<Rule>): (plans: seq<Planner>)
    ensures |plans| == |rules| && forall k :: 0 <= k < |rules| ==> plans[k] == PlannerOf(rules[k])
  {
    seq(|rules|, k requires 0 <= k < |rules| => PlannerOf(rules[k]))
  }

  ghost predicate RulesOk(rules: seq<Rule>) {
    forall k :: 0 <= k < |rules| ==> RuleOk(rules[k])
  }

  lemma {:induction false} EndAllOf(code: Code, plans: seq<Planner>)
    requires forall k :: 0 <= k < |plans| ==> WrappersUnmatched(plans[k])
    ensures EndsAll(code, plans)
    decreases |plans|
  {
    hide WrappersUnmatched;
    if plans != [] {
      UnmatchedEnds(code, plans[0]);
      EndAllOf(Swept(code, plans[0]), plans[1..]);
    }
  }

  /** The loops of accepted replacements end on every list. */
  lemma {:induction false} RulesEnd(rules: seq<Rule>, code: Code)
    requires RulesOk(rules)
    ensures EndsAll(code, Planners(rules)) && PlansFit(Planners(rules))
  {
    var plans := Planners(rules);
    hide RuleOk;
    hide PlannerOf;
    hide WrappersUnmatched;
    hide PlanFits;
    forall k | 0 <= k < |plans|
      ensures WrappersUnmatched(plans[k]) && PlanFits(plans[k])
    {
      RuleEnds(rules[k], code);
    }
    EndAllOf(code, plans);
  }

  /** The stack bound that ends up in the header, before it is cut to 16 bits. */
  ghost function MaxStack(header: nat, code: Code, plans: seq<Planner>): int
    requires EndsAll(code, plans)
  {
    header + PushSum(code) + |SweptAll(code, plans)| - |code|
  }

  // ---------- The run over the linked list ----------

  lemma {:induction false} SweptChanges(code: Code, plan: Planner)
    requires Ends(code, plan) && LabelsInside(code)
    ensures if AnyMatch(code, plan) then |Swept(code, plan)| > |code| else Swept(code, plan) == code
  {
    if !AnyMatch(code, plan) {
      RewriteIdle(code, plan);
    } else {
      RewriteGrows(code, plan);
      SweptGrows(code, plan);
    }
  }

  lemma {:induction false} SweptAllGrows(code: Code, plans: seq<Planner>)
    requires EndsAll(code, plans)
    ensures |SweptAll(code, plans)| >= |code|
    decreases |plans|
  {
    if plans != [] {
      RewriteGrows(code, plans[0]);
      SweptGrows(code, plans[0]);
      SweptAllGrows(Swept(code, plans[0]), plans[1..]);
    }
  }

  /** The loops leave the list as it is exactly when nothing in it matches any of the decisions. */
  lemma {:induction false} SweptAllIdleIff(code: Code, plans: seq<Planner>)
    requires EndsAll(code, plans) && LabelsInside(code)
    ensures SweptAll(code, plans) == code <==> forall k :: 0 <= k < |plans| ==> !AnyMatch(code, plans[k])
    decreases |plans|
  {
    if plans != [] {
      SweptChanges(code, plans[0]);
      if AnyMatch(code, plans[0]) {
        SweptAllGrows(Swept(code, plans[0]), plans[1..]);
      } else {
        SweptAllIdleIff(code, plans[1..]);
        assert forall k :: 1 <= k < |plans| ==> plans[k] == plans[1..][k - 1];
      }
    }
  }

  /** Some instruction of the list is replaced by some rule. */
  predicate AnyReplaceable(code: Code, rules: seq<Rule>) {
    exists i, k :: 0 <= i < |code| && 0 <= k < |rules| && Replaceable(code[i], rules[k])
  }

  lemma {:induction false} RuleMatches(code: Code, rule: Rule)
    requires RuleOk(rule) && WellFormed(code)
    ensures AnyMatch(code, PlannerOf(rule)) <==> exists i :: 0 <= i < |code| && Replaceable(code[i], rule)
  {
    hide RuleOk;
    hide PlannerOf;
    hide Replaceable;
    hide Matches;
    forall i | 0 <= i < |code|
      ensures Matches(code[i], PlannerOf(rule)) <==> Replaceable(code[i], rule)
    {
      CallsHaveTokens(code, i);
      MatchesIffReplaceable(rule, code[i]);
    }
  }

  lemma CallsHaveTokens(code: Code, i: nat)
    requires WellFormed(code) && i < |code|
    ensures code[i].op == 0x28 || code[i].op == 0x6F ==> code[i].operand.Imm?
  {
  }

  /** A body is left alone exactly when none of its instructions is replaceable. */
  lemma {:induction false} LeftAloneIff(code: Code, rules: seq<Rule>)
    requires RulesOk(rules) && WellFormed(code) && LabelsInside(code) && EndsAll(code, Planners(rules))
    ensures SweptAll(code, Planners(rules)) == code <==> !AnyReplaceable(code, rules)
  {
    var plans := Planners(rules);
    SweptAllIdleIff(code, plans);
    hide SweptAll;
    hide EndsAll;
    hide RuleOk;
    hide PlannerOf;
    hide Replaceable;
    hide AnyMatch;
    hide WellFormed;
    forall k | 0 <= k < |rules|
      ensures AnyMatch(code, plans[k]) <==> exists i :: 0 <= i < |code| && Replaceable(code[i], rules[k])
    {
      RuleMatches(code, rules[k]);
    }
  }

  lemma RepresentsLabels(nodes: seq<ILInstr>, sentinel: ILInstr, content: seq<Instr<ILInstr?>>, code: Code)
    requires Represents(nodes, sentinel, content, code)
    ensures LabelsInside(code) && |code| == |nodes|
  {
    forall i | 0 <= i < |code| && code[i].operand.Label?
      ensures code[i].operand.dest <= |code|
    {
      assert SameInstr(content[i], code[i], nodes, sentinel);
    }
  }

  lemma DecodedRepresents(rewriter: ILRewriter, d: seq<Instr<Option<nat>>>)
    requires Decoded(rewriter.nodes, rewriter.sentinel, d) && Resolvable(d)
    ensures Represents(rewriter.nodes, rewriter.sentinel, rewriter.Content(), AsCode(d))
  {
    var nodes, code := rewriter.nodes, AsCode(d);
    forall i | 0 <= i < |code|
      ensures SameInstr(rewriter.Content()[i], code[i], nodes, rewriter.sentinel)
    {
      assert nodes[i].opcode == d[i].op && SameTarget(nodes[i].operand, d[i].operand, nodes, rewriter.sentinel);
    }
  }

  lemma ImportIs(b: seq<byte>)
    ensures Import(b).Some? <==> Decode(b).Ok? && Resolvable(Decode(b).value)
    ensures Import(b).Some? ==> Import(b).value == AsCode(Decode(b).value)
  {
  }

  lemma {:induction false} SamePushes(raws: seq<Raw>, code: Code)
    requires |raws| == |code| && forall i :: 0 <= i < |raws| ==> raws[i].instr.op == code[i].op
    ensures PushesOf(raws) == PushSum(code)
  {
    if raws != [] {
      SamePushes(raws[..|raws| - 1], code[..|code| - 1]);
    }
  }

  lemma ImportPushes(b: seq<byte>)
    requires Import(b).Some?
    ensures ReadFrom(b, 0).Ok? && PushesOf(ReadFrom(b, 0).value) == PushSum(Import(b).value)
  {
    ImportAgrees(b);
    SamePushes(ReadFrom(b, 0).value, Import(b).value);
  }

  lemma EndsNext(code: Code, plans: seq<Planner>, i: nat)
    requires i < |plans| && EndsAll(code, plans[i..])
    ensures Ends(code, plans[i]) && EndsAll(Swept(code, plans[i]), plans[i + 1..])
    ensures SweptAll(code, plans[i..]) == SweptAll(Swept(code, plans[i]), plans[i + 1..])
  {
    assert plans[i..][0] == plans[i] && plans[i..][1..] == plans[i + 1..];
  }

  lemma SweptAllEnd(code: Code)
    ensures EndsAll(code, []) && SweptAll(code, []) == code
  {
  }

  lemma FitsAt(plans: seq<Planner>, i: nat)
    requires PlansFit(plans) && i < |plans|
    ensures PlanFits(plans[i])
  {
  }

  lemma ExportReady(code: Code)
    requires WellFormed(code)
    ensures Closed(code) && KnownOps(code)
  {
  }

  /** What Import yields: the code and its exception clauses. */
  function ImportBody(b: seq<byte>, fats: seq<FatClause>): (r: Option<Body>) {
    if Import(b).Some? && ReadFrom(b, 0).Ok? && ClausesResolve(ReadFrom(b, 0).value, |b|, fats)
    then Some(Body(Import(b).value, ImportClauses(ReadFrom(b, 0).value, |b|, fats)))
    else None
  }

  lemma ImportBodyOk(b: seq<byte>, fats: seq<FatClause>)
    requires ImportBody(b, fats).Some?
    ensures BodyOk(ImportBody(b, fats).value) && WellFormed(ImportBody(b, fats).value.code)
  {
    ImportWellFormed(b);
    ImportAgrees(b);
    hide WellFormed;
    hide ReadFrom;
    hide Decode;
    var raws, body := ReadFrom(b, 0).value, ImportBody(b, fats).value;
    forall i | 0 <= i < |body.clauses|
      ensures ClauseOk(body.clauses[i], |body.code|)
    {
      assert ImportClause(raws, |b|, fats[i]).Some?;
    }
    ClosedWhen(body.code);
  }

  lemma ClosedWhen(code: Code)
    requires WellFormed(code)
    ensures Closed(code)
  {
  }

  lemma {:induction false} StandAfter(
    was: seq<ILInstr>, now: seq<ILInstr>, sentinel: ILInstr, b: Body, plan: Planner, ns: seq<NodeClause>, out: Body)
    requires BodyOk(b) && Ends(b.code, plan) && AllStand(was, sentinel, ns, b.clauses)
    requires Followed(was, now, sentinel, b.code, plan) && |now| == |Swept(b.code, plan)| && ClausesSwept(b, plan, out)
    ensures AllStand(now, sentinel, ns, out.clauses)
  {
    hide Stands;
    hide Followed;
    hide SweptClause;
    hide Swept;
    forall i {:trigger ns[i]} | 0 <= i < |ns|
      ensures Stands(now, sentinel, ns[i], out.clauses[i])
    {
      ClausesFollow(was, now, sentinel, b.code, plan, ns[i], b.clauses[i]);
      assert out.clauses[i] == SweptClause(b.code, plan, b.clauses[i]);
    }
  }

  /** A method body as the runtime holds it: the code bytes, the header's stack bound and the clauses. */
  datatype Stored = Stored(bytes: seq<byte>, maxStack: nat, clauses: seq<FatClause>)

  /** Unchanged: nothing is written. Fault: a target or a clause boundary hits no instruction, which the source asserts. */
  datatype StageResult = Unchanged | Fault | Written(stored: Stored)

  /** `out` is the body `body` in its settled layout, with the given stack bound. */
  ghost predicate StoredAs(out: Stored, body: Body, maxStack: int)
    requires BodyOk(body)
  {
    && out.bytes == Encode(Settle(body.code)) && out.maxStack == maxStack % 0x1_0000
    && |out.clauses| == |body.clauses|
    && forall i :: 0 <= i < |body.clauses| ==>
         ClauseOk(body.clauses[i], |Settle(body.code)|) && out.clauses[i] == ExportClause(Settle(body.code), body.clauses[i])
  }

  lemma StoredIntro(out: Stored, body: Body, maxStack: int)
    requires BodyOk(body) && out.bytes == Encode(Settle(body.code)) && out.maxStack == maxStack % 0x1_0000
    requires |out.clauses| == |body.clauses|
    requires forall i :: 0 <= i < |body.clauses| ==>
               ClauseOk(body.clauses[i], |Settle(body.code)|) && out.clauses[i] == ExportClause(Settle(body.code), body.clauses[i])
    ensures StoredAs(out, body, maxStack)
  {
  }

  /** Import, with its three ends: the bytes do not decode, something does not resolve, or the list stands. */
  method ImportMethod(rewriter: ILRewriter, b: seq<byte>, fats: seq<FatClause>) returns (ok: bool, fault: bool, ns: seq<NodeClause>)
    requires rewriter.Valid() && rewriter.nodes == []
    modifies rewriter, rewriter.sentinel`next, rewriter.sentinel`prev
    ensures ok <==> Decode(b).Ok?
    ensures ok ==> (fault <==> ImportBody(b, fats).None?)
    ensures ok && !fault ==>
              var body := ImportBody(b, fats).value;
              && rewriter.Valid() && BodyOk(body) && WellFormed(body.code) && Import(b) == Some(body.code)
              && Represents(rewriter.nodes, rewriter.sentinel, rewriter.Content(), body.code)
              && AllStand(rewriter.nodes, rewriter.sentinel, ns, body.clauses)
              && rewriter.maxStack == old(rewriter.maxStack) + PushSum(body.code)
    ensures forall i :: 0 <= i < |rewriter.nodes| ==> fresh(rewriter.nodes[i])
  {
    hide *;
    ImportIs(b);
    ImportBodyIs(b, fats);
    DecodeFails(b);
    var resolved, table;
    ok, resolved, table := ImportIL(rewriter, b);
    fault, ns := true, [];
    if ok && resolved {
      DecodedRepresents(rewriter, Decode(b).value);
      ImportPushes(b);
      var found;
      found, ns := ImportEH(rewriter, table, fats, ReadFrom(b, 0).value, |b|);
      fault := !found;
      if found {
        ImportBodyOk(b, fats);
      }
    }
  }

  /** Export of a list with its clauses. */
  method ExportMethod(rewriter: ILRewriter, ns: seq<NodeClause>, ghost body: Body) returns (out: Stored)
    requires rewriter.Valid() && BodyOk(body) && WellFormed(body.code)
    requires Represents(rewriter.nodes, rewriter.sentinel, rewriter.Content(), body.code)
    requires AllStand(rewriter.nodes, rewriter.sentinel, ns, body.clauses)
    modifies rewriter.nodes`opcode, rewriter.nodes`offset, rewriter.sentinel`offset
    ensures StoredAs(out, body, old(rewriter.maxStack))
  {
    hide *;
    ExportReady(body.code);
    var buffer, size, _ := Export(rewriter, body.code);
    RepresentsLabels(rewriter.nodes, rewriter.sentinel, rewriter.Content(), Settle(body.code));
    var clauses := ExportClauses(rewriter, ns, Settle(body.code), body.clauses);
    out := Stored(buffer[..size], rewriter.maxStack % 0x1_0000, clauses);
    StoredIntro(out, body, rewriter.maxStack);
  }

  /**
   From a stored body to a stored body. Nothing is written when the bytes do not decode, or when no
   instruction is replaceable by any rule, and then only; a target or clause boundary that hits no instruction is a fault; otherwise the output is
   the settled encoding of the instrumented body, with the raised stack bound and its clauses.
   */
  method ProcessReplacementCalls(held: Stored, rules: seq<Rule>) returns (out: StageResult)
    requires RulesOk(rules)
    ensures out.Fault? <==> Decode(held.bytes).Ok? && ImportBody(held.bytes, held.clauses).None?
    ensures ImportBody(held.bytes, held.clauses).Some? ==>
              var plans := Planners(rules); var body := ImportBody(held.bytes, held.clauses).value;
              && BodyOk(body) && EndsAll(body.code, plans)
              && (out.Unchanged? <==> !AnyReplaceable(body.code, rules))
              && (out.Written? ==>
                    var after := Instrumented(body, plans);
                    StoredAs(out.stored, after, held.maxStack + PushSum(body.code) + |after.code| - |body.code|))
    ensures Decode(held.bytes).Err? ==> out.Unchanged?
  {
    hide *;
    var rewriter := new ILRewriter(held.maxStack);
    var ok, fault, ns := ImportMethod(rewriter, held.bytes, held.clauses);
    ImportBodyIs(held.bytes, held.clauses);
    ImportIs(held.bytes);
    if !ok {
      return Unchanged;
    }
    if fault {
      return Fault;
    }
    ghost var body := ImportBody(held.bytes, held.clauses).value;
    var plans := Planners(rules);
    RulesEnd(rules, body.code);
    RepresentsLabels(rewriter.nodes, rewriter.sentinel, rewriter.Content(), body.code);
    LeftAloneIff(body.code, rules);
    ghost var current := body;
    var modified, i := false, 0;
    assert plans[0..] == plans;
    while i < |plans|
      invariant i <= |plans| && rewriter.Valid() && EndsAll(current.code, plans[i..])
      invariant BodyOk(current) && WellFormed(current.code)
      invariant Represents(rewriter.nodes, rewriter.sentinel, rewriter.Content(), current.code)
      invariant AllStand(rewriter.nodes, rewriter.sentinel, ns, current.clauses)
      invariant Instrumented(current, plans[i..]) == Instrumented(body, plans)
      invariant SweptAll(current.code, plans[i..]) == SweptAll(body.code, plans)
      invariant |current.code| == |rewriter.nodes| && LabelsInside(current.code)
      invariant rewriter.maxStack == held.maxStack + PushSum(body.code) + |current.code| - |body.code|
      invariant if modified then |current.code| > |body.code| else current.code == body.code
      invariant fresh(rewriter) && fresh(rewriter.sentinel)
      invariant forall k :: 0 <= k < |rewriter.nodes| ==> fresh(rewriter.nodes[k])
    {
      EndsNext(current.code, plans, i);
      FitsAt(plans, i);
      InstrumentedStep(current, plans, i);
      SweepIsPasses(current, plans[i]);
      SweptChanges(current.code, plans[i]);
      SweptWellFormed(current.code, plans[i]);
      ghost var was, next := rewriter.nodes, RewriteAll(current, SweepPasses(current.code, plans[i]));
      var hit := ReplaceCalls(rewriter, plans[i], current.code);
      modified := modified || hit;
      RepresentsLabels(rewriter.nodes, rewriter.sentinel, rewriter.Content(), next.code);
      StandAfter(was, rewriter.nodes, rewriter.sentinel, current, plans[i], ns, next);
      current := next;
      i := i + 1;
    }
    assert plans[|plans|..] == [];
    SweptAllEnd(current.code);
    InstrumentedEnd(current);
    SweptAllIsPasses(body, plans);
    InstrumentedIs(body, plans);
    if !modified {
      return Unchanged;
    }
    var stored := ExportMethod(rewriter, ns, current);
    out := Written(stored);
  }

  lemma ImportBodyIs(b: seq<byte>, fats: seq<FatClause>)
    ensures ImportBody(b, fats).Some? <==>
              Import(b).Some? && ReadFrom(b, 0).Ok? && ClausesResolve(ReadFrom(b, 0).value, |b|, fats)
    ensures ImportBody(b, fats).Some? ==>
              && Import(b).Some? && ReadFrom(b, 0).Ok? && ClausesResolve(ReadFrom(b, 0).value, |b|, fats)
              && ImportBody(b, fats).value.code == Import(b).value
              && ImportBody(b, fats).value.clauses == ImportClauses(ReadFrom(b, 0).value, |b|, fats)
  {
  }

  lemma InstrumentedIs(b: Body, plans: seq<Planner>)
    requires BodyOk(b) && EndsAll(b.code, plans)
    ensures Instrumented(b, plans) == RewriteAll(b, AllPasses(b.code, plans))
  {
  }
}
