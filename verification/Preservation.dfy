/**
 The whole-run consequences of the block-by-block simulation: call replacement preserves meaning,
 over any number of passes, and the maximum stack depth written to the header stays sufficient.
 */
module Preservation {
  import opened Bytes
  import opened Opcodes
  import opened Layout
  import opened Codec
  import opened Replacement
  import opened Regions
  import opened StackMachine
  import opened Simulation

  lemma {:induction false} StepSimulated<V(!new), W(!new), R>(m: Machine<V, W, R>, b: Body, plan: Planner, s: State<V, W, R>)
    requires BodyOk(b) && GoodSites(m, b, plan)
    ensures Run(m, RewriteBody(b, plan), Cost(m, b, plan, s), Img(b, plan, s)) == Img(b, plan, Step(m, b, s))
  {
    var b' := RewriteBody(b, plan);
    if s.Running? && s.pc < |b.code| {
      assert Image(b.code, plan, s.pc) == Pos(b.code, plan, s.pc);
      if Chosen(b.code, plan, s.pc) {
        hide Run;
        hide Step;
        hide RewriteBody;
        hide Cost;
        hide Faithful;
        ChosenRun(m, b, plan, s.pc, s.stack, s.world);
      } else {
        UnchosenStep(m, b, plan, s);
        OneStep(m, b', Img(b, plan, s));
      }
    } else {
      OneStep(m, b', Img(b, plan, s));
    }
  }

  // ---------- Forward ----------

  function TotalCost<V, W, R>(m: Machine<V, W, R>, b: Body, plan: Planner, k: nat, s: State<V, W, R>): (n: nat)
    requires BodyOk(b)
    ensures n >= k
  {
    if k == 0 then 0 else Cost(m, b, plan, s) + TotalCost(m, b, plan, k - 1, Step(m, b, s))
  }

  /** Every run of the original body is matched by a run of the rewritten one. */
  lemma {:induction false} ForwardSimulation<V(!new), W(!new), R>(m: Machine<V, W, R>, b: Body, plan: Planner, k: nat, s: State<V, W, R>)
    requires BodyOk(b) && GoodSites(m, b, plan)
    ensures Run(m, RewriteBody(b, plan), TotalCost(m, b, plan, k, s), Img(b, plan, s)) == Img(b, plan, Run(m, b, k, s))
    decreases k
  {
    hide Img;
    hide RewriteBody;
    hide Step;
    hide GoodSites;
    hide BodyOk;
    hide Cost;
    if k > 0 {
      var c, rest := Cost(m, b, plan, s), TotalCost(m, b, plan, k - 1, Step(m, b, s));
      ForwardSimulation(m, b, plan, k - 1, Step(m, b, s));
      StepSimulated(m, b, plan, s);
      RunSplit(m, RewriteBody(b, plan), c, rest, Img(b, plan, s));
    }
  }

  // ---------- Backward ----------

  /** `s'` is strictly inside the block of the call at which the original body stands. */
  predicate Within<V, W, R>(b: Body, plan: Planner, s: State<V, W, R>, s': State<V, W, R>) {
    && s.Running? && s.pc < |b.code| && Chosen(b.code, plan, s.pc)
    && s'.Running? && Pos(b.code, plan, s.pc) < s'.pc < Pos(b.code, plan, s.pc + 1)
    && |s'.stack| <= |s.stack| + 3
  }

  lemma SiteSpan(b: Body, plan: Planner, i: nat)
    requires BodyOk(b) && i < |b.code| && Chosen(b.code, plan, i) && NotHandlerEnd(b.clauses, i)
    ensures Pos(b.code, plan, i) + CallAt(PlanAt(b.code, plan, i)) < Pos(b.code, plan, i + 1)
    ensures PlanAt(b.code, plan, i).unbox.Some? ==>
              Pos(b.code, plan, i) + CallAt(PlanAt(b.code, plan, i)) + 1 < Pos(b.code, plan, i + 1)
    ensures i < |b.code| && Chosen(b.code, plan, i)
  {
    BlockLayout(b.code[i], PlanAt(b.code, plan, i));
  }

  /** Between two corresponding states, the rewritten body is inside a block or both go wrong. */
  ghost predicate Between<V, W, R>(m: Machine<V, W, R>, b: Body, plan: Planner, s: State<V, W, R>, s': State<V, W, R>)
    requires BodyOk(b)
  {
    Within(b, plan, s, s') || (s' == Wrong && Step(m, b, s) == Wrong)
  }

  lemma InsideEmptyBox<V(!new), W(!new), R>(m: Machine<V, W, R>, b: Body, plan: Planner, i: nat, j: nat, w: W)
    requires BodyOk(b) && i < |b.code| && Chosen(b.code, plan, i) && NotHandlerEnd(b.clauses, i) && PrefixAt(b.code, i).None? && PlanAt(b.code, plan, i).box.Some?
    requires Faithful(m, b.code[i].op, Immediate(b.code[i]), PlanAt(b.code, plan, i))
    requires 0 < j
    ensures Between(m, b, plan, Running(i, [], w), Run<V, W, R>(m, RewriteBody(b, plan), j, Running(Pos(b.code, plan, i), [], w)))
  {
    SiteSpan(b, plan, i);
    OriginalCall(m, b, i, [], w);
    assert m.arity(Immediate(b.code[i])) > 0;
    EmptyBoxRun(m, b, plan, i, j, w);
    hide Run;
    hide RewriteBody;
    hide Pos;
    hide Step;
    hide Chosen;
  }

  lemma InsideArguments<V, W, R>(m: Machine<V, W, R>, b: Body, plan: Planner, i: nat, j: nat, st: seq<V>, w: W)
    requires BodyOk(b) && i < |b.code| && Chosen(b.code, plan, i) && NotHandlerEnd(b.clauses, i) && 0 < j <= CallAt(PlanAt(b.code, plan, i))
    requires PlanAt(b.code, plan, i).box.Some? ==> st != []
    ensures Within(b, plan, Running(i, st, w), Run<V, W, R>(m, RewriteBody(b, plan), j, Running(Pos(b.code, plan, i), st, w)))
  {
    hide *;
    SiteSpan(b, plan, i);
    BlockRun(m, b, plan, i, j, st, w);
    WithinIntro(b, plan, Running(i, st, w), Run(m, RewriteBody(b, plan), j, Running(Pos(b.code, plan, i), st, w)));
  }

  lemma InsideUnbox<V(!new), W(!new), R>(m: Machine<V, W, R>, b: Body, plan: Planner, i: nat, st: seq<V>, w: W)
    requires BodyOk(b) && i < |b.code| && Chosen(b.code, plan, i) && NotHandlerEnd(b.clauses, i) && |st| >= m.arity(Immediate(b.code[i]))
    requires Faithful(m, b.code[i].op, Immediate(b.code[i]), PlanAt(b.code, plan, i))
    requires Unboxes(m, b.code[i], PlanAt(b.code, plan, i), st, w)
    ensures Within(b, plan, Running(i, st, w),
                   Run<V, W, R>(m, RewriteBody(b, plan), CallAt(PlanAt(b.code, plan, i)) + 1, Running(Pos(b.code, plan, i), st, w)))
  {
    var p := PlanAt(b.code, plan, i);
    assert p.unbox.Some?;
    hide *;
    SiteSpan(b, plan, i);
    ChosenRunUnbox(m, b, plan, i, st, w);
    WithinIntro(b, plan, Running(i, st, w), Run(m, RewriteBody(b, plan), CallAt(p) + 1, Running(Pos(b.code, plan, i), st, w)));
  }

  lemma {:induction false} InsideBlock<V(!new), W(!new), R>(m: Machine<V, W, R>, b: Body, plan: Planner, i: nat, j: nat, st: seq<V>, w: W)
    requires BodyOk(b) && i < |b.code| && Chosen(b.code, plan, i) && NotHandlerEnd(b.clauses, i) && PrefixAt(b.code, i).None?
    requires Faithful(m, b.code[i].op, Immediate(b.code[i]), PlanAt(b.code, plan, i))
    requires 0 < j < Cost<V, W, R>(m, b, plan, Running(i, st, w))
    ensures Between(m, b, plan, Running(i, st, w), Run<V, W, R>(m, RewriteBody(b, plan), j, Running(Pos(b.code, plan, i), st, w)))
  {
    hide *;
    var p := PlanAt(b.code, plan, i);
    CostAt(m, b, plan, i, st, w);
    if p.box.Some? && st == [] {
      InsideEmptyBox(m, b, plan, i, j, w);
    } else if j <= CallAt(p) {
      InsideArguments(m, b, plan, i, j, st, w);
      BetweenIntro(m, b, plan, Running(i, st, w), Run(m, RewriteBody(b, plan), j, Running(Pos(b.code, plan, i), st, w)));
    } else {
      InsideUnbox(m, b, plan, i, st, w);
      BetweenIntro(m, b, plan, Running(i, st, w), Run(m, RewriteBody(b, plan), j, Running(Pos(b.code, plan, i), st, w)));
    }
  }

  lemma BetweenIntro<V, W, R>(m: Machine<V, W, R>, b: Body, plan: Planner, s: State<V, W, R>, s': State<V, W, R>)
    requires BodyOk(b) && Within(b, plan, s, s')
    ensures Between(m, b, plan, s, s')
  {
  }

  lemma WithinIntro<V, W, R>(b: Body, plan: Planner, s: State<V, W, R>, s': State<V, W, R>)
    requires s.Running? && s.pc < |b.code| && Chosen(b.code, plan, s.pc)
    requires s'.Running? && Pos(b.code, plan, s.pc) < s'.pc < Pos(b.code, plan, s.pc + 1)
    requires |s'.stack| <= |s.stack| + 3
    ensures Within(b, plan, s, s')
  {
  }

  /** The rewritten body stands at the image of `t`, or inside the block of the call at which `t` stands. */
  predicate Tracks<V(==), W(==), R(==)>(b: Body, plan: Planner, t: State<V, W, R>, t': State<V, W, R>) {
    t' == Img(b, plan, t) || Within(b, plan, t, t')
  }

  lemma {:induction false} TracksWithinBlock<V(!new), W(!new), R>(m: Machine<V, W, R>, b: Body, plan: Planner, n: nat, s: State<V, W, R>)
    returns (k: nat)
    requires BodyOk(b) && GoodSites(m, b, plan) && 0 < n < Cost(m, b, plan, s)
    ensures k <= 1 && Tracks(b, plan, Run(m, b, k, s), Run(m, RewriteBody(b, plan), n, Img(b, plan, s)))
  {
    var i := s.pc;
    assert Chosen(b.code, plan, i) && Image(b.code, plan, i) == Pos(b.code, plan, i);
    OneStep(m, b, s);
    RunZero(m, b, s);
    hide Run;
    hide Step;
    hide RewriteBody;
    hide Pos;
    hide Within;
    hide Chosen;
    InsideBlock(m, b, plan, i, n, s.stack, s.world);
    k := if Within(b, plan, s, Run(m, RewriteBody(b, plan), n, Img(b, plan, s))) then 0 else 1;
  }

  lemma TracksSelf<V, W, R>(b: Body, plan: Planner, s: State<V, W, R>)
    ensures Tracks(b, plan, s, Img(b, plan, s))
  {
  }

  lemma RunFirst<V, W, R>(m: Machine<V, W, R>, b: Body, n: nat, s: State<V, W, R>)
    requires BodyOk(b)
    ensures Run(m, b, n + 1, s) == Run(m, b, n, Step(m, b, s))
  {
  }

  /** Every run of the rewritten body follows a run of the original one. */
  lemma {:induction false} BackwardSimulation<V(!new), W(!new), R>(m: Machine<V, W, R>, b: Body, plan: Planner, n: nat, s: State<V, W, R>)
    returns (k: nat)
    requires BodyOk(b) && GoodSites(m, b, plan)
    ensures k <= n && Tracks(b, plan, Run(m, b, k, s), Run(m, RewriteBody(b, plan), n, Img(b, plan, s)))
    decreases n
  {
    hide *;
    var b', c := RewriteBody(b, plan), Cost(m, b, plan, s);
    if n == 0 {
      k := 0;
      RunZero(m, b, s);
      RunZero(m, b', Img(b, plan, s));
      TracksSelf(b, plan, s);
    } else if n < c {
      k := TracksWithinBlock(m, b, plan, n, s);
    } else {
      var k' := BackwardSimulation(m, b, plan, n - c, Step(m, b, s));
      k := k' + 1;
      RunFirst(m, b, k', s);
      StepSimulated(m, b, plan, s);
      RunSplit(m, b', c, n - c, Img(b, plan, s));
    }
  }

  // ---------- Meaning ----------

  predicate InRange<V, W, R>(b: Body, s: State<V, W, R>) {
    s.Running? ==> s.pc <= |b.code|
  }

  lemma StepInRange<V, W, R>(m: Machine<V, W, R>, b: Body, s: State<V, W, R>)
    requires BodyOk(b) && InRange(b, s)
    ensures InRange(b, Step(m, b, s))
  {
    hide Execute;
    hide Covers;
    if s.Running? && s.pc < |b.code| {
      var x := b.code[s.pc];
      var o := Execute(m, x.op, Argument(b.code, s.pc), PrefixAt(b.code, s.pc), Covers(b.clauses, |b.code|, s.pc), s.stack, s.world);
      if o.Case? {
        EntryTargetInRange(b.code, s.pc + 1, o.k);
      } else if o.Resume? {
        BranchTargetInRange(b.code, 0, o.j);
      }
    }
    hide Argument;
  }

  lemma {:induction false} BranchTargetInRange(code: Code, q: nat, j: nat)
    requires Closed(code) && q <= |code|
    ensures BranchTarget(code, q, j).Some? ==> BranchTarget(code, q, j).value <= |code|
    decreases |code| - q
  {
    if q < |code| {
      BranchTargetNext(code, q, j);
      hide IsBranch;
      hide Closed;
      if !IsBranch(code[q].op) {
        BranchTargetInRange(code, q + 1, j);
      } else if j > 0 {
        BranchTargetInRange(code, q + 1, j - 1);
      }
    }
  }

  lemma {:induction false} EntryTargetInRange(code: Code, q: nat, k: nat)
    requires Closed(code) && q <= |code|
    ensures EntryTarget(code, q, k).Some? ==> EntryTarget(code, q, k).value <= |code|
    decreases k
  {
    if q < |code| && code[q].op == SWITCH_ARG && k > 0 {
      EntryTargetInRange(code, q + 1, k - 1);
    }
  }

  lemma {:induction false} RunInRange<V, W, R>(m: Machine<V, W, R>, b: Body, n: nat, s: State<V, W, R>)
    requires BodyOk(b) && InRange(b, s)
    ensures InRange(b, Run(m, b, n, s))
  {
    if n > 0 {
      StepInRange(m, b, s);
      RunInRange(m, b, n - 1, Step(m, b, s));
    }
  }

  ghost predicate Reaches<V(!new), W(!new), R(!new)>(m: Machine<V, W, R>, b: Body, s: State<V, W, R>, t: State<V, W, R>)
    requires BodyOk(b)
  {
    exists n: nat :: Run(m, b, n, s) == t
  }

  lemma {:induction false} ImgInjective<V, W, R>(b: Body, plan: Planner, s: State<V, W, R>, t: State<V, W, R>)
    requires InRange(b, s) && InRange(b, t) && Img(b, plan, s) == Img(b, plan, t)
    ensures s == t
  {
    if s.Running? && t.Running? && s.pc < t.pc {
      PosGrows(b.code, plan, s.pc, t.pc);
    } else if s.Running? && t.Running? && t.pc < s.pc {
      PosGrows(b.code, plan, t.pc, s.pc);
    }
  }

  /** No state strictly inside a block corresponds to a state of the original body. */
  lemma {:induction false} WithinIsNotImage<V, W, R>(b: Body, plan: Planner, s: State<V, W, R>, t: State<V, W, R>)
    requires InRange(b, t)
    ensures !Within(b, plan, s, Img(b, plan, t))
  {
    if t.Running? && s.Running? && s.pc < |b.code| {
      if t.pc <= s.pc {
        PosGrows(b.code, plan, t.pc, s.pc);
      } else {
        PosGrows(b.code, plan, s.pc + 1, t.pc);
      }
    }
  }

  lemma TracksImage<V, W, R>(b: Body, plan: Planner, s: State<V, W, R>, t: State<V, W, R>)
    requires InRange(b, s) && InRange(b, t) && Tracks(b, plan, s, Img(b, plan, t))
    ensures s == t
  {
    WithinIsNotImage(b, plan, s, t);
    ImgInjective(b, plan, s, t);
  }

  /**
   Call replacement preserves meaning: the original body reaches a state (a given stack and world
   at a given instruction, a result, or a failure) exactly when the rewritten body reaches the
   corresponding one.
   */
  lemma {:induction false} ReplacementPreservesMeaning<V(!new), W(!new), R(!new)>(
    m: Machine<V, W, R>, b: Body, plan: Planner, s: State<V, W, R>, t: State<V, W, R>)
    requires BodyOk(b) && GoodSites(m, b, plan) && InRange(b, s) && InRange(b, t)
    ensures Reaches(m, b, s, t) <==> Reaches(m, RewriteBody(b, plan), Img(b, plan, s), Img(b, plan, t))
  {
    var b', s', t' := RewriteBody(b, plan), Img(b, plan, s), Img(b, plan, t);
    if Reaches(m, b, s, t) {
      var k: nat :| Run(m, b, k, s) == t;
      hide *;
      ForwardSimulation(m, b, plan, k, s);
      ReachesIntro(m, b', TotalCost(m, b, plan, k, s), s', t');
    }
    if Reaches(m, b', s', t') {
      var n: nat :| Run(m, b', n, s') == t';
      hide *;
      var k := BackwardSimulation(m, b, plan, n, s);
      var u := Run(m, b, k, s);
      RunInRange(m, b, k, s);
      TracksImage(b, plan, u, t);
      ReachesIntro(m, b, k, s, t);
    }
  }

  lemma ReachesIntro<V(!new), W(!new), R(!new)>(m: Machine<V, W, R>, b: Body, n: nat, s: State<V, W, R>, t: State<V, W, R>)
    requires BodyOk(b) && Run(m, b, n, s) == t
    ensures Reaches(m, b, s, t)
  {
  }

  // ---------- Any number of replacements ----------

  /** One pass per method replacement, each over the list the previous one left (cor_profiler.cpp:602-984). */
  function RewriteAll(b: Body, plans: seq<Planner>): (r: Body)
    requires BodyOk(b)
    ensures BodyOk(r)
    decreases |plans|
  {
    if plans == [] then b else RewriteAll(RewriteBody(b, plans[0]), plans[1..])
  }

  function ImgAll<V, W, R>(b: Body, plans: seq<Planner>, s: State<V, W, R>): State<V, W, R>
    requires BodyOk(b)
    decreases |plans|
  {
    if plans == [] then s else ImgAll(RewriteBody(b, plans[0]), plans[1..], Img(b, plans[0], s))
  }

  ghost predicate GoodPasses<V(!new), W(!new), R>(m: Machine<V, W, R>, b: Body, plans: seq<Planner>)
    requires BodyOk(b)
    decreases |plans|
  {
    plans == [] || (GoodSites(m, b, plans[0]) && GoodPasses(m, RewriteBody(b, plans[0]), plans[1..]))
  }

  lemma {:induction false} ImgInRange<V, W, R>(b: Body, plan: Planner, s: State<V, W, R>)
    requires BodyOk(b)
    ensures InRange(RewriteBody(b, plan), Img(b, plan, s))
  {
    if s.Running? {
      PosGrows(b.code, plan, if s.pc <= |b.code| then s.pc else |b.code|, |b.code|);
    }
  }

  /** Meaning is preserved by the whole sequence of passes. */
  lemma {:induction false} AllReplacementsPreserveMeaning<V(!new), W(!new), R(!new)>(
    m: Machine<V, W, R>, b: Body, plans: seq<Planner>, s: State<V, W, R>, t: State<V, W, R>)
    requires BodyOk(b) && GoodPasses(m, b, plans) && InRange(b, s) && InRange(b, t)
    ensures Reaches(m, b, s, t) <==> Reaches(m, RewriteAll(b, plans), ImgAll(b, plans, s), ImgAll(b, plans, t))
    decreases |plans|
  {
    if plans != [] {
      hide Reaches;
      hide RewriteBody;
      hide Img;
      hide InRange;
      hide GoodSites;
      ReplacementPreservesMeaning(m, b, plans[0], s, t);
      ImgInRange(b, plans[0], s);
      ImgInRange(b, plans[0], t);
      AllReplacementsPreserveMeaning(m, RewriteBody(b, plans[0]), plans[1..], Img(b, plans[0], s), Img(b, plans[0], t));
    }
  }

  // ---------- Stack depth ----------

  function Depth<V, W, R>(s: State<V, W, R>): nat {
    if s.Running? then |s.stack| else 0
  }

  function PushSum<L>(code: seq<Instr<L>>): (n: nat) {
    if code == [] then 0 else PushSum(code[..|code| - 1]) + Pushes(code[|code| - 1].op)
  }

  lemma {:induction false} RoomForSite(code: Code, plan: Planner, i: nat)
    requires i < |code| && Chosen(code, plan, i)
    ensures |Rewrite(code, plan)| >= |code| + 4
  {
    PosGrows(code, plan, 0, i);
    PosGrows(code, plan, i + 1, |code|);
  }

  /** One pass deepens the stack by no more than the number of instructions it adds. */
  lemma {:induction false} PassDepth<V(!new), W(!new), R>(
    m: Machine<V, W, R>, b: Body, plan: Planner, bound: nat, s: State<V, W, R>, n: nat)
    requires BodyOk(b) && GoodSites(m, b, plan)
    requires forall k: nat :: Depth(Run(m, b, k, s)) <= bound
    ensures Depth(Run(m, RewriteBody(b, plan), n, Img(b, plan, s))) <= bound + |RewriteBody(b, plan).code| - |b.code|
  {
    var k := BackwardSimulation(m, b, plan, n, s);
    assert Depth(Run(m, b, k, s)) <= bound;
    hide *;
    DepthAcross(b, plan, Run(m, b, k, s), Run(m, RewriteBody(b, plan), n, Img(b, plan, s)));
  }

  lemma {:induction false} DepthAcross<V, W, R>(b: Body, plan: Planner, t: State<V, W, R>, t': State<V, W, R>)
    requires BodyOk(b) && Tracks(b, plan, t, t')
    ensures Depth(t') <= Depth(t) + |RewriteBody(b, plan).code| - |b.code|
  {
    PosGrows(b.code, plan, 0, |b.code|);
    hide Chosen;
    hide Expand;
    hide BodyOk;
    if Within(b, plan, t, t') {
      RoomForSite(b.code, plan, t.pc);
    }
  }

  /**
   If `bound` covers every state of a run of the original body, then raised by one for every
   instruction the passes inserted it covers every state of the corresponding run afterwards.
   */
  lemma {:induction false} StackDepthBound<V(!new), W(!new), R>(
    m: Machine<V, W, R>, b: Body, plans: seq<Planner>, bound: nat, s: State<V, W, R>, n: nat)
    requires BodyOk(b) && GoodPasses(m, b, plans)
    requires forall k: nat :: Depth(Run(m, b, k, s)) <= bound
    ensures |RewriteAll(b, plans).code| >= |b.code|
    ensures Depth(Run(m, RewriteAll(b, plans), n, ImgAll(b, plans, s))) <= bound + |RewriteAll(b, plans).code| - |b.code|
    decreases |plans|
  {
    if plans != [] {
      var b' := RewriteBody(b, plans[0]);
      BodyGrows(b, plans[0]);
      hide RewriteBody;
      hide Img;
      hide GoodSites;
      hide Run;
      hide Depth;
      forall k: nat
        ensures Depth(Run(m, b', k, Img(b, plans[0], s))) <= bound + |b'.code| - |b.code|
      {
        PassDepth(m, b, plans[0], bound, s, k);
      }
      StackDepthBound(m, b', plans[1..], bound + |b'.code| - |b.code|, Img(b, plans[0], s), n);
    }
  }

  lemma BodyGrows(b: Body, plan: Planner)
    requires BodyOk(b)
    ensures |RewriteBody(b, plan).code| >= |b.code|
  {
    PosGrows(b.code, plan, 0, |b.code|);
  }
}
