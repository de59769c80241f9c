/**
 Calls inserted at the front of a method: the startup hook and the InsertFirst action
 (cor_profiler.cpp:994-1062, 1134-1158). The new node goes before the first one and becomes the
 first one in turn; pointers to the old first instruction stay where they were.
 */
module Insertion {
  import opened Bytes
  import opened Opcodes
  import opened Layout
  import opened Codec
  import opened Replacement
  import opened Regions
  import opened StackMachine
  import opened ILRewriterObject
  import opened ReplacementPass
  import opened ClausePass

  function Shift(x: Instr<nat>): Instr<nat> {
    if x.operand.Label? then x.(operand := Label(x.operand.dest + 1)) else x
  }

  /** The list with a call in front. */
  function InsertFirst(code: Code, token: int): (r: Code)
    ensures |r| == |code| + 1 && r[0] == Instr(CALL, Imm(token))
    ensures forall i :: 0 <= i < |code| ==> r[i + 1] == Shift(code[i])
  {
    [Instr(CALL, Imm(token))] + seq(|code|, i requires 0 <= i < |code| => Shift(code[i]))
  }

  function ShiftClause(c: Clause): Clause {
    Clause(c.flags, c.tryBegin + 1, c.tryEnd + 1, c.handlerBegin + 1, c.handlerLast + 1,
           if c.catch.FilterBegin? then FilterBegin(c.catch.pos + 1) else c.catch)
  }

  function ShiftClauses(cs: seq<Clause>): (r: seq<Clause>)
    ensures |r| == |cs| && forall i :: 0 <= i < |cs| ==> r[i] == ShiftClause(cs[i])
  {
    seq(|cs|, i requires 0 <= i < |cs| => ShiftClause(cs[i]))
  }

  function InsertBody(b: Body, token: int): (r: Body)
    requires BodyOk(b)
    ensures BodyOk(r)
  {
    var r := Body(InsertFirst(b.code, token), ShiftClauses(b.clauses));
    InsertClosed(b.code, token);
    r
  }

  /** One insertion per token, so the last token's call comes first. */
  function InsertAll(b: Body, tokens: seq<int>): (r: Body)
    requires BodyOk(b)
    ensures BodyOk(r)
    decreases |tokens|
  {
    if tokens == [] then b else InsertAll(InsertBody(b, tokens[0]), tokens[1..])
  }

  lemma InsertClosed(code: Code, token: int)
    requires Closed(code)
    ensures Closed(InsertFirst(code, token))
  {
    var r := InsertFirst(code, token);
    forall i | 0 <= i < |r| && HasLabel(r[i].op)
      ensures r[i].operand.Label? && r[i].operand.dest <= |r|
    {
      assert i > 0 && r[i] == Shift(code[i - 1]);
    }
  }

  // ---------- Regions ----------

  predicate Outside(cover: seq<Cover>) {
    forall i :: 0 <= i < |cover| ==> cover[i] == Cover(false, false, false)
  }

  /** The inserted call lies outside every region; all others keep theirs. */
  lemma InsertedOutsideRegions(cs: seq<Clause>, n: nat, p: nat)
    requires forall i :: 0 <= i < |cs| ==> ClauseOk(cs[i], n)
    ensures Covers(ShiftClauses(cs), n + 1, p + 1) == Covers(cs, n, p)
    ensures Outside(Covers(ShiftClauses(cs), n + 1, 0))
  {
    forall i | 0 <= i < |cs|
      ensures CoverOf(ShiftClause(cs[i]), n + 1, p + 1) == CoverOf(cs[i], n, p)
      ensures CoverOf(ShiftClause(cs[i]), n + 1, 0) == Cover(false, false, false)
    {
      assert ClauseOk(cs[i], n);
    }
    assert Covers(ShiftClauses(cs), n + 1, p + 1) == Covers(cs, n, p);
  }

  /** The instruction with its target moved `n` places on. */
  function ShiftBy(x: Instr<nat>, n: nat): Instr<nat> {
    if x.operand.Label? then x.(operand := Label(x.operand.dest + n)) else x
  }

  /**
   The finished list: first one call (0x28) per token, that of the last token in front, then the
   original instructions with their targets.
   */
  lemma {:induction false} InsertedInReverse(b: Body, tokens: seq<int>)
    requires BodyOk(b)
    ensures var r := InsertAll(b, tokens); var n := |tokens|;
            && |r.code| == n + |b.code|
            && (forall k :: 0 <= k < n ==> r.code[k] == Instr(0x28, Imm(tokens[n - 1 - k])))
            && (forall i :: n <= i < n + |b.code| ==> r.code[i] == ShiftBy(b.code[i - n], n))
    decreases |tokens|
  {
    hide *;
    if tokens == [] {
      InsertDone(b, tokens);
      forall i | 0 <= i < |b.code|
        ensures b.code[i] == ShiftBy(b.code[i], 0)
      {
        ShiftTwice(b.code[i], 0);
      }
    } else {
      var r, one, n := InsertAll(b, tokens), InsertBody(b, tokens[0]), |tokens|;
      assert tokens[0..] == tokens;
      InsertStep(b, tokens, 0);
      InsertedInReverse(one, tokens[1..]);
      OneInserted(b.code, tokens[0]);
      ShiftedCall(tokens[0], n - 1);
      assert r.code[n - 1] == ShiftBy(one.code[0], n - 1);
      forall i | n <= i < n + |b.code|
        ensures r.code[i] == ShiftBy(b.code[i - n], n)
      {
        assert r.code[i] == ShiftBy(one.code[i - (n - 1)], n - 1);
        ShiftTwice(b.code[i - n], n - 1);
      }
    }
  }

  lemma OneInserted(code: Code, token: int)
    ensures var r := InsertFirst(code, token);
            |r| == |code| + 1 && r[0] == Instr(0x28, Imm(token)) && forall i :: 1 <= i < |r| ==> r[i] == Shift(code[i - 1])
  {
    var r := InsertFirst(code, token);
    forall i | 1 <= i < |r|
      ensures r[i] == Shift(code[i - 1])
    {
      assert r[(i - 1) + 1] == Shift(code[i - 1]);
    }
  }

  lemma ShiftedCall(token: int, n: nat)
    ensures ShiftBy(Instr(0x28, Imm(token)), n) == Instr(0x28, Imm(token))
  {
  }

  lemma ShiftTwice(x: Instr<nat>, n: nat)
    ensures ShiftBy(Shift(x), n) == ShiftBy(x, n + 1) && ShiftBy(x, 0) == x
  {
  }

  /** The inserted calls lie in no region, all other instructions in their own; clauses keep flags and tokens. */
  lemma {:induction false} InsertedCovers(b: Body, tokens: seq<int>, j: nat, p: nat)
    requires BodyOk(b) && j < |b.clauses|
    ensures var r := InsertAll(b, tokens); var n := |tokens|;
            && |r.clauses| == |b.clauses| && SameKind(b.clauses[j], r.clauses[j]) && |r.code| == n + |b.code|
            && CoverOf(r.clauses[j], |r.code|, n + p) == CoverOf(b.clauses[j], |b.code|, p)
            && (p < n ==> CoverOf(r.clauses[j], |r.code|, p) == Cover(false, false, false))
    decreases |tokens|
  {
    if tokens != [] {
      var one := InsertBody(b, tokens[0]);
      InsertedOutsideRegions(b.clauses, |b.code|, p);
      CoverAt(one.clauses, |one.code|, p + 1, j);
      CoverAt(one.clauses, |one.code|, 0, j);
      CoverAt(b.clauses, |b.code|, p, j);
      InsertedCovers(one, tokens[1..], j, p + 1);
      InsertedCovers(one, tokens[1..], j, 0);
      if p < |tokens| - 1 {
        InsertedCovers(one, tokens[1..], j, p);
      }
      assert one.clauses[j] == ShiftClause(b.clauses[j]);
      hide CoverOf;
      hide BodyOk;
      hide Covers;
    }
  }

  // ---------- Meaning ----------

  function Shifted<V, W, R>(s: State<V, W, R>): State<V, W, R> {
    match s
    case Running(pc, st, w) => Running(pc + 1, st, w)
    case _ => s
  }

  lemma {:induction false} SkipShift(code: Code, token: int, q: nat)
    requires q <= |code|
    ensures SkipEntries(InsertFirst(code, token), q + 1) == SkipEntries(code, q) + 1
    decreases |code| - q
  {
    if q < |code| && code[q].op == SWITCH_ARG {
      SkipShift(code, token, q + 1);
    }
  }

  lemma {:induction false} EntryShift(code: Code, token: int, q: nat, k: nat)
    requires Closed(code) && Closed(InsertFirst(code, token)) && q <= |code|
    ensures EntryTarget(InsertFirst(code, token), q + 1, k) ==
            match EntryTarget(code, q, k) case None => None case Some(t) => Some(t + 1)
    decreases k
  {
    if q < |code| && code[q].op == SWITCH_ARG && k > 0 {
      EntryShift(code, token, q + 1, k - 1);
    }
  }

  lemma {:induction false} OrdinalShift(code: Code, token: int, pc: nat)
    requires pc <= |code|
    ensures Ordinal(InsertFirst(code, token), pc + 1) == Ordinal(code, pc)
  {
    var r := InsertFirst(code, token);
    if pc == 0 {
      assert Ordinal(r, 1) == Ordinal(r, 0) + if IsBranch(r[0].op) then 1 else 0;
    } else {
      OrdinalShift(code, token, pc - 1);
      assert r[(pc - 1) + 1] == Shift(code[pc - 1]);
    }
  }

  lemma {:induction false} ArgumentShift(code: Code, token: int, pc: nat)
    requires pc < |code|
    ensures Argument(InsertFirst(code, token), pc + 1) == Argument(code, pc)
  {
    OrdinalShift(code, token, pc);
    assert InsertFirst(code, token)[pc + 1] == Shift(code[pc]);
    hide InsertFirst;
    hide Ordinal;
    hide IsBranch;
  }

  lemma {:induction false} BranchShift(code: Code, token: int, q: nat, j: nat)
    requires Closed(code) && Closed(InsertFirst(code, token)) && q <= |code|
    ensures BranchTarget(InsertFirst(code, token), q + 1, j) ==
            match BranchTarget(code, q, j) case None => None case Some(t) => Some(t + 1)
    decreases |code| - q
  {
    var r := InsertFirst(code, token);
    if q < |code| {
      assert r[q + 1] == Shift(code[q]);
      assert IsBranch(code[q].op) ==> HasLabel(code[q].op) && code[q].operand.Label?;
      hide Closed;
      hide IsBranch;
      hide HasLabel;
      hide InsertFirst;
      BranchShift(code, token, q + 1, j);
      if j > 0 {
        BranchShift(code, token, q + 1, j - 1);
      }
    }
  }

  /** The inserted call is no branch, so branches keep their numbers. */
  lemma {:induction false} ResumeShift(code: Code, token: int, j: nat)
    requires Closed(code) && Closed(InsertFirst(code, token))
    ensures BranchTarget(InsertFirst(code, token), 0, j) ==
            match BranchTarget(code, 0, j) case None => None case Some(t) => Some(t + 1)
  {
    var r := InsertFirst(code, token);
    assert !IsBranch(r[0].op);
    assert BranchTarget(r, 0, j) == BranchTarget(r, 1, j);
    BranchShift(code, token, 0, j);
  }

  lemma PrefixShift(code: Code, token: int, pc: nat)
    requires pc < |code|
    ensures PrefixAt(InsertFirst(code, token), pc + 1) == PrefixAt(code, pc)
  {
  }

  lemma TransferShift<V, W, R>(b: Body, token: int, d: Dispatch<V, W, R>)
    requires BodyOk(b)
    ensures Transfer(InsertBody(b, token), d) == Shifted(Transfer(b, d))
  {
  }

  lemma {:induction false} ApplyShift<V, W, R>(b: Body, token: int, pc: nat, o: Outcome<V, W, R>)
    requires BodyOk(b) && pc < |b.code|
    ensures Apply(InsertBody(b, token), pc + 1, o) == Shifted(Apply(b, pc, o))
  {
    hide *;
    InsertParts(b, token, pc);
    SkipShift(b.code, token, pc + 1);
    if o.Case? {
      EntryShift(b.code, token, pc + 1, o.k);
    }
    if o.Resume? {
      ResumeShift(b.code, token, o.j);
    }
    if o.Enter? {
      TransferShift(b, token, o.dispatch);
    }
    ApplyShifted(b, InsertBody(b, token), pc, o);
  }

  /** What the instruction does in either body, once its parts are known to correspond. */
  lemma ApplyShifted<V, W, R>(b: Body, r: Body, pc: nat, o: Outcome<V, W, R>)
    requires BodyOk(b) && BodyOk(r) && pc < |b.code| && pc + 1 < |r.code| && r.code[pc + 1].op == b.code[pc].op
    requires b.code[pc].operand.Label? ==> r.code[pc + 1].operand == Label(b.code[pc].operand.dest + 1)
    requires IsBranch(b.code[pc].op) ==> b.code[pc].operand.Label?
    requires SkipEntries(r.code, pc + 2) == SkipEntries(b.code, pc + 1) + 1
    requires o.Case? ==> EntryTarget(r.code, pc + 2, o.k) ==
                         match EntryTarget(b.code, pc + 1, o.k) case None => None case Some(t) => Some(t + 1)
    requires o.Resume? ==> BranchTarget(r.code, 0, o.j) ==
                           match BranchTarget(b.code, 0, o.j) case None => None case Some(t) => Some(t + 1)
    requires o.Enter? ==> Transfer(r, o.dispatch) == Shifted(Transfer(b, o.dispatch))
    ensures Apply(r, pc + 1, o) == Shifted(Apply(b, pc, o))
  {
    hide Transfer;
    hide SkipEntries;
    hide EntryTarget;
    hide BranchTarget;
    hide IsBranch;
    hide BodyOk;
  }

  lemma InsertParts(b: Body, token: int, pc: nat)
    requires BodyOk(b) && pc < |b.code|
    ensures var r := InsertBody(b, token);
            && r.code == InsertFirst(b.code, token) && r.clauses == ShiftClauses(b.clauses) && |r.code| == |b.code| + 1
            && r.code[pc + 1].op == b.code[pc].op && Immediate(r.code[pc + 1]) == Immediate(b.code[pc])
            && (b.code[pc].operand.Label? ==> r.code[pc + 1].operand == Label(b.code[pc].operand.dest + 1))
            && (IsBranch(b.code[pc].op) ==> b.code[pc].operand.Label?)
            && Closed(b.code) && Closed(r.code)
            && forall i :: 0 <= i < |b.clauses| ==> ClauseOk(b.clauses[i], |b.code|)
  {
    assert InsertFirst(b.code, token)[pc + 1] == Shift(b.code[pc]);
    InsertClosed(b.code, token);
    hide KindOf;
    hide InsertFirst;
  }

  /** Behind the inserted call every step is the original's. */
  lemma {:induction false} StepShift<V, W, R>(m: Machine<V, W, R>, b: Body, token: int, s: State<V, W, R>)
    requires BodyOk(b)
    ensures Step(m, InsertBody(b, token), Shifted(s)) == Shifted(Step(m, b, s))
  {
    if s.Running? && s.pc < |b.code| {
      RunningShift(m, b, token, s.pc, s.stack, s.world);
    }
  }

  lemma {:induction false} RunningShift<V, W, R>(m: Machine<V, W, R>, b: Body, token: int, pc: nat, st: seq<V>, w: W)
    requires BodyOk(b) && pc < |b.code|
    ensures Step<V, W, R>(m, InsertBody(b, token), Running(pc + 1, st, w)) == Shifted(Step(m, b, Running(pc, st, w)))
  {
    hide *;
    InsertParts(b, token, pc);
    PrefixShift(b.code, token, pc);
    ArgumentShift(b.code, token, pc);
    InsertedOutsideRegions(b.clauses, |b.code|, pc);
    var x := b.code[pc];
    ApplyShift(b, token, pc, Execute(m, x.op, Argument(b.code, pc), PrefixAt(b.code, pc), Covers(b.clauses, |b.code|, pc), st, w));
    StepIs(m, b, pc, st, w);
    StepIs(m, InsertBody(b, token), pc + 1, st, w);
  }

  lemma {:induction false} RunShift<V, W, R>(m: Machine<V, W, R>, b: Body, token: int, n: nat, s: State<V, W, R>)
    requires BodyOk(b)
    ensures Run(m, InsertBody(b, token), n, Shifted(s)) == Shifted(Run(m, b, n, s))
  {
    hide Step;
    hide InsertBody;
    if n > 0 {
      StepShift(m, b, token, s);
      RunShift(m, b, token, n - 1, Step(m, b, s));
    }
  }

  /**
   A parameterless void call inserted at the front runs exactly once, before everything else:
   entering the method performs it on the starting world, and from then on the run is the
   original's, which never comes back to it even if it branches to its own first instruction. If
   the call throws, no handler of the method sees the exception.
   */
  lemma {:induction false} InsertedRunsOnce<V, W, R>(m: Machine<V, W, R>, b: Body, token: int, n: nat, st: seq<V>, w: W)
    requires BodyOk(b) && m.arity(token) == 0
    ensures var first := m.invoke(CALL, token, None, [], w); var run := Run(m, InsertBody(b, token), n + 1, Running(0, st, w));
            && (first.Returned? && first.value.None? ==>
                  && run == Shifted(Run(m, b, n, Running(0, st, first.world)))
                  && (run.Running? ==> run.pc > 0))
            && (first.Threw? ==> exists cover: seq<Cover> ::
                  && |cover| == |b.clauses| && Outside(cover)
                  && Run(m, InsertBody(b, token), 1, Running(0, st, w)) ==
                     Transfer(InsertBody(b, token), m.raise(cover, first.exn, first.world)))
  {
    var r, start: State<V, W, R> := InsertBody(b, token), Running(0, st, w);
    var first := m.invoke(CALL, token, None, [], w);
    var cover := Covers(r.clauses, |r.code|, 0);
    InsertedOutsideRegions(b.clauses, |b.code|, 0);
    FirstStep(m, b, token, st, w);
    OneStep(m, r, start);
    if first.Returned? && first.value.None? {
      RunShift(m, b, token, n, Running(0, st, first.world));
    }
    hide Step;
    hide Covers;
  }

  lemma FirstStep<V, W, R>(m: Machine<V, W, R>, b: Body, token: int, st: seq<V>, w: W)
    requires BodyOk(b) && m.arity(token) == 0
    ensures var r := InsertBody(b, token); var first := m.invoke(CALL, token, None, [], w);
            && (first.Returned? && first.value.None? ==> Step<V, W, R>(m, r, Running(0, st, w)) == Running(1, st, first.world))
            && (first.Threw? ==> Step<V, W, R>(m, r, Running(0, st, w)) ==
                                 Transfer(r, m.raise(Covers(r.clauses, |r.code|, 0), first.exn, first.world)))
  {
    hide Covers;
    hide Transfer;
    assert st[|st|..] == [] && st[..|st|] == st;
  }

  // ---------- The loop over the linked list ----------

  lemma {:induction false} RepresentsInsert(was: seq<ILInstr>, x: ILInstr, sentinel: ILInstr, content: seq<Instr<ILInstr?>>, code: Code, token: int)
    requires Represents(was, sentinel, content, code)
    ensures Represents(Splice(was, 0, [x]), sentinel, Splice(content, 0, [Instr(CALL, Imm(token))]), InsertFirst(code, token))
  {
    var now, r := Splice(was, 0, [x]), InsertFirst(code, token);
    var c := Splice(content, 0, [Instr(CALL, Imm(token))]);
    forall i | 0 <= i < |r|
      ensures SameInstr(c[i], r[i], now, sentinel)
    {
      if i > 0 {
        assert SameInstr(content[i - 1], code[i - 1], was, sentinel);
        assert c[i] == content[i - 1] && r[i] == Shift(code[i - 1]);
      }
    }
  }

  method InsertOne(rewriter: ILRewriter, first: ILInstr, token: int, ghost code: Code) returns (front: ILInstr)
    requires rewriter.Valid() && first == NodeAt(rewriter.nodes, rewriter.sentinel, 0)
    requires Represents(rewriter.nodes, rewriter.sentinel, rewriter.Content(), code)
    modifies rewriter, rewriter.sentinel`next, rewriter.sentinel`prev, rewriter.nodes`next, rewriter.nodes`prev
    ensures rewriter.Valid() && front == NodeAt(rewriter.nodes, rewriter.sentinel, 0)
    ensures Represents(rewriter.nodes, rewriter.sentinel, rewriter.Content(), InsertFirst(code, token))
    ensures rewriter.maxStack == old(rewriter.maxStack) + 1
    ensures |rewriter.nodes| == |old(rewriter.nodes)| + 1 && rewriter.nodes[1..] == old(rewriter.nodes)
    ensures forall i :: 0 <= i < |rewriter.nodes| ==> rewriter.nodes[i] in old(rewriter.nodes) || fresh(rewriter.nodes[i])
  {
    var call: nat := CALL;
    hide *;
    ghost var was, content := rewriter.nodes, rewriter.Content();
    PushesOne(0);
    var x := rewriter.EmitBefore(first, call, Imm(token), 0);
    RepresentsInsert(was, x, rewriter.sentinel, content, code, token);
    SplicedAfter(was, rewriter.nodes, x, 0);
    FrontMoved(was, rewriter.nodes, x, rewriter.sentinel);
    assert rewriter.nodes[0 + 1..] == was[0..] == was;
    front := Previous(rewriter, first, x);
  }

  lemma {:induction false} StandShift(was: seq<ILInstr>, now: seq<ILInstr>, sentinel: ILInstr, ns: seq<NodeClause>, cs: seq<Clause>)
    requires |now| == |was| + 1 && now[1..] == was && AllStand(was, sentinel, ns, cs)
    ensures AllStand(now, sentinel, ns, ShiftClauses(cs))
  {
    forall p | 0 <= p <= |was|
      ensures NodeAt(now, sentinel, p + 1) == NodeAt(was, sentinel, p)
    {
      assert p < |was| ==> now[1..][p] == now[p + 1];
    }
    hide NodeAt;
    forall i {:trigger ns[i]} | 0 <= i < |ns|
      ensures Stands(now, sentinel, ns[i], ShiftClauses(cs)[i])
    {
      assert Stands(was, sentinel, ns[i], cs[i]);
    }
  }

  /** The loop of ProcessInsertionCalls; with one token, the splice of RunILStartupHook. */
  method InsertCalls(rewriter: ILRewriter, tokens: seq<int>, ghost body: Body, ghost ns: seq<NodeClause>)
    requires rewriter.Valid() && BodyOk(body)
    requires Represents(rewriter.nodes, rewriter.sentinel, rewriter.Content(), body.code)
    requires AllStand(rewriter.nodes, rewriter.sentinel, ns, body.clauses)
    modifies rewriter, rewriter.sentinel`next, rewriter.sentinel`prev, rewriter.nodes`next, rewriter.nodes`prev
    ensures rewriter.Valid()
    ensures Represents(rewriter.nodes, rewriter.sentinel, rewriter.Content(), InsertAll(body, tokens).code)
    ensures AllStand(rewriter.nodes, rewriter.sentinel, ns, InsertAll(body, tokens).clauses)
    ensures rewriter.maxStack == old(rewriter.maxStack) + |tokens|
    ensures forall i :: 0 <= i < |rewriter.nodes| ==> rewriter.nodes[i] in old(rewriter.nodes) || fresh(rewriter.nodes[i])
  {
    hide *;
    ghost var current := body;
    var first := FrontNode(rewriter);
    var i := 0;
    assert tokens[0..] == tokens;
    while i < |tokens|
      invariant i <= |tokens| && rewriter.Valid() && first == NodeAt(rewriter.nodes, rewriter.sentinel, 0) && BodyOk(current)
      invariant Represents(rewriter.nodes, rewriter.sentinel, rewriter.Content(), current.code)
      invariant AllStand(rewriter.nodes, rewriter.sentinel, ns, current.clauses)
      invariant InsertAll(current, tokens[i..]) == InsertAll(body, tokens)
      invariant rewriter.maxStack == old(rewriter.maxStack) + i
      invariant forall i :: 0 <= i < |rewriter.nodes| ==> rewriter.nodes[i] in old(rewriter.nodes) || fresh(rewriter.nodes[i])
    {
      ghost var was := rewriter.nodes;
      first := InsertOne(rewriter, first, tokens[i], current.code);
      StandShift(was, rewriter.nodes, rewriter.sentinel, ns, current.clauses);
      InsertStep(current, tokens, i);
      current := InsertBody(current, tokens[i]);
      i := i + 1;
    }
    InsertDone(current, tokens[i..]);
  }

  method FrontNode(rewriter: ILRewriter) returns (p: ILInstr)
    requires rewriter.Valid()
    ensures p == NodeAt(rewriter.nodes, rewriter.sentinel, 0)
  {
    NextAt(rewriter.nodes, rewriter.sentinel, 0);
    p := rewriter.sentinel.next;
  }

  /** The node before the old front is the new one. */
  method Previous(rewriter: ILRewriter, first: ILInstr, ghost x: ILInstr) returns (p: ILInstr)
    requires rewriter.Valid() && |rewriter.nodes| > 0 && rewriter.nodes[0] == x
    requires first == NodeAt(rewriter.nodes, rewriter.sentinel, 1)
    ensures p == NodeAt(rewriter.nodes, rewriter.sentinel, 0)
  {
    PrevAt(rewriter.nodes, rewriter.sentinel, 1);
    p := first.prev;
  }

  lemma FrontMoved(was: seq<ILInstr>, now: seq<ILInstr>, x: ILInstr, sentinel: ILInstr)
    requires now == Splice(was, 0, [x])
    ensures NodeAt(now, sentinel, 1) == NodeAt(was, sentinel, 0)
  {
  }

  lemma InsertStep(b: Body, tokens: seq<int>, i: nat)
    requires BodyOk(b) && i < |tokens|
    ensures InsertAll(b, tokens[i..]) == InsertAll(InsertBody(b, tokens[i]), tokens[i + 1..])
    ensures InsertBody(b, tokens[i]).code == InsertFirst(b.code, tokens[i])
    ensures InsertBody(b, tokens[i]).clauses == ShiftClauses(b.clauses)
  {
    assert tokens[i..][1..] == tokens[i + 1..];
  }

  lemma InsertDone(b: Body, rest: seq<int>)
    requires BodyOk(b) && |rest| == 0
    ensures InsertAll(b, rest) == b
  {
  }
}
