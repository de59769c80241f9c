/**
 The replacement loop over the linked list (cor_profiler.cpp:616-983), tied to the transformation of
 instruction lists: pointers become positions through the order of the nodes.
 */
module ReplacementPass {
  import opened Bytes
  import opened Opcodes
  import opened Layout
  import opened Codec
  import opened Replacement
  import opened Sweeps
  import opened ILRewriterObject

  /** A pointer operand and a position name the same place. */
  predicate SameOperand(o: Operand<ILInstr?>, v: Operand<nat>, nodes: seq<ILInstr>, sentinel: ILInstr) {
    match (o, v)
    case (Imm(a), Imm(b)) => a == b
    case (Label(p), Label(t)) => t <= |nodes| && p == NodeAt(nodes, sentinel, t)
    case _ => false
  }

  predicate SameInstr(x: Instr<ILInstr?>, y: Instr<nat>, nodes: seq<ILInstr>, sentinel: ILInstr) {
    x.op == y.op && SameOperand(x.operand, y.operand, nodes, sentinel)
  }

  /** `code` is the list with content `content`, its pointers read as positions among `nodes`. */
  ghost predicate Represents(nodes: seq<ILInstr>, sentinel: ILInstr, content: seq<Instr<ILInstr?>>, code: Code) {
    && |nodes| == |content| == |code|
    && forall i :: 0 <= i < |code| ==> SameInstr(content[i], code[i], nodes, sentinel)
  }

  // ---------- Pointers follow the nodes ----------

  lemma {:induction false} SameChoice(nodes: seq<ILInstr>, sentinel: ILInstr, content: seq<Instr<ILInstr?>>, code: Code, plan: Planner, i: nat)
    requires Represents(nodes, sentinel, content, code) && i < |code|
    ensures Matches(content[i], plan) == Matches(code[i], plan)
    ensures Chosen(content, plan, i) == Chosen(code, plan, i)
  {
    if i > 0 {
      SameChoice(nodes, sentinel, content, code, plan, i - 1);
    }
    assert SameInstr(content[i], code[i], nodes, sentinel);
  }

  lemma SameBlockSize(nodes: seq<ILInstr>, sentinel: ILInstr, content: seq<Instr<ILInstr?>>, code: Code, plan: Planner, i: nat)
    requires Represents(nodes, sentinel, content, code) && i < |code|
    ensures |BlockAt(content, plan, i)| == |BlockAt(code, plan, i)|
  {
    SameChoice(nodes, sentinel, content, code, plan, i);
    assert SameInstr(content[i], code[i], nodes, sentinel);
  }

  lemma {:induction false} SamePos(nodes: seq<ILInstr>, sentinel: ILInstr, content: seq<Instr<ILInstr?>>, code: Code, plan: Planner, i: nat)
    requires Represents(nodes, sentinel, content, code) && i <= |code|
    ensures Pos(content, plan, i) == Pos(code, plan, i)
  {
    hide BlockAt;
    hide Represents;
    hide SameInstr;
    if i > 0 {
      assert |nodes| == |content| == |code| by { SameSize(nodes, sentinel, content, code); }
      SamePos(nodes, sentinel, content, code, plan, i - 1);
      SameBlockSize(nodes, sentinel, content, code, plan, i - 1);
    }
  }

  lemma SameSize(nodes: seq<ILInstr>, sentinel: ILInstr, content: seq<Instr<ILInstr?>>, code: Code)
    requires Represents(nodes, sentinel, content, code)
    ensures |nodes| == |content| == |code|
  {
  }

  /** Where the old nodes stand among the new ones. */
  ghost predicate Moved(was: seq<ILInstr>, now: seq<ILInstr>, sentinel: ILInstr, content: seq<Instr<ILInstr?>>, plan: Planner)
    requires |was| == |content|
  {
    && |now| == Pos(content, plan, |was|)
    && forall j :: 0 <= j <= |was| ==> NodeAt(now, sentinel, Pos(content, plan, j)) == NodeAt(was, sentinel, j)
  }

  lemma {:induction false} MovedOperand(
    was: seq<ILInstr>, now: seq<ILInstr>, sentinel: ILInstr, content: seq<Instr<ILInstr?>>, code: Code, plan: Planner, x: Instr<ILInstr?>, y: Instr<nat>)
    requires Represents(was, sentinel, content, code) && Moved(was, now, sentinel, content, plan)
    requires Pos(code, plan, |code|) == |now|
    requires SameInstr(x, y, was, sentinel)
    ensures SameInstr(x, Relabel(code, plan, y), now, sentinel)
  {
    hide Expand;
    if y.operand.Label? {
      var t := y.operand.dest;
      SamePos(was, sentinel, content, code, plan, t);
      PosGrows(code, plan, t, |code|);
    }
  }

  lemma SameBlock(x: Instr<ILInstr?>, y: Instr<nat>, p: Plan, nodes: seq<ILInstr>, sentinel: ILInstr, k: nat)
    requires SameInstr(x, y, nodes, sentinel) && k < |Block(x, p)| && k < |Block(y, p)|
    ensures SameInstr(Block(x, p)[k], Block(y, p)[k], nodes, sentinel)
  {
    hide NodeAt;
  }

  lemma {:induction false} RewrittenInstr(
    was: seq<ILInstr>, now: seq<ILInstr>, sentinel: ILInstr, content: seq<Instr<ILInstr?>>, code: Code, plan: Planner, i: nat, k: nat)
    requires Represents(was, sentinel, content, code) && Moved(was, now, sentinel, content, plan)
    requires i < |code| && k < |BlockAt(content, plan, i)| && k < |BlockAt(code, plan, i)|
    requires Pos(code, plan, |code|) == |now|
    ensures SameInstr(BlockAt(content, plan, i)[k], Relabel(code, plan, BlockAt(code, plan, i)[k]), now, sentinel)
  {
    hide Expand;
    hide Pos;
    hide Block;
    hide Relabel;
    SameChoice(was, sentinel, content, code, plan, i);
    assert SameInstr(content[i], code[i], was, sentinel);
    if Chosen(code, plan, i) {
      SameBlock(content[i], code[i], plan(Immediate(code[i])).value, was, sentinel, k);
    }
    MovedOperand(was, now, sentinel, content, code, plan, BlockAt(content, plan, i)[k], BlockAt(code, plan, i)[k]);
  }

  /** The list that one sweep leaves represents the rewritten code. */
  lemma {:induction false} RepresentsRewrite(
    was: seq<ILInstr>, now: seq<ILInstr>, sentinel: ILInstr, content: seq<Instr<ILInstr?>>, code: Code, plan: Planner)
    requires Represents(was, sentinel, content, code) && Moved(was, now, sentinel, content, plan)
    ensures Represents(now, sentinel, Expand(content, plan, |content|), Rewrite(code, plan))
  {
    SamePos(was, sentinel, content, code, plan, |code|);
    var e, r := Expand(content, plan, |content|), Rewrite(code, plan);
    forall q | 0 <= q < |r|
      ensures SameInstr(e[q], r[q], now, sentinel)
    {
      var i, k := BlockOf(code, plan, q, |code|);
      SameBlockSize(was, sentinel, content, code, plan, i);
      SamePos(was, sentinel, content, code, plan, i);
      ExpandAt(content, plan, i, k, |content|);
      RewriteAt(code, plan, i, k);
      RewrittenInstr(was, now, sentinel, content, code, plan, i, k);
    }
  }

  // ---------- The state in the middle of a sweep ----------

  /** The first `i` instructions of the sweep's starting list are rewritten, the others untouched. */
  ghost predicate Placed(
    nodes: seq<ILInstr>, now: seq<Instr<ILInstr?>>, was: seq<ILInstr>, content: seq<Instr<ILInstr?>>, plan: Planner, i: nat)
  {
    && |was| == |content| && i <= |was| && |nodes| == |now| == Pos(content, plan, i) + |was| - i
    && now == Expand(content, plan, i) + content[i..]
    && nodes[Pos(content, plan, i)..] == was[i..]
    && forall j :: 0 <= j < i ==> Pos(content, plan, j) < |nodes| && nodes[Pos(content, plan, j)] == was[j]
  }

  lemma PlacedStart(nodes: seq<ILInstr>, now: seq<Instr<ILInstr?>>, plan: Planner)
    requires |nodes| == |now|
    ensures Placed(nodes, now, nodes, now, plan, 0)
  {
  }

  /** The node under the cursor still holds the instruction it started with. */
  lemma PlacedHere(
    nodes: seq<ILInstr>, now: seq<Instr<ILInstr?>>, was: seq<ILInstr>, content: seq<Instr<ILInstr?>>, plan: Planner, i: nat)
    requires Placed(nodes, now, was, content, plan, i) && i < |was|
    ensures Pos(content, plan, i) < |nodes| == |now|
    ensures nodes[Pos(content, plan, i)] == was[i] && now[Pos(content, plan, i)] == content[i]
  {
    var c := Pos(content, plan, i);
    assert nodes[c] == nodes[c..][0] && now[c] == now[c..][0] == content[i..][0];
  }

  lemma PosStep<L>(content: seq<Instr<L>>, plan: Planner, i: nat)
    requires i < |content|
    ensures Expand(content, plan, i + 1) == Expand(content, plan, i) + BlockAt(content, plan, i)
    ensures Pos(content, plan, i + 1) == Pos(content, plan, i) + |BlockAt(content, plan, i)|
  {
  }

  lemma {:induction false} PlacedSkip(
    nodes: seq<ILInstr>, now: seq<Instr<ILInstr?>>, was: seq<ILInstr>, content: seq<Instr<ILInstr?>>, plan: Planner, i: nat)
    requires Placed(nodes, now, was, content, plan, i) && i < |was| && !Chosen(content, plan, i)
    ensures Placed(nodes, now, was, content, plan, i + 1)
    ensures Pos(content, plan, i + 1) == Pos(content, plan, i) + 1
  {
    PosStep(content, plan, i);
    PlacedHere(nodes, now, was, content, plan, i);
    assert BlockAt(content, plan, i) == [content[i]];
    hide Expand;
    hide Pos;
    hide BlockAt;
    hide Chosen;
    var c := Pos(content, plan, i);
    assert nodes[c + 1..] == nodes[c..][1..];
    assert content[i..] == [content[i]] + content[i + 1..];
    assert Expand(content, plan, i) + content[i..] == Expand(content, plan, i + 1) + content[i + 1..];
    assert Pos(content, plan, i + 1) == c + 1;
  }

  lemma {:induction false} PlacedSite(
    nodes: seq<ILInstr>, now: seq<Instr<ILInstr?>>, was: seq<ILInstr>, content: seq<Instr<ILInstr?>>, plan: Planner, i: nat,
    nodes': seq<ILInstr>, now': seq<Instr<ILInstr?>>, block: seq<Instr<ILInstr?>>)
    requires Placed(nodes, now, was, content, plan, i) && i < |was|
    requires block == BlockAt(content, plan, i) && |nodes'| == |now'|
    requires var c := Pos(content, plan, i);
             && c < |nodes| == |now| && Grown(nodes, nodes', c + 1, |block| - 1)
             && now' == now[..c] + block + now[c + 1..]
    ensures Placed(nodes', now', was, content, plan, i + 1)
  {
    PosStep(content, plan, i);
    PlacedHere(nodes, now, was, content, plan, i);
    BeforeSite(content, plan, i);
    var c := Pos(content, plan, i);
    assert |Expand(content, plan, i)| == c;
    hide Expand;
    hide Pos;
    hide BlockAt;
    hide Chosen;
    hide Grown;
    SiteInstrs(now, now', Expand(content, plan, i), content[i..], block);
    assert content[i..][1..] == content[i + 1..];
    SiteNodes(nodes, nodes', was, c, i, |block| - 1);
  }

  lemma SiteInstrs<T>(now: seq<T>, now': seq<T>, front: seq<T>, rest: seq<T>, block: seq<T>)
    requires now == front + rest && |rest| > 0
    requires now' == now[..|front|] + block + now[|front| + 1..]
    ensures now' == front + block + rest[1..]
  {
  }

  lemma SiteNodes<T>(nodes: seq<T>, nodes': seq<T>, was: seq<T>, c: nat, i: nat, m: nat)
    requires c < |nodes| && i < |was| && nodes[c..] == was[i..] && Grown(nodes, nodes', c + 1, m)
    ensures |nodes'| == |nodes| + m && nodes'[c + 1 + m..] == was[i + 1..]
    ensures forall q :: 0 <= q <= c ==> nodes'[q] == nodes[q]
  {
    assert nodes[c + 1..] == nodes[c..][1..] == was[i + 1..];
    forall q | 0 <= q <= c
      ensures nodes'[q] == nodes[q]
    {
      assert nodes'[q] == nodes'[..c + 1][q] == nodes[..c + 1][q];
    }
  }

  lemma BeforeSite<L>(content: seq<Instr<L>>, plan: Planner, i: nat)
    requires i < |content|
    ensures forall j :: 0 <= j <= i ==> Pos(content, plan, j) <= Pos(content, plan, i)
  {
    forall j | 0 <= j <= i
      ensures Pos(content, plan, j) <= Pos(content, plan, i)
    {
      PosGrows(content, plan, j, i);
    }
  }

  /** A finished sweep. */
  lemma PlacedEnd(
    nodes: seq<ILInstr>, now: seq<Instr<ILInstr?>>, sentinel: ILInstr, was: seq<ILInstr>, content: seq<Instr<ILInstr?>>, plan: Planner)
    requires Placed(nodes, now, was, content, plan, |was|)
    ensures now == Expand(content, plan, |content|) && Moved(was, nodes, sentinel, content, plan)
  {
  }

  // ---------- Where the original nodes stand ----------

  /** The old nodes, and the sentinel, stand where the loop is said to leave them. */
  ghost predicate Followed(was: seq<ILInstr>, now: seq<ILInstr>, sentinel: ILInstr, code: Code, plan: Planner) {
    && Ends(code, plan) && |was| == |code|
    && forall t {:trigger SweptPos(code, plan, t)} :: 0 <= t <= |code| ==>
         NodeAt(now, sentinel, SweptPos(code, plan, t)) == NodeAt(was, sentinel, t)
  }

  /** Between two rounds: `place[t]` is where the node from position `t` of the first list stands. */
  ghost predicate Traced(
    first: seq<ILInstr>, was: seq<ILInstr>, sentinel: ILInstr, code: Code, start: Code, plan: Planner, place: seq<nat>)
  {
    && Ends(code, plan) && Ends(start, plan) && |first| == |code| && |was| == |start| && |place| == |code| + 1
    && forall t {:trigger place[t]} :: 0 <= t <= |code| ==>
         && place[t] <= |start| && NodeAt(was, sentinel, place[t]) == NodeAt(first, sentinel, t)
         && SweptPos(start, plan, place[t]) == SweptPos(code, plan, t)
  }

  lemma TracedStart(nodes: seq<ILInstr>, sentinel: ILInstr, code: Code, plan: Planner) returns (place: seq<nat>)
    requires Ends(code, plan) && |nodes| == |code|
    ensures Traced(nodes, nodes, sentinel, code, code, plan, place)
  {
    place := seq(|code| + 1, t => t);
  }

  lemma SweptPosStep(code: Code, plan: Planner, t: nat)
    requires Ends(code, plan) && t <= |code|
    ensures Pos(code, plan, t) <= |Rewrite(code, plan)|
    ensures LastChosen(code, plan) ==> Ends(Rewrite(code, plan), plan)
    ensures SweptPos(code, plan, t) ==
            if LastChosen(code, plan) then SweptPos(Rewrite(code, plan), plan, Pos(code, plan, t)) else Pos(code, plan, t)
  {
    PosGrows(code, plan, t, |code|);
    if LastChosen(code, plan) {
      NextRound(code, plan);
    }
  }

  lemma MovedAt(was: seq<ILInstr>, now: seq<ILInstr>, sentinel: ILInstr, content: seq<Instr<ILInstr?>>, code: Code, plan: Planner, t: nat)
    requires Represents(was, sentinel, content, code) && Moved(was, now, sentinel, content, plan) && t <= |code|
    ensures NodeAt(now, sentinel, Pos(code, plan, t)) == NodeAt(was, sentinel, t)
  {
    SamePos(was, sentinel, content, code, plan, t);
    hide Pos;
  }

  lemma {:induction false} TracedRound(
    first: seq<ILInstr>, was: seq<ILInstr>, now: seq<ILInstr>, sentinel: ILInstr, content: seq<Instr<ILInstr?>>,
    code: Code, start: Code, plan: Planner, place: seq<nat>) returns (place': seq<nat>)
    requires Traced(first, was, sentinel, code, start, plan, place) && LastChosen(start, plan)
    requires Represents(was, sentinel, content, start) && Moved(was, now, sentinel, content, plan)
    requires |now| == |Rewrite(start, plan)|
    ensures Traced(first, now, sentinel, code, Rewrite(start, plan), plan, place')
  {
    place' := seq(|place|, t requires 0 <= t < |place| => if place[t] <= |start| then Pos(start, plan, place[t]) else 0);
    NextRound(start, plan);
    hide Moved;
    hide Represents;
    hide Pos;
    hide Rewrite;
    hide NodeAt;
    hide SweptPos;
    hide LastChosen;
    hide Ends;
    forall t | 0 <= t <= |code|
      ensures place'[t] <= |Rewrite(start, plan)| && NodeAt(now, sentinel, place'[t]) == NodeAt(first, sentinel, t)
      ensures SweptPos(Rewrite(start, plan), plan, place'[t]) == SweptPos(code, plan, t)
    {
      assert place[t] <= |start|;
      MovedAt(was, now, sentinel, content, start, plan, place[t]);
      SweptPosStep(start, plan, place[t]);
    }
  }

  lemma {:induction false} TracedEnd(
    first: seq<ILInstr>, was: seq<ILInstr>, now: seq<ILInstr>, sentinel: ILInstr, content: seq<Instr<ILInstr?>>,
    code: Code, start: Code, plan: Planner, place: seq<nat>)
    requires Traced(first, was, sentinel, code, start, plan, place) && !LastChosen(start, plan)
    requires Represents(was, sentinel, content, start) && Moved(was, now, sentinel, content, plan)
    ensures Followed(first, now, sentinel, code, plan)
  {
    hide Moved;
    hide Represents;
    hide Pos;
    hide NodeAt;
    hide SweptPos;
    hide LastChosen;
    forall t | 0 <= t <= |code|
      ensures NodeAt(now, sentinel, SweptPos(code, plan, t)) == NodeAt(first, sentinel, t)
    {
      assert place[t] <= |start|;
      MovedAt(was, now, sentinel, content, start, plan, place[t]);
      SweptPosStep(start, plan, place[t]);
    }
  }

  // ---------- The loop ----------

  /** One rewritten site, and the step past the node behind it. */
  method VisitSite(
    rewriter: ILRewriter, at: ILInstr, plan: Planner, ghost was: seq<ILInstr>, ghost content: seq<Instr<ILInstr?>>, ghost i: nat)
    returns (next: ILInstr)
    requires rewriter.Valid() && Placed(rewriter.nodes, rewriter.Content(), was, content, plan, i) && i < |was| == |content|
    requires at == NodeAt(rewriter.nodes, rewriter.sentinel, Pos(content, plan, i)) && Chosen(content, plan, i)
    modifies rewriter, rewriter.sentinel, rewriter.nodes
    ensures rewriter.Valid() && Placed(rewriter.nodes, rewriter.Content(), was, content, plan, i + 1)
    ensures next == NodeAt(rewriter.nodes, rewriter.sentinel, if i + 1 < |was| then Pos(content, plan, i + 1) + 1 else 0)
    ensures rewriter.maxStack == old(rewriter.maxStack) + |rewriter.nodes| - |old(rewriter.nodes)|
    ensures rewriter.nInstrs == old(rewriter.nInstrs) + |rewriter.nodes| - |old(rewriter.nodes)|
    ensures forall i :: 0 <= i < |rewriter.nodes| ==> rewriter.nodes[i] in old(rewriter.nodes) || fresh(rewriter.nodes[i])
  {
    hide *;
    ghost var nodes, now, c := rewriter.nodes, rewriter.Content(), Pos(content, plan, i);
    SiteHere(rewriter, at, plan, was, content, i);
    var q := rewriter.ReplaceSite(at, plan(Immediate(Instr(at.opcode, at.operand))).value, c);
    PlacedSite(nodes, now, was, content, plan, i, rewriter.nodes, rewriter.Content(), BlockAt(content, plan, i));
    NodeBehind(rewriter, q, nodes, plan, was, content, i, |BlockAt(content, plan, i)| - 1);
    next := q.next;
  }

  lemma SiteHere(
    rewriter: ILRewriter, at: ILInstr, plan: Planner, was: seq<ILInstr>, content: seq<Instr<ILInstr?>>, i: nat)
    requires Placed(rewriter.nodes, rewriter.Content(), was, content, plan, i) && i < |was| == |content|
    requires at == NodeAt(rewriter.nodes, rewriter.sentinel, Pos(content, plan, i)) && Chosen(content, plan, i)
    ensures var c := Pos(content, plan, i); var x := Instr(at.opcode, at.operand);
            && c < |rewriter.nodes| && at == rewriter.nodes[c] && rewriter.Content()[c] == x
            && plan(Immediate(x)).Some? && BlockAt(content, plan, i) == Block(x, plan(Immediate(x)).value)
  {
    PlacedHere(rewriter.nodes, rewriter.Content(), was, content, plan, i);
    InstrHere(rewriter.nodes, Pos(content, plan, i));
    hide Placed;
    hide Block;
    hide Pos;
  }

  lemma NodeBehind(
    rewriter: ILRewriter, q: ILInstr, nodes: seq<ILInstr>, plan: Planner, was: seq<ILInstr>, content: seq<Instr<ILInstr?>>, i: nat, m: nat)
    requires rewriter.Valid() && i < |was| == |content|
    requires Placed(rewriter.nodes, rewriter.Content(), was, content, plan, i + 1)
    requires m + 1 == |BlockAt(content, plan, i)|
    requires Grown(nodes, rewriter.nodes, Pos(content, plan, i) + 1, m)
    requires q == NodeAt(nodes, rewriter.sentinel, Pos(content, plan, i) + 1)
    ensures q.next == NodeAt(rewriter.nodes, rewriter.sentinel, if i + 1 < |was| then Pos(content, plan, i + 1) + 1 else 0)
  {
    PosStep(content, plan, i);
    hide BlockAt;
    hide Expand;
    var c := Pos(content, plan, i + 1);
    assert |rewriter.nodes[c..]| == |was| - i - 1;
    if i + 1 < |was| {
      assert rewriter.nodes[c] == rewriter.nodes[c..][0] == nodes[Pos(content, plan, i) + 1..][0] == q;
      NextOf(rewriter.nodes, rewriter.sentinel, c);
    } else {
      NextAt(rewriter.nodes, rewriter.sentinel, 0);
    }
  }

  lemma InstrHere(nodes: seq<ILInstr>, c: nat)
    requires c < |nodes|
    ensures ContentOf(nodes)[c] == Instr(nodes[c].opcode, nodes[c].operand)
  {
  }

  /**
   ProcessReplacementCalls for one method replacement: whatever the list represents before, it
   represents the swept code afterwards, and the stack bound grew by one per inserted instruction.
   */
  method ReplaceCalls(rewriter: ILRewriter, plan: Planner, ghost code: Code) returns (modified: bool)
    requires rewriter.Valid() && Ends(code, plan)
    requires Represents(rewriter.nodes, rewriter.sentinel, rewriter.Content(), code)
    modifies rewriter, rewriter.sentinel, rewriter.nodes
    ensures rewriter.Valid()
    ensures Represents(rewriter.nodes, rewriter.sentinel, rewriter.Content(), Swept(code, plan))
    ensures rewriter.maxStack == old(rewriter.maxStack) + |rewriter.nodes| - |old(rewriter.nodes)|
    ensures rewriter.nInstrs == old(rewriter.nInstrs) + |rewriter.nodes| - |old(rewriter.nodes)|
    ensures forall i :: 0 <= i < |rewriter.nodes| ==> rewriter.nodes[i] in old(rewriter.nodes) || fresh(rewriter.nodes[i])
    ensures modified <==> AnyMatch(code, plan)
    ensures Followed(old(rewriter.nodes), rewriter.nodes, rewriter.sentinel, code, plan)
  {
    hide *;
    modified := false;
    var sentinel := rewriter.sentinel;
    ghost var start, was, content, i := code, rewriter.nodes, rewriter.Content(), 0;
    SameSize(was, sentinel, content, code);
    ghost var place := TracedStart(was, sentinel, code, plan);
    PlacedStart(was, content, plan);
    var p := First(rewriter, plan);
    while p != sentinel
      invariant rewriter.Valid() && i <= |was| == |content|
      invariant Represents(was, sentinel, content, start) && Ends(start, plan) && Swept(start, plan) == Swept(code, plan)
      invariant Traced(old(rewriter.nodes), was, sentinel, code, start, plan, place)
      invariant Placed(rewriter.nodes, rewriter.Content(), was, content, plan, i)
      invariant p == NodeAt(rewriter.nodes, sentinel, Pos(content, plan, i))
      invariant i > 0 ==> !Chosen(content, plan, i - 1)
      invariant rewriter.maxStack == old(rewriter.maxStack) + |rewriter.nodes| - |old(rewriter.nodes)|
      invariant rewriter.nInstrs == old(rewriter.nInstrs) + |rewriter.nodes| - |old(rewriter.nodes)|
      invariant forall i :: 0 <= i < |rewriter.nodes| ==> rewriter.nodes[i] in old(rewriter.nodes) || fresh(rewriter.nodes[i])
      invariant if modified then AnyMatch(code, plan)
                else start == code && forall j :: 0 <= j < i ==> !Matches(content[j], plan)
      decreases Rounds(start, plan), |content| - i
    {
      CursorHere(rewriter, p, plan, was, content, i);
      if Matches(Instr(p.opcode, p.operand), plan) {
        SomeMatch(was, sentinel, content, start, code, plan, i, modified);
        p := VisitSite(rewriter, p, plan, was, content, i);
        modified := true;
        if i + 1 < |was| {
          StepOver(content, plan, i);
          PlacedSkip(rewriter.nodes, rewriter.Content(), was, content, plan, i + 1);
          i := i + 2;
        } else {
          PlacedEnd(rewriter.nodes, rewriter.Content(), sentinel, was, content, plan);
          SameSize(was, sentinel, content, start);
          SameChoice(was, sentinel, content, start, plan, i);
          RepresentsRewrite(was, rewriter.nodes, sentinel, content, start, plan);
          SweptAgain(start, plan);
          SameSize(rewriter.nodes, sentinel, rewriter.Content(), Rewrite(start, plan));
          place := TracedRound(old(rewriter.nodes), was, rewriter.nodes, sentinel, content, code, start, plan, place);
          start, was, content, i := Rewrite(start, plan), rewriter.nodes, rewriter.Content(), 0;
          PlacedStart(was, content, plan);
        }
      } else {
        PlacedSkip(rewriter.nodes, rewriter.Content(), was, content, plan, i);
        p := p.next;
        i := i + 1;
      }
    }
    CursorEnd(rewriter, plan, was, content, i);
    PlacedEnd(rewriter.nodes, rewriter.Content(), sentinel, was, content, plan);
    SameSize(was, sentinel, content, start);
    if i > 0 {
      SameChoice(was, sentinel, content, start, plan, i - 1);
    }
    RepresentsRewrite(was, rewriter.nodes, sentinel, content, start, plan);
    SweptOnce(start, plan);
    TracedEnd(old(rewriter.nodes), was, rewriter.nodes, sentinel, content, code, start, plan, place);
    if !modified {
      NoMatch(was, sentinel, content, code, plan);
    }
  }

  method First(rewriter: ILRewriter, ghost plan: Planner) returns (p: ILInstr)
    requires rewriter.Valid()
    ensures p == NodeAt(rewriter.nodes, rewriter.sentinel, Pos(rewriter.Content(), plan, 0))
  {
    NextAt(rewriter.nodes, rewriter.sentinel, 0);
    p := rewriter.sentinel.next;
  }

  lemma CursorHere(
    rewriter: ILRewriter, p: ILInstr, plan: Planner, was: seq<ILInstr>, content: seq<Instr<ILInstr?>>, i: nat)
    requires rewriter.Valid() && i <= |was| == |content|
    requires Placed(rewriter.nodes, rewriter.Content(), was, content, plan, i)
    requires p == NodeAt(rewriter.nodes, rewriter.sentinel, Pos(content, plan, i)) && p != rewriter.sentinel
    ensures i < |was| && content[i] == Instr(p.opcode, p.operand)
    ensures Matches(content[i], plan) && (i > 0 ==> !Chosen(content, plan, i - 1)) ==> Chosen(content, plan, i)
    ensures !Matches(content[i], plan) ==> !Chosen(content, plan, i)
    ensures p.next == NodeAt(rewriter.nodes, rewriter.sentinel, Pos(content, plan, i) + 1)
  {
    assert i < |was|;
    PlacedHere(rewriter.nodes, rewriter.Content(), was, content, plan, i);
    InstrHere(rewriter.nodes, Pos(content, plan, i));
    NextOf(rewriter.nodes, rewriter.sentinel, Pos(content, plan, i));
    hide Placed;
    hide Linked;
    hide Pos;
  }

  lemma CursorEnd(rewriter: ILRewriter, plan: Planner, was: seq<ILInstr>, content: seq<Instr<ILInstr?>>, i: nat)
    requires rewriter.Valid() && i <= |was| == |content|
    requires Placed(rewriter.nodes, rewriter.Content(), was, content, plan, i)
    requires rewriter.sentinel == NodeAt(rewriter.nodes, rewriter.sentinel, Pos(content, plan, i))
    ensures i == |was|
  {
  }

  lemma StepOver<L>(content: seq<Instr<L>>, plan: Planner, i: nat)
    requires i + 1 < |content| && Chosen(content, plan, i)
    ensures !Chosen(content, plan, i + 1)
  {
  }

  lemma SweptAgain(code: Code, plan: Planner)
    requires Ends(code, plan) && |code| > 0 && Chosen(code, plan, |code| - 1)
    ensures LastChosen(code, plan) && Ends(Rewrite(code, plan), plan)
    ensures Swept(Rewrite(code, plan), plan) == Swept(code, plan)
    ensures Rounds(Rewrite(code, plan), plan) < Rounds(code, plan)
  {
    NextRound(code, plan);
  }

  lemma SweptOnce(code: Code, plan: Planner)
    requires Ends(code, plan) && (|code| > 0 ==> !Chosen(code, plan, |code| - 1))
    ensures Swept(code, plan) == Rewrite(code, plan) && !LastChosen(code, plan)
  {
  }

  lemma SomeMatch(
    was: seq<ILInstr>, sentinel: ILInstr, content: seq<Instr<ILInstr?>>, start: Code, code: Code, plan: Planner, i: nat, modified: bool)
    requires Represents(was, sentinel, content, start) && i < |was| == |content| && Matches(content[i], plan)
    requires modified ==> AnyMatch(code, plan)
    requires !modified ==> start == code
    ensures AnyMatch(code, plan)
  {
    SameChoice(was, sentinel, content, start, plan, i);
    assert !modified ==> Matches(code[i], plan);
  }

  lemma NoMatch(was: seq<ILInstr>, sentinel: ILInstr, content: seq<Instr<ILInstr?>>, code: Code, plan: Planner)
    requires Represents(was, sentinel, content, code) && |was| == |content|
    requires forall j :: 0 <= j < |was| ==> !Matches(content[j], plan)
    ensures !AnyMatch(code, plan)
  {
    forall j | 0 <= j < |code|
      ensures !Matches(code[j], plan)
    {
      SameChoice(was, sentinel, content, code, plan, j);
    }
  }
}
