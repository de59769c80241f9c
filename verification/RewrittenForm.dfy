/**
 Rewriting keeps a list well formed, so whatever the profiler exports can be imported again.
 */
module RewrittenForm {
  import opened Bytes
  import opened Opcodes
  import opened Layout
  import opened Codec
  import opened Replacement
  import opened Sweeps

  /** The tokens and the pointer of a plan fit the operands they are written to. */
  predicate Writable(p: Plan) {
    && Fits(4, p.wrapper) && Fits(4, p.token) && Fits(8, p.mvid)
    && (p.box.Some? ==> Fits(4, p.box.value)) && (p.unbox.Some? ==> Fits(4, p.unbox.value))
  }

  ghost predicate PlanFits(plan: Planner) {
    forall t :: plan(t).Some? ==> Writable(plan(t).value)
  }

  /** An instruction that can stand alone in a list. */
  predicate Sound(x: Instr<nat>) {
    OperandOk(x) && Importable(x.op) && x.op != SWITCH && !HasLabel(x.op)
  }

  lemma LoadSound(v: int)
    requires Fits(4, v)
    ensures Sound(LoadInt32(v))
  {
    Widths();
  }

  lemma {:induction false} BlockSound(x: Instr<nat>, p: Plan, k: nat)
    requires Writable(p) && k < |Block(x, p)| && IsCall(x.op)
    ensures Sound(Block(x, p)[k])
  {
    Widths();
    LoadSound(x.op);
    LoadSound(p.token);
    hide Pow256;
    hide LoadInt32;
    hide IsInline4;
    var mid: seq<Instr<nat>> := [LoadInt32(x.op), LoadInt32(p.token), Instr(LDC_I8, Imm(p.mvid)), Instr(CALL, Imm(p.wrapper))];
    FixedSound(p);
    assert forall j :: 0 <= j < |mid| ==> Sound(mid[j]);
    NopSound(x);
    hide Sound;
  }

  lemma FixedSound(p: Plan)
    requires Writable(p)
    ensures Sound(Instr(LDC_I8, Imm(p.mvid))) && Sound(Instr(CALL, Imm(p.wrapper)))
    ensures p.box.Some? ==> Sound(Instr(BOX, Imm(p.box.value)))
    ensures p.unbox.Some? ==> Sound(Instr(UNBOX_ANY, Imm(p.unbox.value)))
  {
  }

  lemma NopSound(x: Instr<nat>)
    ensures Sound(x.(op := NOP))
  {
  }

  // ---------- Positions ----------

  /** Position Pos(i) + k of the rewritten list. */
  lemma {:induction false} RewrittenSound(code: Code, plan: Planner, i: nat, k: nat)
    requires i < |code| && k < |BlockAt(code, plan, i)| && PlanFits(plan) && Chosen(code, plan, i)
    ensures Pos(code, plan, i) + k < |Rewrite(code, plan)|
    ensures Sound(Rewrite(code, plan)[Pos(code, plan, i) + k])
  {
    RewriteAt(code, plan, i, k);
    BlockSound(code[i], plan(Immediate(code[i])).value, k);
    SoundRelabel(code, plan, BlockAt(code, plan, i)[k]);
  }

  lemma SoundRelabel(code: Code, plan: Planner, x: Instr<nat>)
    requires Sound(x)
    ensures Sound(Relabel(code, plan, x))
  {
    hide Image;
  }

  lemma {:induction false} KeptAt(code: Code, plan: Planner, i: nat)
    requires i < |code| && !Chosen(code, plan, i)
    ensures Pos(code, plan, i + 1) == Pos(code, plan, i) + 1 && Pos(code, plan, i) < |Rewrite(code, plan)|
    ensures Rewrite(code, plan)[Pos(code, plan, i)] == Relabel(code, plan, code[i])
  {
    RewriteAt(code, plan, i, 0);
  }

  lemma NotCall(code: Code, plan: Planner, i: nat)
    requires i < |code| && !IsCall(code[i].op)
    ensures !Chosen(code, plan, i)
  {
  }

  /** A switch table moves as one piece. */
  lemma {:induction false} TableMoves(code: Code, plan: Planner, i: nat, n: nat, k: nat)
    requires i + 1 + n <= |code| && k <= n + 1 && code[i].op == SWITCH
    requires forall j :: i < j <= i + n ==> code[j].op == SWITCH_ARG
    ensures Pos(code, plan, i + k) == Pos(code, plan, i) + k
  {
    hide *;
    if k > 0 {
      TableMoves(code, plan, i, n, k - 1);
      EntryNotCall();
      NotCall(code, plan, i + k - 1);
      KeptAt(code, plan, i + k - 1);
    }
  }

  // ---------- Switch tables ----------

  lemma {:induction false} SkipSound(r: Code, q: nat, m: nat)
    requires q + m <= |r| && TablesOk(r, q + m)
    requires forall j {:trigger r[j]} :: q <= j < q + m ==> r[j].op != SWITCH && r[j].op != SWITCH_ARG
    ensures TablesOk(r, q)
    decreases m
  {
    if m > 0 {
      SkipSound(r, q + 1, m - 1);
    }
  }

  lemma {:induction false} TablesKept(code: Code, plan: Planner, i: nat)
    requires PlanFits(plan) && i <= |code| && TablesOk(code, i)
    ensures Pos(code, plan, i) <= |Rewrite(code, plan)| && TablesOk(Rewrite(code, plan), Pos(code, plan, i))
    decreases |code| - i
  {
    hide *;
    RewriteSize(code, plan, i);
    if i == |code| {
      EndOk(Rewrite(code, plan));
    } else {
      TablesStep(code, i);
      if code[i].op == SWITCH {
        TablesKept(code, plan, i + 1 + code[i].operand.value);
        SwitchMoves(code, plan, i);
      } else {
        TablesKept(code, plan, i + 1);
        if Chosen(code, plan, i) {
          BlockMoves(code, plan, i);
        } else {
          PlainMoves(code, plan, i);
        }
      }
    }
  }

  lemma EndOk(r: Code)
    ensures TablesOk(r, |r|)
  {
  }

  lemma RewriteSize(code: Code, plan: Planner, i: nat)
    requires i <= |code|
    ensures Pos(code, plan, i) <= |Rewrite(code, plan)| == Pos(code, plan, |code|)
  {
    PosGrows(code, plan, i, |code|);
  }

  lemma {:induction false} SwitchMoves(code: Code, plan: Planner, i: nat)
    requires i < |code| && TablesOk(code, i) && code[i].op == SWITCH
    requires code[i].operand.Imm? && 0 <= code[i].operand.value && i + 1 + code[i].operand.value <= |code|
    requires Pos(code, plan, i + 1 + code[i].operand.value) <= |Rewrite(code, plan)|
    requires TablesOk(Rewrite(code, plan), Pos(code, plan, i + 1 + code[i].operand.value))
    ensures Pos(code, plan, i) <= |Rewrite(code, plan)| && TablesOk(Rewrite(code, plan), Pos(code, plan, i))
  {
    hide *;
    var n, r, q := code[i].operand.value, Rewrite(code, plan), Pos(code, plan, i);
    TableEntries(code, i);
    EntryNotCall();
    NotCall(code, plan, i);
    KeptAt(code, plan, i);
    RelabelOp(code, plan, code[i]);
    TableMoves(code, plan, i, n, n + 1);
    forall j | q < j <= q + n
      ensures r[j].op == SWITCH_ARG
    {
      var e := i + (j - q);
      TableMoves(code, plan, i, n, j - q);
      assert code[e].op == SWITCH_ARG;
      NotCall(code, plan, e);
      KeptAt(code, plan, e);
      RelabelOp(code, plan, code[e]);
    }
    TablesIntro(r, q, n);
  }

  lemma TableEntries(code: Code, i: nat)
    requires i < |code| && TablesOk(code, i) && code[i].op == SWITCH
    ensures code[i].operand.Imm? && 0 <= code[i].operand.value && i + 1 + code[i].operand.value <= |code|
    ensures forall j :: i < j <= i + code[i].operand.value ==> code[j].op == SWITCH_ARG
  {
  }

  lemma RelabelOp(code: Code, plan: Planner, x: Instr<nat>)
    ensures Relabel(code, plan, x).op == x.op
    ensures x.operand.Imm? ==> Relabel(code, plan, x) == x
  {
  }

  lemma EntryNotCall()
    ensures !IsCall(SWITCH_ARG) && !IsCall(SWITCH)
  {
  }

  lemma TablesIntro(r: Code, q: nat, n: nat)
    requires q + 1 + n <= |r| && r[q].op == SWITCH && r[q].operand == Imm(n)
    requires forall j :: q < j <= q + n ==> r[j].op == SWITCH_ARG
    requires TablesOk(r, q + 1 + n)
    ensures TablesOk(r, q)
  {
  }

  lemma PosAfter(code: Code, plan: Planner, i: nat)
    requires i < |code|
    ensures Pos(code, plan, i + 1) == Pos(code, plan, i) + |BlockAt(code, plan, i)|
  {
  }

  lemma SoundOp(x: Instr<nat>)
    requires Sound(x)
    ensures x.op != SWITCH && x.op != SWITCH_ARG
  {
  }

  lemma {:induction false} BlockMoves(code: Code, plan: Planner, i: nat)
    requires i < |code| && PlanFits(plan) && Chosen(code, plan, i)
    requires Pos(code, plan, i + 1) <= |Rewrite(code, plan)| && TablesOk(Rewrite(code, plan), Pos(code, plan, i + 1))
    ensures Pos(code, plan, i) <= |Rewrite(code, plan)| && TablesOk(Rewrite(code, plan), Pos(code, plan, i))
  {
    hide *;
    var r, q, m := Rewrite(code, plan), Pos(code, plan, i), |BlockAt(code, plan, i)|;
    PosAfter(code, plan, i);
    forall j {:trigger r[j]} | q <= j < q + m
      ensures r[j].op != SWITCH && r[j].op != SWITCH_ARG
    {
      RewrittenSound(code, plan, i, j - q);
      SoundOp(r[j]);
    }
    SkipSound(r, q, m);
  }

  lemma {:induction false} PlainMoves(code: Code, plan: Planner, i: nat)
    requires i < |code| && !Chosen(code, plan, i) && code[i].op != SWITCH && code[i].op != SWITCH_ARG
    requires Pos(code, plan, i + 1) <= |Rewrite(code, plan)| && TablesOk(Rewrite(code, plan), Pos(code, plan, i + 1))
    ensures Pos(code, plan, i) <= |Rewrite(code, plan)| && TablesOk(Rewrite(code, plan), Pos(code, plan, i))
  {
    hide *;
    KeptAt(code, plan, i);
    RelabelOp(code, plan, code[i]);
    SkipSound(Rewrite(code, plan), Pos(code, plan, i), 1);
  }

  // ---------- Operands and targets ----------

  /** What WellFormed asks of one instruction. */
  predicate Proper(code: Code, x: Instr<nat>) {
    && OperandOk(x) && (Importable(x.op) || x.op == SWITCH_ARG)
    && (HasLabel(x.op) ==> x.operand.Label? && x.operand.dest <= |code|
                           && (x.operand.dest == |code| || code[x.operand.dest].op != SWITCH_ARG))
  }

  lemma ProperMeans(code: Code)
    ensures WellFormed(code) <==> TablesOk(code, 0) && forall i :: 0 <= i < |code| ==> Proper(code, code[i])
  {
    hide KindOf;
    hide TablesOk;
    hide Importable;
    hide OperandOk;
    if TablesOk(code, 0) && forall i :: 0 <= i < |code| ==> Proper(code, code[i]) {
      forall i | 0 <= i < |code| && HasLabel(code[i].op)
        ensures code[i].operand.Label? && code[i].operand.dest <= |code|
      {
        assert Proper(code, code[i]);
      }
      forall i | 0 <= i < |code|
        ensures OperandOk(code[i]) && (Importable(code[i].op) || code[i].op == SWITCH_ARG)
      {
        assert Proper(code, code[i]);
      }
    }
  }

  lemma SoundProper(code: Code, x: Instr<nat>)
    requires Sound(x)
    ensures Proper(code, x)
  {
  }

  lemma {:induction false} KeptProper(code: Code, plan: Planner, i: nat)
    requires i < |code| && Proper(code, code[i])
    ensures Proper(Rewrite(code, plan), Relabel(code, plan, code[i]))
  {
    hide KindOf;
    hide Importable;
    hide Rewrite;
    hide Expand;
    hide Chosen;
    var x := code[i];
    if HasLabel(x.op) {
      var t := x.operand.dest;
      RewriteSize(code, plan, t);
      if t < |code| {
        TargetKept(code, plan, t);
      }
    }
    RelabelOk(code, plan, x);
  }

  lemma RelabelOk(code: Code, plan: Planner, x: Instr<nat>)
    requires OperandOk(x)
    ensures OperandOk(Relabel(code, plan, x))
  {
    hide KindOf;
  }

  lemma {:induction false} TargetKept(code: Code, plan: Planner, t: nat)
    requires t < |code| && code[t].op != SWITCH_ARG
    ensures Pos(code, plan, t) < |Rewrite(code, plan)| && Rewrite(code, plan)[Pos(code, plan, t)].op != SWITCH_ARG
  {
    RewriteAt(code, plan, t, 0);
  }

  /** One pass keeps the list well formed. */
  lemma {:induction false} RewriteWellFormed(code: Code, plan: Planner)
    requires WellFormed(code) && PlanFits(plan)
    ensures WellFormed(Rewrite(code, plan))
  {
    hide *;
    ProperMeans(code);
    var r := Rewrite(code, plan);
    RewriteSize(code, plan, |code|);
    forall q | 0 <= q < |r|
      ensures Proper(r, r[q])
    {
      var i, k := BlockOf(code, plan, q, |code|);
      RewriteAt(code, plan, i, k);
      if Chosen(code, plan, i) {
        RewrittenSound(code, plan, i, k);
        SoundProper(r, r[q]);
      } else {
        OneBlock(code, plan, i);
        KeptProper(code, plan, i);
      }
    }
    TablesKept(code, plan, 0);
    PosZero(code, plan);
    ProperMeans(r);
  }

  lemma OneBlock(code: Code, plan: Planner, i: nat)
    requires i < |code| && !Chosen(code, plan, i)
    ensures BlockAt(code, plan, i) == [code[i]]
  {
  }

  lemma PosZero(code: Code, plan: Planner)
    ensures Pos(code, plan, 0) == 0
  {
  }

  /** The whole loop of one replacement keeps it too. */
  lemma {:induction false} SweptWellFormed(code: Code, plan: Planner)
    requires WellFormed(code) && PlanFits(plan) && Ends(code, plan)
    ensures WellFormed(Swept(code, plan))
    decreases Rounds(code, plan)
  {
    RewriteWellFormed(code, plan);
    if LastChosen(code, plan) {
      NextRound(code, plan);
      SweptWellFormed(Rewrite(code, plan), plan);
    }
  }
}
