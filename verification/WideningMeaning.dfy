/**
 Export widens branches and forgets operands that the byte form has no room for; neither changes what
 a body does.
 */
module WideningMeaning {
  import opened Bytes
  import opened Opcodes
  import opened Layout
  import opened Codec
  import opened Decoding
  import opened Replacement
  import opened Regions
  import opened StackMachine
  import opened Simulation
  import opened Preservation

  /** The machine treats the short and the long form of a branch alike. */
  ghost predicate WidthBlind<V(!new), W(!new), R>(m: Machine<V, W, R>) {
    forall op: nat, imm: int, prefix: Prefix, cover: seq<Cover>, st: seq<V>, w: W {:trigger m.prim(op, imm, prefix, cover, st, w)} ::
      KindOf(op).ShortBranch? ==> m.prim(Widen(op), imm, prefix, cover, st, w) == m.prim(op, imm, prefix, cover, st, w)
  }

  /**
   Two lists that a body may exchange: position by position the same opcode or a short branch and its
   long form, the same immediate except for a nop, and the same targets.
   */
  predicate AlikeAt(x: Instr<nat>, y: Instr<nat>) {
    && (y.op == x.op || (KindOf(x.op).ShortBranch? && y.op == Widen(x.op)))
    && (x.op == NOP || Immediate(y) == Immediate(x))
    && (HasLabel(x.op) ==> y.operand == x.operand)
  }

  predicate Alike(a: Code, b: Code) {
    |a| == |b| && forall i {:trigger a[i]} :: 0 <= i < |a| ==> AlikeAt(a[i], b[i])
  }

  lemma {:induction false} WideningAlike(code: Code, wide: Code)
    requires Widening(code, wide)
    ensures Alike(code, wide)
  {
    hide IsInline4;
  }

  lemma AlikeOps(x: Instr<nat>, y: Instr<nat>)
    requires AlikeAt(x, y)
    ensures x.op == SWITCH <==> y.op == SWITCH
    ensures x.op == SWITCH_ARG <==> y.op == SWITCH_ARG
    ensures IsBranch(x.op) <==> IsBranch(y.op)
    ensures HasLabel(x.op) <==> HasLabel(y.op)
    ensures IsPrefix(x.op) <==> IsPrefix(y.op)
    ensures IsPrefix(x.op) ==> y.op == x.op && Immediate(y) == Immediate(x)
  {
  }

  lemma ShortGoesToPrim<V, W, R>(m: Machine<V, W, R>, op: nat, imm: int, prefix: Prefix, cover: seq<Cover>, st: seq<V>, w: W)
    requires KindOf(op).ShortBranch?
    ensures Execute(m, op, imm, prefix, cover, st, w) == m.prim(op, imm, prefix, cover, st, w)
    ensures Execute(m, Widen(op), imm, prefix, cover, st, w) == m.prim(Widen(op), imm, prefix, cover, st, w)
  {
  }

  lemma {:induction false} ExecuteAlike<V(!new), W(!new), R>(
    m: Machine<V, W, R>, x: Instr<nat>, y: Instr<nat>, imm: int, imm': int, prefix: Prefix, cover: seq<Cover>, st: seq<V>, w: W)
    requires WidthBlind(m) && AlikeAt(x, y) && (x.op == NOP || imm' == imm)
    ensures Execute(m, y.op, imm', prefix, cover, st, w) == Execute(m, x.op, imm, prefix, cover, st, w)
  {
    if y.op != x.op {
      ShortGoesToPrim(m, x.op, imm, prefix, cover, st, w);
      assert m.prim(x.op, imm, prefix, cover, st, w) == m.prim(y.op, imm, prefix, cover, st, w);
    }
    hide KindOf;
  }

  lemma {:induction false} OrdinalAlike(a: Code, b: Code, pc: nat)
    requires Alike(a, b) && pc <= |a|
    ensures Ordinal(b, pc) == Ordinal(a, pc)
  {
    if pc > 0 {
      AlikeOps(a[pc - 1], b[pc - 1]);
      OrdinalAlike(a, b, pc - 1);
    }
    hide AlikeAt;
    hide IsBranch;
  }

  lemma {:induction false} ArgumentAlike(a: Code, b: Code, pc: nat)
    requires Alike(a, b) && pc < |a|
    ensures a[pc].op == NOP || Argument(b, pc) == Argument(a, pc)
  {
    assert AlikeAt(a[pc], b[pc]);
    AlikeOps(a[pc], b[pc]);
    OrdinalAlike(a, b, pc);
    hide IsBranch;
    hide Ordinal;
    hide KindOf;
  }

  lemma {:induction false} BranchAlike(a: Code, b: Code, q: nat, j: nat)
    requires Alike(a, b) && Closed(a) && Closed(b) && q <= |a|
    ensures BranchTarget(b, q, j) == BranchTarget(a, q, j)
    decreases |a| - q
  {
    if q < |a| {
      assert AlikeAt(a[q], b[q]);
      AlikeOps(a[q], b[q]);
      assert IsBranch(a[q].op) ==> HasLabel(a[q].op);
      BranchTargetNext(a, q, j);
      BranchTargetNext(b, q, j);
      hide AlikeAt;
      hide IsBranch;
      hide HasLabel;
      hide BranchTarget;
      BranchAlike(a, b, q + 1, j);
      if j > 0 {
        BranchAlike(a, b, q + 1, j - 1);
      }
    } else {
      BranchTargetEnd(a, j);
      BranchTargetEnd(b, j);
    }
  }

  lemma {:induction false} SkipAlike(a: Code, b: Code, q: nat)
    requires Alike(a, b) && q <= |a|
    ensures SkipEntries(b, q) == SkipEntries(a, q)
    decreases |a| - q
  {
    if q < |a| {
      AlikeOps(a[q], b[q]);
      hide AlikeAt;
      SkipAlike(a, b, q + 1);
    }
  }

  lemma {:induction false} TargetAlike(a: Code, b: Code, q: nat, k: nat)
    requires Alike(a, b) && Closed(a) && Closed(b) && q <= |a|
    ensures EntryTarget(b, q, k) == EntryTarget(a, q, k)
    decreases k
  {
    if q < |a| {
      assert AlikeAt(a[q], b[q]);
      AlikeOps(a[q], b[q]);
      assert a[q].op == SWITCH_ARG ==> b[q].operand == a[q].operand;
      hide AlikeAt;
      hide KindOf;
      if a[q].op == SWITCH_ARG && k > 0 {
        TargetAlike(a, b, q + 1, k - 1);
      }
    }
  }

  lemma {:induction false} ApplyAlike<V, W, R>(a: Body, b: Body, pc: nat, o: Outcome<V, W, R>)
    requires BodyOk(a) && BodyOk(b) && Alike(a.code, b.code) && b.clauses == a.clauses && pc < |a.code|
    ensures Apply(b, pc, o) == Apply(a, pc, o)
  {
    assert AlikeAt(a.code[pc], b.code[pc]);
    AlikeOps(a.code[pc], b.code[pc]);
    SkipAlike(a.code, b.code, pc + 1);
    if o.Case? {
      TargetAlike(a.code, b.code, pc + 1, o.k);
    }
    if o.Resume? {
      BranchAlike(a.code, b.code, 0, o.j);
    }
    hide BranchTarget;
    hide SkipEntries;
    hide EntryTarget;
    hide KindOf;
  }

  lemma PrefixAlike(a: Code, b: Code, pc: nat)
    requires Alike(a, b) && pc <= |a|
    ensures PrefixAt(b, pc) == PrefixAt(a, pc)
  {
    if pc > 0 {
      AlikeOps(a[pc - 1], b[pc - 1]);
    }
    hide AlikeAt;
  }

  lemma {:induction false} StepAlike<V(!new), W(!new), R>(m: Machine<V, W, R>, a: Body, b: Body, s: State<V, W, R>)
    requires WidthBlind(m) && BodyOk(a) && BodyOk(b) && Alike(a.code, b.code) && b.clauses == a.clauses
    ensures Step(m, b, s) == Step(m, a, s)
  {
    if s.Running? && s.pc < |a.code| {
      var x, y, cover := a.code[s.pc], b.code[s.pc], Covers(a.clauses, |a.code|, s.pc);
      assert AlikeAt(x, y);
      PrefixAlike(a.code, b.code, s.pc);
      var prefix := PrefixAt(a.code, s.pc);
      var imm, imm' := Argument(a.code, s.pc), Argument(b.code, s.pc);
      ArgumentAlike(a.code, b.code, s.pc);
      ExecuteAlike(m, x, y, imm, imm', prefix, cover, s.stack, s.world);
      ApplyAlike(a, b, s.pc, Execute(m, x.op, imm, prefix, cover, s.stack, s.world));
      hide Argument;
      hide Execute;
      hide Apply;
      hide PrefixAt;
      hide Covers;
      hide AlikeAt;
    }
  }

  /** Bodies with lists alike run alike, step for step. */
  lemma {:induction false} RunAlike<V(!new), W(!new), R>(m: Machine<V, W, R>, a: Body, b: Body, n: nat, s: State<V, W, R>)
    requires WidthBlind(m) && BodyOk(a) && BodyOk(b) && Alike(a.code, b.code) && b.clauses == a.clauses
    ensures Run(m, b, n, s) == Run(m, a, n, s)
  {
    hide Step;
    hide Alike;
    hide WidthBlind;
    if n > 0 {
      StepAlike(m, a, b, s);
      RunAlike(m, a, b, n - 1, Step(m, a, s));
    }
  }

  /** Widening branches changes no run. */
  lemma {:induction false} WideningKeepsRuns<V(!new), W(!new), R>(m: Machine<V, W, R>, b: Body, wide: Code, n: nat, s: State<V, W, R>)
    requires WidthBlind(m) && BodyOk(b) && Widening(b.code, wide)
    ensures BodyOk(Body(wide, b.clauses)) && Run(m, Body(wide, b.clauses), n, s) == Run(m, b, n, s)
  {
    WideClosed(b.code, wide);
    WideningAlike(b.code, wide);
    hide Alike;
    RunAlike(m, b, Body(wide, b.clauses), n, s);
  }

  lemma {:induction false} WideClosed(code: Code, wide: Code)
    requires Closed(code) && Widening(code, wide)
    ensures Closed(wide)
  {
    forall i | 0 <= i < |wide| && HasLabel(wide[i].op)
      ensures wide[i].operand.Label? && wide[i].operand.dest <= |wide|
    {
      assert HasLabel(code[i].op);
    }
  }

  lemma {:induction false} ReachesAlike<V(!new), W(!new), R(!new)>(m: Machine<V, W, R>, a: Body, b: Body, s: State<V, W, R>, t: State<V, W, R>)
    requires WidthBlind(m) && BodyOk(a) && BodyOk(b) && Alike(a.code, b.code) && b.clauses == a.clauses
    ensures Reaches(m, b, s, t) <==> Reaches(m, a, s, t)
  {
    if Reaches(m, b, s, t) {
      var n: nat :| Run(m, b, n, s) == t;
      RunAlike(m, a, b, n, s);
      assert Run(m, a, n, s) == t;
    }
    if Reaches(m, a, s, t) {
      var n: nat :| Run(m, a, n, s) == t;
      RunAlike(m, a, b, n, s);
      assert Run(m, b, n, s) == t;
    }
  }

  // ---------- Operands that the bytes forget ----------

  /** An instruction without operand bytes has no operand to lose, unless it is a nop. */
  predicate BareAt(x: Instr<nat>) {
    KindOf(x.op).Plain? && x.op != NOP ==> Immediate(x) == 0
  }

  predicate Bare(code: Code) {
    forall i {:trigger code[i]} :: 0 <= i < |code| ==> BareAt(code[i])
  }

  lemma ReadBackAlike(x: Instr<nat>)
    requires BareAt(x) && (HasLabel(x.op) ==> x.operand.Label?)
    ensures AlikeAt(x, Located(Canonical(x)))
  {
  }

  /** What is read back from the bytes is alike what was written. */
  lemma {:induction false} ImportedAlike(code: Code)
    requires Bare(code) && Closed(code)
    ensures Alike(code, AsCode(Imported(code)))
  {
    var back := AsCode(Imported(code));
    hide AlikeAt;
    forall i {:trigger code[i]} | 0 <= i < |code|
      ensures AlikeAt(code[i], back[i])
    {
      ReadBackAlike(code[i]);
    }
  }

  lemma AlikeTransitive(a: Code, b: Code, c: Code)
    requires Widening(a, b) && Bare(a) && Closed(b)
    requires c == AsCode(Imported(b))
    ensures Alike(a, c) && Bare(b)
  {
    BareWiden(a, b);
    ImportedAlike(b);
    forall i {:trigger a[i]} | 0 <= i < |a|
      ensures AlikeAt(a[i], c[i])
    {
      assert AlikeAt(b[i], c[i]);
      AlikeChain(a[i], b[i], c[i]);
    }
  }

  lemma AlikeChain(x: Instr<nat>, y: Instr<nat>, z: Instr<nat>)
    requires y.operand == x.operand && (y.op == x.op || (KindOf(x.op).ShortBranch? && y.op == Widen(x.op)))
    requires AlikeAt(y, z)
    ensures AlikeAt(x, z)
  {
  }

  lemma BareWiden(a: Code, b: Code)
    requires Widening(a, b) && Bare(a)
    ensures Bare(b)
  {
    forall i {:trigger b[i]} | 0 <= i < |b|
      ensures BareAt(b[i])
    {
      assert BareAt(a[i]);
    }
  }

  lemma {:induction false} BlockBare(x: Instr<nat>, p: Plan, k: nat)
    requires k < |Block(x, p)|
    ensures BareAt(Block(x, p)[k])
  {
    BlockOps(x, p, k);
  }

  lemma {:induction false} RewriteBare(code: Code, plan: Planner)
    requires Bare(code)
    ensures Bare(Rewrite(code, plan))
  {
    hide *;
    var r := Rewrite(code, plan);
    RewriteLength(code, plan);
    forall q {:trigger r[q]} | 0 <= q < |r|
      ensures BareAt(r[q])
    {
      var i, k := BlockOf(code, plan, q, |code|);
      RewriteAt(code, plan, i, k);
      BlockBareAt(code, plan, i, k);
      RelabelBare(code, plan, BlockAt(code, plan, i)[k]);
    }
    BareIntro(r);
  }

  lemma BlockBareAt(code: Code, plan: Planner, i: nat, k: nat)
    requires Bare(code) && i < |code| && k < |BlockAt(code, plan, i)|
    ensures BareAt(BlockAt(code, plan, i)[k])
  {
    assert BareAt(code[i]);
    if Chosen(code, plan, i) {
      BlockBare(code[i], plan(Immediate(code[i])).value, k);
    }
  }

  lemma RelabelBare(code: Code, plan: Planner, x: Instr<nat>)
    requires BareAt(x)
    ensures BareAt(Relabel(code, plan, x))
  {
  }

  lemma BareIntro(code: Code)
    requires forall i {:trigger code[i]} :: 0 <= i < |code| ==> BareAt(code[i])
    ensures Bare(code)
  {
  }

  lemma {:induction false} PassesBare(b: Body, passes: seq<Planner>)
    requires BodyOk(b) && Bare(b.code)
    ensures Bare(RewriteAll(b, passes).code)
    decreases |passes|
  {
    hide Bare;
    if passes != [] {
      BodyParts(b, passes[0]);
      RewriteBare(b.code, passes[0]);
      hide RewriteBody;
      PassesBare(RewriteBody(b, passes[0]), passes[1..]);
    }
  }

  /** Whatever is imported is bare. */
  lemma {:induction false} ImportBare(b: seq<byte>)
    requires Import(b).Some?
    ensures Bare(Import(b).value)
  {
    ImportAgrees(b);
    var raws, code := ReadFrom(b, 0).value, Import(b).value;
    Walk(b, raws, code, 0);
    hide Import;
    hide ReadFrom;
    hide TablesOk;
    hide Offset;
    forall i {:trigger code[i]} | 0 <= i < |code|
      ensures BareAt(code[i])
    {
      AgreeAt(raws, code, i);
      assert ReadAs(raws[i], Offset(code, i));
    }
  }
}
