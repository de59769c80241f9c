/**
 The instruction list as a value, its byte layout, and the branch-widening loop of
 ILRewriter::Export (il_rewriter.cpp:381-508). A branch target is a position in the list; the
 position one past the last instruction stands for the list's sentinel.
 */
module Layout {
  import opened Opcodes

  datatype Operand<+L> = Imm(value: int) | Label(dest: L)

  datatype Instr<+L> = Instr(op: nat, operand: Operand<L>)

  type Code = seq<Instr<nat>>

  /** Every branch and every switch entry points into the list or at the sentinel. */
  predicate Closed(code: Code) {
    forall i :: 0 <= i < |code| && HasLabel(code[i].op) ==>
      code[i].operand.Label? && code[i].operand.dest <= |code|
  }

  /** The offset that the layout pass gives to position `i`. */
  function Offset(code: Code, i: nat): (o: nat)
    requires i <= |code|
  {
    if i == 0 then 0 else Offset(code, i - 1) + Size(code[i - 1].op)
  }

  lemma OffsetNext(code: Code, i: nat)
    requires i < |code|
    ensures Offset(code, i + 1) == Offset(code, i) + Size(code[i].op)
  {
  }

  function CodeSize(code: Code): nat {
    Offset(code, |code|)
  }

  /** The displacement of the branch at `i`, counted from the end of the branch. */
  function Delta(code: Code, i: nat): int
    requires Closed(code) && i < |code| && HasLabel(code[i].op)
  {
    Offset(code, code[i].operand.dest) - Offset(code, i + 1)
  }

  /** The branch at `i` is short and its displacement does not fit in a signed byte. */
  predicate TooFar(code: Code, i: nat)
    requires Closed(code) && i < |code|
  {
    KindOf(code[i].op).ShortBranch? && !(-128 <= Delta(code, i) <= 127)
  }

  predicate Settled(code: Code)
    requires Closed(code)
  {
    forall i :: 0 <= i < |code| ==> !TooFar(code, i)
  }

  /** Every short branch, of two bytes, reaches its target with a signed byte counted from its end. */
  predicate ShortsReach(code: Code)
    requires Closed(code)
  {
    forall i :: 0 <= i < |code| && (0x2B <= code[i].op <= 0x37 || code[i].op == 0xDE) ==>
      -128 <= Offset(code, code[i].operand.dest) - (Offset(code, i) + 2) <= 127
  }

  lemma SettledIffShortsReach(code: Code)
    requires Closed(code)
    ensures Settled(code) <==> ShortsReach(code)
  {
    forall i | 0 <= i < |code|
      ensures TooFar(code, i) <==>
                && (0x2B <= code[i].op <= 0x37 || code[i].op == 0xDE)
                && !(-128 <= Offset(code, code[i].operand.dest) - (Offset(code, i) + 2) <= 127)
    {
      OffsetNext(code, i);
    }
    hide TooFar;
    hide Offset;
  }

  /** `wide` is `code` with some of its short branches replaced by their long forms. */
  predicate Widening(code: Code, wide: Code) {
    && |wide| == |code|
    && forall i :: 0 <= i < |code| ==>
         && wide[i].operand == code[i].operand
         && (wide[i].op == code[i].op ||
             (KindOf(code[i].op).ShortBranch? && wide[i].op == Widen(code[i].op)))
  }

  function WidenAt(code: Code, i: nat): (x: Instr<nat>)
    requires Closed(code) && i < |code|
  {
    if TooFar(code, i) then code[i].(op := Widen(code[i].op)) else code[i]
  }

  /** One pass of the resolve loop: every branch too far away becomes long, against the old offsets. */
  function WidenPass(code: Code): (wide: Code)
    requires Closed(code)
    ensures Widening(code, wide) && Closed(wide)
  {
    seq(|code|, i requires 0 <= i < |code| => WidenAt(code, i))
  }

  function ShortCount(code: Code): (n: nat)
    ensures n <= |code|
  {
    if code == [] then 0
    else ShortCount(code[..|code| - 1]) + if KindOf(code[|code| - 1].op).ShortBranch? then 1 else 0
  }

  lemma {:induction false} WideningCount(code: Code, wide: Code)
    requires Widening(code, wide)
    ensures ShortCount(wide) <= ShortCount(code)
    ensures code != wide ==> ShortCount(wide) < ShortCount(code)
  {
    if code != [] {
      var n := |code| - 1;
      WideningCount(code[..n], wide[..n]);
      if code[..n] == wide[..n] && code[n] == wide[n] {
        assert code == code[..n] + [code[n]];
        assert wide == wide[..n] + [wide[n]];
      }
    }
  }

  /** Passing over the list until no branch is too far away. */
  function Settle(code: Code): (wide: Code)
    requires Closed(code)
    ensures Closed(wide) && Settled(wide)
    decreases ShortCount(code)
  {
    if Settled(code) then code
    else
      var i :| 0 <= i < |code| && TooFar(code, i);
      assert WidenPass(code)[i] != code[i];
      WideningCount(code, WidenPass(code));
      Settle(WidenPass(code))
  }

  /** How many times the layout loop runs, the last and successful pass included. */
  function Passes(code: Code): (n: nat)
    requires Closed(code)
    ensures 1 <= n <= ShortCount(code) + 1
    decreases ShortCount(code)
  {
    if Settled(code) then 1
    else
      var i :| 0 <= i < |code| && TooFar(code, i);
      assert WidenPass(code)[i] != code[i];
      WideningCount(code, WidenPass(code));
      1 + Passes(WidenPass(code))
  }

  lemma {:induction false} WideningTransitive(a: Code, b: Code, c: Code)
    requires Widening(a, b) && Widening(b, c)
    ensures Widening(a, c)
  {
  }

  /** Offsets grow by at least one and at most ten bytes per instruction. */
  lemma {:induction false} OffsetSpan(code: Code, i: nat, j: nat)
    requires i <= j <= |code|
    ensures Offset(code, i) + (j - i) <= Offset(code, j) <= Offset(code, i) + 10 * (j - i)
  {
    if i < j {
      OffsetSpan(code, i, j - 1);
    }
  }

  /**
   The layout bound, for the list and whatever branches have been widened: offsets strictly increase
   along the list and every instruction ends within ten bytes per node.
   */
  lemma {:induction false} LayoutBound(code: Code, wide: Code, i: nat, j: nat)
    requires Widening(code, wide) && i < j <= |code|
    ensures Offset(wide, i) < Offset(wide, j) <= CodeSize(wide) <= 10 * |code|
  {
    OffsetSpan(wide, i, j);
    OffsetSpan(wide, j, |code|);
    OffsetSpan(wide, 0, |code|);
  }

  /** Widening never brings two positions closer together. */
  lemma {:induction false} DistanceGrows(code: Code, wide: Code, i: nat, j: nat)
    requires Widening(code, wide) && i <= j <= |code|
    ensures Offset(code, j) - Offset(code, i) <= Offset(wide, j) - Offset(wide, i)
  {
    if i < j {
      DistanceGrows(code, wide, i, j - 1);
    }
  }

  /** A branch that is too far away stays too far away when other branches are widened. */
  lemma {:induction false} TooFarPersists(code: Code, wide: Code, i: nat)
    requires Closed(code) && Closed(wide) && Widening(code, wide)
    requires i < |code| && TooFar(code, i) && wide[i].op == code[i].op
    ensures TooFar(wide, i)
  {
    hide Size;
    hide KindOf;
    var t := code[i].operand.dest;
    if t <= i {
      DistanceGrows(code, wide, t, i + 1);
      OffsetSpan(code, t, i + 1);
      OffsetSpan(wide, t, i + 1);
    } else {
      DistanceGrows(code, wide, i + 1, t);
      OffsetSpan(code, i + 1, t);
      OffsetSpan(wide, i + 1, t);
    }
  }

  lemma {:induction false} PassBelowEverySettled(code: Code, valid: Code)
    requires Closed(code) && Closed(valid) && Widening(code, valid) && Settled(valid)
    ensures Widening(WidenPass(code), valid)
  {
    var pass := WidenPass(code);
    forall i | 0 <= i < |code|
      ensures valid[i].operand == pass[i].operand
      ensures valid[i].op == pass[i].op ||
              (KindOf(pass[i].op).ShortBranch? && valid[i].op == Widen(pass[i].op))
    {
      if TooFar(code, i) && valid[i].op == code[i].op {
        TooFarPersists(code, valid, i);
        assert false;
      }
    }
  }

  /**
   The widening loop reaches the least fixpoint: its result is a widening of the list, and every
   valid layout that never shortens a branch is a widening of that result, hence at least as long.
   */
  lemma {:induction false} SettleIsLeast(code: Code, valid: Code)
    requires Closed(code) && Closed(valid) && Widening(code, valid) && ShortsReach(valid)
    ensures ShortsReach(Settle(code)) && Widening(code, Settle(code)) && Widening(Settle(code), valid)
    ensures CodeSize(Settle(code)) <= CodeSize(valid)
    decreases ShortCount(code)
  {
    SettledIffShortsReach(valid);
    SettledIffShortsReach(Settle(code));
    hide ShortsReach;
    if !Settled(code) {
      var i :| 0 <= i < |code| && TooFar(code, i);
      assert WidenPass(code)[i] != code[i];
      WideningCount(code, WidenPass(code));
      PassBelowEverySettled(code, valid);
      SettleIsLeast(WidenPass(code), valid);
      WideningTransitive(code, WidenPass(code), Settle(code));
    }
    DistanceGrows(Settle(code), valid, 0, |code|);
  }

  /** The result is a widening of the list whether or not another valid layout is at hand. */
  lemma {:induction false} SettleWidens(code: Code)
    requires Closed(code)
    ensures Widening(code, Settle(code))
    decreases ShortCount(code)
  {
    if !Settled(code) {
      var i :| 0 <= i < |code| && TooFar(code, i);
      assert WidenPass(code)[i] != code[i];
      WideningCount(code, WidenPass(code));
      SettleWidens(WidenPass(code));
      WideningTransitive(code, WidenPass(code), Settle(code));
    }
  }
}
