/**
 Opcode numbers and the two tables the rewriter indexes with them: the operand kind of each
 opcode (il_rewriter.cpp:25-75) and the number of stack slots it pushes (il_rewriter.cpp:77-106).
 A one-byte opcode is its byte; the opcode written FE xx is 0x100 + xx. OpcodeTable proves both
 tables equal to the columns of lib/coreclr/src/inc/opcode.def.
 */
module Opcodes {

  const NOP := 0x00
  const LDC_I4_0 := 0x16
  const LDC_I4_S := 0x1F
  const LDC_I4 := 0x20
  const LDC_I8 := 0x21
  const DUP := 0x25
  const CALL := 0x28
  const BR_S := 0x2B
  const BLT_UN_S := 0x37
  const BR := 0x38
  const BLT_UN := 0x44
  const SWITCH := 0x45
  const CALLVIRT := 0x6F
  const BOX := 0x8C
  const UNBOX_ANY := 0xA5
  const LEAVE := 0xDD
  const LEAVE_S := 0xDE
  const PREFIX7 := 0xF8
  const PREFIX2 := 0xFD
  const PREFIX1 := 0xFE
  const TAIL := 0x114
  const CONSTRAINED := 0x116
  const COUNT := 0x126
  /** The rewriter's own pseudo-opcode for one entry of a switch table. */
  const SWITCH_ARG := 0x127

  datatype Kind = Plain | Inline(width: nat) | ShortBranch | LongBranch | Switch | SwitchEntry

  predicate IsInline4(op: nat) {
    || op == 0x20 || op == 0x22 || 0x27 <= op <= 0x29
    || 0x6F <= op <= 0x75 || op == 0x79 || 0x7B <= op <= 0x81
    || op == 0x8C || op == 0x8D || op == 0x8F || 0xA3 <= op <= 0xA5
    || op == 0xC2 || op == 0xC6 || op == 0xD0
    || op == 0x106 || op == 0x107 || op == 0x115 || op == 0x116 || op == 0x11C
  }

  function KindOf(op: nat): (k: Kind)
    ensures k.ShortBranch? <==> BR_S <= op <= BLT_UN_S || op == LEAVE_S
    ensures k.SwitchEntry? <==> op == SWITCH_ARG
    ensures k.Switch? <==> op == SWITCH
    ensures k.Inline? ==> k.width in {1, 2, 4, 8}
  {
    if op == SWITCH_ARG then SwitchEntry
    else if op == SWITCH then Switch
    else if BR_S <= op <= BLT_UN_S || op == LEAVE_S then ShortBranch
    else if BR <= op <= BLT_UN || op == LEAVE then LongBranch
    else if 0x0E <= op <= 0x13 || op == 0x1F || op == 0x112 then Inline(1)
    else if 0x109 <= op <= 0x10E then Inline(2)
    else if op == 0x21 || op == 0x23 then Inline(8)
    else if IsInline4(op) then Inline(4)
    else Plain
  }

  predicate IsBranch(op: nat) {
    KindOf(op).ShortBranch? || KindOf(op).LongBranch?
  }

  predicate HasLabel(op: nat) {
    IsBranch(op) || op == SWITCH_ARG
  }

  /** The opcodes that import accepts after reading them back from bytes (il_rewriter.cpp:193-212). */
  predicate Importable(op: nat) {
    op < COUNT && !(PREFIX7 <= op <= PREFIX1)
  }

  /** The bytes that an instruction occupies in the exported body. */
  function Size(op: nat): (n: nat)
    ensures 1 <= n <= 10
  {
    (if op == SWITCH_ARG then 0 else if op >= 0x100 then 2 else 1) +
    match KindOf(op)
    case Plain => 0
    case Inline(w) => w
    case ShortBranch => 1
    case LongBranch => 4
    case Switch => 4
    case SwitchEntry => 4
  }

  /** The long form of a short branch (il_rewriter.cpp:481-488). */
  function Widen(op: nat): (w: nat)
    requires KindOf(op).ShortBranch?
    ensures KindOf(w).LongBranch? && Size(w) == Size(op) + 3
  {
    if op == LEAVE_S then LEAVE else op - BR_S + BR
  }

  /** Widening pairs the two families of branches one to one, in the same order: no condition is exchanged for another. */
  lemma {:induction false} WideningPairsBranches(a: nat, b: nat, long: nat)
    requires KindOf(a).ShortBranch? && KindOf(b).ShortBranch?
    ensures a < b <==> Widen(a) < Widen(b)
    ensures KindOf(long).LongBranch? <==> exists s: nat :: KindOf(s).ShortBranch? && Widen(s) == long
  {
    if KindOf(long).LongBranch? {
      var s: nat := if long == LEAVE then LEAVE_S else long - BR + BR_S;
      assert KindOf(s).ShortBranch? && Widen(s) == long;
    }
  }

  predicate PushesNothing(op: nat) {
    || op == 0x00 || op == 0x01 || 0x0A <= op <= 0x0D || op == 0x10 || op == 0x13 || op == 0x24
    || op == 0x26 || op == 0x27 || 0x2A <= op <= 0x45 || 0x51 <= op <= 0x57 || op == 0x70
    || op == 0x77 || op == 0x78 || op == 0x7A || op == 0x7D || op == 0x80 || op == 0x81
    || 0x9B <= op <= 0xA2 || op == 0xA4 || 0xA6 <= op <= 0xB2 || 0xBB <= op <= 0xC1
    || op == 0xC4 || op == 0xC5 || 0xC7 <= op <= 0xCF || 0xDC <= op <= 0xDF || 0xE1 <= op <= 0xFF
    || op == 0x108 || op == 0x10B || op == 0x10E || 0x110 <= op <= 0x11B || 0x11E <= op
  }

  /** The entry of the push table that AdjustState adds to the maximum stack depth. */
  function Pushes(op: nat): (n: nat) {
    if PushesNothing(op) then 0 else if op == DUP then 2 else 1
  }
}
