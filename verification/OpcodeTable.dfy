/**
 The two opcode tables against the columns that the preprocessor expands them from
 (lib/coreclr/src/inc/opcode.def:38-335), sixteen opcodes to a row. Opcode n is entry n of the list:
 byte n, or FE and n - 0x100.
 */
module OpcodeTable {
  import opened Opcodes

  /**
   The operand column: '.' for InlineNone; '1', '2', '4' and '8' for an operand of that many bytes;
   's' and 'b' for a branch target in one and in four bytes; 't' for a switch table.
   */
  function OperandRow(r: nat): (row: string)
    requires r < 0x13
    ensures |row| == if r == 0x12 then 6 else 16
  {
    match r
    case 0x00 => "..............11"
    case 0x01 => "1111...........1"
    case 0x02 => "4848...444.sssss"
    case 0x03 => "ssssssssbbbbbbbb"
    case 0x04 => "bbbbbt.........."
    case 0x05 => "................"
    case 0x06 => "...............4"
    case 0x07 => "444444...4.44444"
    case 0x08 => "44..........44.4"
    case 0x09 => "................"
    case 0x0A => "...444.........."
    case 0x0B => "................"
    case 0x0C => "..4...4........."
    case 0x0D => "4............bs."
    case 0x0E => "................"
    case 0x0F => "................"
    case 0x10 => "......44.222222."
    case 0x11 => "..1..44.....4..."
    case 0x12 => "......"
  }

  /** The push column: how many values an instruction leaves on the stack; VarPush counts as one. */
  function PushRow(r: nat): (row: string)
    requires r < 0x13
    ensures |row| == if r == 0x12 then 6 else 16
  {
    match r
    case 0x00 => "0011111111000011"
    case 0x01 => "0110111111111111"
    case 0x02 => "1111020011000000"
    case 0x03 => "0000000000000000"
    case 0x04 => "0000001111111111"
    case 0x05 => "1000000011111111"
    case 0x06 => "1111111111111111"
    case 0x07 => "0111111001011011"
    case 0x08 => "0011111111111111"
    case 0x09 => "1111111111100000"
    case 0x0A => "0001010000000000"
    case 0x0B => "0001111111100000"
    case 0x0C => "0011001000000000"
    case 0x0D => "1111111111110000"
    case 0x0E => "1000000000000000"
    case 0x0F => "0000000000000000"
    case 0x10 => "1111111101101101"
    case 0x11 => "0000000000001100"
    case 0x12 => "000000"
  }

  /** The operand kind that a letter of the column stands for. */
  function KindNamed(c: char): Kind {
    match c
    case '1' => Inline(1)
    case '2' => Inline(2)
    case '4' => Inline(4)
    case '8' => Inline(8)
    case 's' => ShortBranch
    case 'b' => LongBranch
    case 't' => Switch
    case _ => Plain
  }

  // ---------- Row by row ----------

  lemma KindRows00(op: nat, r: nat)
    requires 0x00 <= r < 0x02 && 16 * r <= op < 16 * r + |OperandRow(r)|
    ensures KindOf(op) == KindNamed(OperandRow(r)[op - 16 * r])
  {
  }

  lemma KindRows02(op: nat, r: nat)
    requires 0x02 <= r < 0x04 && 16 * r <= op < 16 * r + |OperandRow(r)|
    ensures KindOf(op) == KindNamed(OperandRow(r)[op - 16 * r])
  {
  }

  lemma KindRows04(op: nat, r: nat)
    requires 0x04 <= r < 0x06 && 16 * r <= op < 16 * r + |OperandRow(r)|
    ensures KindOf(op) == KindNamed(OperandRow(r)[op - 16 * r])
  {
  }

  lemma KindRows06(op: nat, r: nat)
    requires 0x06 <= r < 0x08 && 16 * r <= op < 16 * r + |OperandRow(r)|
    ensures KindOf(op) == KindNamed(OperandRow(r)[op - 16 * r])
  {
  }

  lemma KindRows08(op: nat, r: nat)
    requires 0x08 <= r < 0x0A && 16 * r <= op < 16 * r + |OperandRow(r)|
    ensures KindOf(op) == KindNamed(OperandRow(r)[op - 16 * r])
  {
  }

  lemma KindRows0A(op: nat, r: nat)
    requires 0x0A <= r < 0x0B && 16 * r <= op < 16 * r + |OperandRow(r)|
    ensures KindOf(op) == KindNamed(OperandRow(r)[op - 16 * r])
  {
  }

  lemma KindRows0B(op: nat, r: nat)
    requires 0x0B <= r < 0x0C && 16 * r <= op < 16 * r + |OperandRow(r)|
    ensures KindOf(op) == KindNamed(OperandRow(r)[op - 16 * r])
  {
  }

  lemma KindRows0C(op: nat, r: nat)
    requires 0x0C <= r < 0x0D && 16 * r <= op < 16 * r + |OperandRow(r)|
    ensures KindOf(op) == KindNamed(OperandRow(r)[op - 16 * r])
  {
  }

  lemma KindRows0D(op: nat, r: nat)
    requires 0x0D <= r < 0x0E && 16 * r <= op < 16 * r + |OperandRow(r)|
    ensures KindOf(op) == KindNamed(OperandRow(r)[op - 16 * r])
  {
  }

  lemma KindRows0E(op: nat, r: nat)
    requires 0x0E <= r < 0x10 && 16 * r <= op < 16 * r + |OperandRow(r)|
    ensures KindOf(op) == KindNamed(OperandRow(r)[op - 16 * r])
  {
  }

  lemma KindRows10(op: nat, r: nat)
    requires 0x10 <= r < 0x11 && 16 * r <= op < 16 * r + |OperandRow(r)|
    ensures KindOf(op) == KindNamed(OperandRow(r)[op - 16 * r])
  {
  }

  lemma KindRows11(op: nat, r: nat)
    requires 0x11 <= r < 0x13 && 16 * r <= op < 16 * r + |OperandRow(r)|
    ensures KindOf(op) == KindNamed(OperandRow(r)[op - 16 * r])
  {
  }

  lemma PushRows00(op: nat, r: nat)
    requires 0x00 <= r < 0x03 && 16 * r <= op < 16 * r + |PushRow(r)|
    ensures Pushes(op) == PushRow(r)[op - 16 * r] as int - '0' as int
  {
  }

  lemma PushRows03(op: nat, r: nat)
    requires 0x03 <= r < 0x06 && 16 * r <= op < 16 * r + |PushRow(r)|
    ensures Pushes(op) == PushRow(r)[op - 16 * r] as int - '0' as int
  {
  }

  lemma PushRows06(op: nat, r: nat)
    requires 0x06 <= r < 0x09 && 16 * r <= op < 16 * r + |PushRow(r)|
    ensures Pushes(op) == PushRow(r)[op - 16 * r] as int - '0' as int
  {
  }

  lemma PushRows09(op: nat, r: nat)
    requires 0x09 <= r < 0x0C && 16 * r <= op < 16 * r + |PushRow(r)|
    ensures Pushes(op) == PushRow(r)[op - 16 * r] as int - '0' as int
  {
  }

  lemma PushRows0C(op: nat, r: nat)
    requires 0x0C <= r < 0x0F && 16 * r <= op < 16 * r + |PushRow(r)|
    ensures Pushes(op) == PushRow(r)[op - 16 * r] as int - '0' as int
  {
  }

  lemma PushRows0F(op: nat, r: nat)
    requires 0x0F <= r < 0x13 && 16 * r <= op < 16 * r + |PushRow(r)|
    ensures Pushes(op) == PushRow(r)[op - 16 * r] as int - '0' as int
  {
  }

  /** Both tables are the columns of the list, opcode by opcode, and end with the rewriter's own two entries. */
  lemma {:induction false} TablesAreColumns(op: nat)
    requires op < 0x126
    ensures KindOf(op) == KindNamed(OperandRow(op / 16)[op % 16])
    ensures Pushes(op) == PushRow(op / 16)[op % 16] as int - '0' as int
    ensures KindOf(0x126) == Plain && KindOf(0x127) == SwitchEntry && Pushes(0x126) == 0 && Pushes(0x127) == 0
  {
    assert KindOf(0x126) == Plain && KindOf(0x127) == SwitchEntry && Pushes(0x126) == 0 && Pushes(0x127) == 0;
    hide *;
    var r := op / 16;
    assert op % 16 == op - 16 * r;
    if r < 0x02 {
      KindRows00(op, r);
    } else if r < 0x04 {
      KindRows02(op, r);
    } else if r < 0x06 {
      KindRows04(op, r);
    } else if r < 0x08 {
      KindRows06(op, r);
    } else if r < 0x0A {
      KindRows08(op, r);
    } else if r < 0x0B {
      KindRows0A(op, r);
    } else if r < 0x0C {
      KindRows0B(op, r);
    } else if r < 0x0D {
      KindRows0C(op, r);
    } else if r < 0x0E {
      KindRows0D(op, r);
    } else if r < 0x10 {
      KindRows0E(op, r);
    } else if r < 0x11 {
      KindRows10(op, r);
    } else {
      KindRows11(op, r);
    }
    if r < 0x03 {
      PushRows00(op, r);
    } else if r < 0x06 {
      PushRows03(op, r);
    } else if r < 0x09 {
      PushRows06(op, r);
    } else if r < 0x0C {
      PushRows09(op, r);
    } else if r < 0x0F {
      PushRows0C(op, r);
    } else {
      PushRows0F(op, r);
    }
  }
}
