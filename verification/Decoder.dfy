/** Instruction decoding (src/instructions.c): what the machine reads from memory, as
    functions of the memory contents, and the loops that compute it. */
module Decoder {
  import opened Bytes
  import opened OpTable
  import opened Wrappers

  /** An operand whose two descriptor bits are 00 is never assigned: `None`. */
  datatype Decoded = Decoded(opcode: int, operands: seq<Option<int>>, next: int)

  function Cell(mem: seq<byte>, a: int): byte
  {
    if 0 <= a < |mem| then mem[a] else 0
  }

  function ByteSum(mem: seq<byte>, size: nat, start: int): (r: nat)
    ensures r <= 255 * size
  {
    if size == 0 then 0 else ByteSum(mem, size - 1, start) + Cell(mem, start + size - 1)
  }

  function Shift(x: nat, k: nat): nat
  {
    if k == 0 then x else Shift(x, k - 1) / 2
  }

  /** The two descriptor bits of operand `i`. */
  function Field(desc: nat, i: nat): (r: nat)
    requires i < 4
    ensures r < 4
  {
    Shift(desc, 6 - 2 * i) % 4
  }

  lemma TwoShifts(x: nat, k: nat)
    ensures Shift(x, k + 2) == Shift(x, k) / 4
  {
    assert Shift(x, k + 2) == Shift(x, k + 1) / 2 && Shift(x, k + 1) == Shift(x, k) / 2;
  }

  /** The four fields are the digits of the byte in base four, the first operand's first. */
  lemma FieldsAre(desc: byte)
    ensures desc == 64 * Field(desc, 0) + 16 * Field(desc, 1) + 4 * Field(desc, 2) + Field(desc, 3)
  {
    hide Shift;
    NoShift(desc);
    TwoShifts(desc, 0);
    TwoShifts(desc, 2);
    TwoShifts(desc, 4);
  }

  lemma NoShift(x: nat)
    ensures Shift(x, 0) == x
  {
  }

  function OperandAt(mem: seq<byte>, t: int, field: nat): (r: (Option<int>, int))
    ensures t <= r.1 <= t + 4
    ensures r.0.Some? ==> 0 <= r.0.value <= 1020
  {
    if field == 1 then (Some(Cell(mem, t)), t + 1)
    else if field == 2 then
      if Cell(mem, t) == 0 && Cell(mem, t + 1) == 0 then (Some(ByteSum(mem, 4, t)), t + 4)
      else (Some(ByteSum(mem, 2, t)), t + 2)
    else if field == 3 then (Some(ByteSum(mem, 4, t)), t + 4)
    else (None, t)
  }

  /** The first `n` operands after a descriptor byte. */
  function OperandsAt(mem: seq<byte>, t: int, desc: nat, n: nat): (r: (seq<Option<int>>, int))
    requires n <= 4
    ensures |r.0| == n && t <= r.1 <= t + 4 * n
    ensures forall i | 0 <= i < n :: r.0[i].Some? ==> 0 <= r.0[i].value <= 1020
  {
    if n == 0 then ([], t)
    else
      var (ops, u) := OperandsAt(mem, t, desc, n - 1);
      var (o, v) := OperandAt(mem, u, Field(desc, n - 1));
      (ops + [o], v)
  }

  /** How an operand is read wherever its field and the bytes there come from: a field 0 leaves
      it unassigned and takes nothing. */
  lemma OperandsStep(mem: seq<byte>, t: int, desc: byte, n: nat)
    requires n < 3
    ensures var (ops, u) := OperandsAt(mem, t, desc, n);
            var long := Cell(mem, u) as int + Cell(mem, u + 1) as int
                        + Cell(mem, u + 2) as int + Cell(mem, u + 3) as int;
            var (o, v) := (OperandsAt(mem, t, desc, n + 1).0[n], OperandsAt(mem, t, desc, n + 1).1);
            && OperandsAt(mem, t, desc, n + 1).0[..n] == ops
            && (Field(desc, n) == 0 ==> o == None && v == u)
            && (Field(desc, n) == 1 ==> o == Some(Cell(mem, u) as int) && v == u + 1)
            && (Field(desc, n) == 2 && (Cell(mem, u) != 0 || Cell(mem, u + 1) != 0) ==>
                  o == Some(Cell(mem, u) as int + Cell(mem, u + 1) as int) && v == u + 2)
            && (Field(desc, n) == 2 && Cell(mem, u) == Cell(mem, u + 1) == 0 ==> o == Some(long) && v == u + 4)
            && (Field(desc, n) == 3 ==> o == Some(long) && v == u + 4)
  {
    hide Field, Cell;
    var u := OperandsAt(mem, t, desc, n).1;
    assert ByteSum(mem, 2, u) == Cell(mem, u) as int + Cell(mem, u + 1) as int;
    assert ByteSum(mem, 4, u) == ByteSum(mem, 3, u) + Cell(mem, u + 3);
  }

  /** A lone operand is the sum of the bytes at offsets 0, 1, 2 and 4: the cursor is
      advanced between the third and the fourth read, so the fourth byte of the operand is
      skipped and the first byte of whatever follows is added instead. */
  function LoneOperandAt(mem: seq<byte>, t: int): (r: int)
    ensures 0 <= r <= 1020
  {
    Cell(mem, t) as int + Cell(mem, t + 1) as int + Cell(mem, t + 2) as int + Cell(mem, t + 4) as int
  }

  predicate IsOpcode(x: int)
  {
    1 <= x <= 16
  }

  function Decode(mem: seq<byte>, a: int): (d: Decoded)
    requires IsOpcode(Cell(mem, a))
    ensures d.opcode == Cell(mem, a) && |d.operands| == Arity(d.opcode)
    ensures a < d.next <= a + 14
    ensures forall i | 0 <= i < |d.operands| :: d.operands[i].Some? ==> 0 <= d.operands[i].value <= 1020
  {
    var op := Cell(mem, a);
    if Arity(op) > 1 then
      var (ops, u) := OperandsAt(mem, a + 2, Cell(mem, a + 1), Arity(op));
      Decoded(op, ops, u)
    else
      Decoded(op, [Some(LoneOperandAt(mem, a + 1))], a + 5)
  }

  // ---------------------------------------------------------------- the loops

  method HexToBinary(bits: array<int>, hex: byte)
    requires bits.Length >= 8
    modifies bits
    ensures forall k | 0 <= k < 8 :: bits[k] == Shift(hex, 7 - k) % 2
  {
    var i, h: int := 7, hex;
    while i >= 0
      invariant -1 <= i <= 7 && h == Shift(hex, 7 - i)
      invariant forall k | i < k < 8 :: bits[k] == Shift(hex, 7 - k) % 2
    {
      bits[i] := h % 2;
      h := h / 2;
      i := i - 1;
    }
  }

  function TypeOf(field: nat): int
  {
    if field == 1 then T_REG else if field == 2 then T_DIR else if field == 3 then T_IND else 0
  }

  method BuildArgTypes(nbrArgs: nat, bits: array<int>, ghost desc: byte) returns (argTypes: array<int>)
    requires bits.Length >= 8 && nbrArgs <= 4
    requires forall k | 0 <= k < 8 :: bits[k] == Shift(desc, 7 - k) % 2
    ensures fresh(argTypes) && argTypes.Length == nbrArgs
    ensures forall k | 0 <= k < nbrArgs :: argTypes[k] == TypeOf(Field(desc, k))
  {
    argTypes := new int[nbrArgs](_ => 0);
    var i, j := 0, 0;
    while i < 8
      invariant 0 <= j <= nbrArgs && i == 2 * j <= 8
      invariant forall k | 0 <= k < j :: argTypes[k] == TypeOf(Field(desc, k))
      invariant forall k | j <= k < nbrArgs :: argTypes[k] == 0
    {
      if nbrArgs == 0 || j >= nbrArgs { break; }
      var binaryValue := 10 * bits[i] + bits[i + 1];
      assert Shift(desc, 7 - i) == Shift(desc, 6 - i) / 2;
      if binaryValue == 1 {
        argTypes[j] := T_REG;
      } else if binaryValue == 10 {
        argTypes[j] := T_DIR;
      } else if binaryValue == 11 {
        argTypes[j] := T_IND;
      }
      j := j + 1;
      i := i + 2;
    }
  }

  method GetValue(memory: array<byte>, size: nat, start: nat) returns (value: int)
    requires start + size <= memory.Length
    ensures value == ByteSum(memory[..], size, start)
  {
    value := 0;
    for i := 0 to size
      invariant value == ByteSum(memory[..], i, start)
    {
      value := value + memory[start + i] as int;
    }
  }

  ghost predicate Holds(operands: array<int>, spec: seq<Option<int>>)
    reads operands
  {
    operands.Length == |spec| &&
    forall i | 0 <= i < |spec| && spec[i].Some? :: operands[i] == spec[i].value
  }

  lemma {:induction false} OperandsAdvance(mem: seq<byte>, t: int, desc: nat, i: nat, n: nat)
    requires i <= n <= 4
    ensures OperandsAt(mem, t, desc, i).1 <= OperandsAt(mem, t, desc, n).1
    decreases n
  {
    if i < n { OperandsAdvance(mem, t, desc, i, n - 1); }
  }

  /** One operand of that loop; without a type it stays as it is. */
  method ReadOperand(memory: array<byte>, argType: int, start: nat, ghost field: nat, operands: array<int>, i: nat)
    returns (next: nat)
    requires i < operands.Length && field < 4 && argType == TypeOf(field)
    requires OperandAt(memory[..], start, field).1 <= memory.Length
    modifies operands
    ensures forall k | 0 <= k < operands.Length && k != i :: operands[k] == old(operands[k])
    ensures var (o, end) := OperandAt(memory[..], start, field);
            next == end && (o.Some? ==> operands[i] == o.value)
  {
    next := start;
    if argType == T_REG {
      operands[i] := memory[next];
      next := next + 1;
    } else if argType == T_DIR {
      if memory[next] == 0 && memory[next + 1] == 0 {
        operands[i] := GetValue(memory, 4, next);
        next := next + 4;
      } else {
        operands[i] := GetValue(memory, 2, next);
        next := next + 2;
      }
    } else if argType == T_IND {
      operands[i] := GetValue(memory, 4, next);
      next := next + 4;
    }
  }

  /** The operand loop of `build_operands`, once the argument types are known. */
  method ReadOperands(memory: array<byte>, argTypes: array<int>, temp: nat, ghost desc: byte, operands: array<int>)
    returns (next: nat)
    requires argTypes != operands && argTypes.Length == operands.Length <= 3
    requires OperandsAt(memory[..], temp, desc, argTypes.Length).1 <= memory.Length
    requires forall k | 0 <= k < argTypes.Length :: argTypes[k] == TypeOf(Field(desc, k))
    modifies operands
    ensures Holds(operands, OperandsAt(memory[..], temp, desc, argTypes.Length).0)
    ensures next == OperandsAt(memory[..], temp, desc, argTypes.Length).1
  {
    hide OperandAt, Field, TypeOf;
    ghost var mem := memory[..];
    next := temp;
    for i := 0 to argTypes.Length
      invariant next == OperandsAt(mem, temp, desc, i).1
      invariant forall k | 0 <= k < i ::
          var o := OperandsAt(mem, temp, desc, i).0[k]; o.Some? ==> operands[k] == o.value
    {
      OperandsAdvance(mem, temp, desc, i + 1, argTypes.Length);
      next := ReadOperand(memory, argTypes[i], next, Field(desc, i), operands, i);
    }
  }

  /** Every cell that decoding the instruction at `a` reads is in memory. */
  predicate Within(mem: seq<byte>, a: int)
  {
    && 0 <= a < |mem| && IsOpcode(mem[a])
    && if Arity(mem[a]) > 1 then Decode(mem, a).next <= |mem| else a + 5 < |mem|
  }

  /** `build_operands`: with `temp` just past the opcode, the operands of the instruction
      and the address after it. */
  method BuildOperands(op: int, memory: array<byte>, temp: nat) returns (operands: array<int>, next: nat)
    requires IsOpcode(op) && 1 <= temp <= memory.Length && memory[temp - 1] == op
    requires Within(memory[..], temp - 1)
    ensures fresh(operands)
    ensures Holds(operands, Decode(memory[..], temp - 1).operands)
    ensures next == Decode(memory[..], temp - 1).next
  {
    var nbrArgs := Arity(op);
    operands := new int[nbrArgs];
    next := temp;
    if nbrArgs > 1 {
      var bits := new int[16];
      HexToBinary(bits, memory[next]);
      var argTypes := BuildArgTypes(nbrArgs, bits, memory[next]);
      next := ReadOperands(memory, argTypes, next + 1, memory[next], operands);
    } else {
      var value := GetValue(memory, 2, next);
      value := value + memory[next + 2] as int;
      next := next + 1;
      value := value + memory[next + 3] as int;
      next := next + 1;
      operands[0] := value;
      next := next + 2;
    }
  }
}
