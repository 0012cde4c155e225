/** The constants of the machine and its two copies of the operation table. */
module OpTable {

  const MEM_SIZE: int := 6144
  const IDX_MOD: int := 512
  const MAX_CHAMPIONS: int := 4
  const CYCLE_TO_DIE: int := 1536
  const CYCLE_DELTA: int := 5
  const NBR_LIVE: int := 40

  const OP_LIVE: int := 1
  const OP_ZJMP: int := 9
  const OP_FORK: int := 12
  const OP_LFORK: int := 15

  // Operand types, as bits of a mask.
  const T_REG: int := 1
  const T_DIR: int := 2
  const T_IND: int := 4

  datatype Operation = Operation(mnemonic: string, nbrArgs: nat, types: seq<int>, code: nat, nbrCycles: nat)

  /** The virtual machine's table; row `i` describes opcode `i + 1`. */
  function VmOp(i: nat): Operation
    requires i < 16
  {
    match i
    case 0 => Operation("live", 1, [T_IND], 1, 10)
    case 1 => Operation("ld", 2, [T_DIR + T_IND, T_REG], 2, 5)
    case 2 => Operation("st", 2, [T_REG, T_IND + T_REG], 3, 5)
    case 3 => Operation("add", 3, [T_REG, T_REG, T_REG], 4, 10)
    case 4 => Operation("sub", 3, [T_REG, T_REG, T_REG], 5, 10)
    case 5 => Operation("and", 3, [T_REG + T_DIR + T_IND, T_REG + T_IND + T_DIR, T_REG], 6, 6)
    case 6 => Operation("or", 3, [T_REG + T_IND + T_DIR, T_REG + T_IND + T_DIR, T_REG], 7, 6)
    case 7 => Operation("xor", 3, [T_REG + T_IND + T_DIR, T_REG + T_IND + T_DIR, T_REG], 8, 6)
    case 8 => Operation("zjmp", 1, [T_DIR], 9, 20)
    case 9 => Operation("ldi", 3, [T_REG + T_DIR + T_IND, T_DIR + T_REG, T_REG], 10, 25)
    case 10 => Operation("sti", 3, [T_REG, T_REG + T_DIR + T_IND, T_DIR + T_REG], 11, 25)
    case 11 => Operation("fork", 1, [T_IND], 12, 800)
    case 12 => Operation("lld", 2, [T_DIR + T_IND, T_REG], 13, 10)
    case 13 => Operation("lldi", 3, [T_REG + T_DIR + T_IND, T_DIR + T_REG, T_REG], 14, 50)
    case 14 => Operation("lfork", 1, [T_IND], 15, 1000)
    case _ => Operation("aff", 1, [T_REG], 16, 2)
  }

  datatype AsmOperation = AsmOperation(mnemonic: string, nbrArgs: nat, types: seq<int>, code: nat)

  /** The assembler's table. */
  function AsmOp(i: nat): AsmOperation
    requires i < 16
  {
    match i
    case 0 => AsmOperation("live", 1, [T_DIR], 1)
    case 1 => AsmOperation("ld", 2, [T_DIR + T_IND, T_REG], 2)
    case 2 => AsmOperation("st", 2, [T_REG, T_IND + T_REG], 3)
    case 3 => AsmOperation("add", 3, [T_REG, T_REG, T_REG], 4)
    case 4 => AsmOperation("sub", 3, [T_REG, T_REG, T_REG], 5)
    case 5 => AsmOperation("and", 3, [T_REG + T_DIR + T_IND, T_REG + T_IND + T_DIR, T_REG], 6)
    case 6 => AsmOperation("or", 3, [T_REG + T_IND + T_DIR, T_REG + T_IND + T_DIR, T_REG], 7)
    case 7 => AsmOperation("xor", 3, [T_REG + T_IND + T_DIR, T_REG + T_IND + T_DIR, T_REG], 8)
    case 8 => AsmOperation("zjmp", 1, [T_DIR], 9)
    case 9 => AsmOperation("ldi", 3, [T_REG + T_DIR + T_IND, T_DIR + T_REG, T_REG], 10)
    case 10 => AsmOperation("sti", 3, [T_REG, T_REG + T_DIR + T_IND, T_DIR + T_REG], 11)
    case 11 => AsmOperation("fork", 1, [T_DIR], 12)
    case 12 => AsmOperation("lld", 2, [T_DIR + T_IND, T_REG], 13)
    case 13 => AsmOperation("lldi", 3, [T_REG + T_DIR + T_IND, T_DIR + T_REG, T_REG], 14)
    case 14 => AsmOperation("lfork", 1, [T_DIR], 15)
    case _ => AsmOperation("aff", 1, [T_REG], 16)
  }

  predicate IsMnemonic(s: string)
  {
    exists i: nat | i < 16 :: AsmOp(i).mnemonic == s
  }

  /** Arity and cost of an opcode byte 1..16. */
  function Arity(op: int): nat
    requires 1 <= op <= 16
  {
    VmOp(op - 1).nbrArgs
  }

  function Cost(op: int): nat
    requires 1 <= op <= 16
  {
    VmOp(op - 1).nbrCycles
  }

  lemma ArityAndCostBounds(op: int)
    requires 1 <= op <= 16
    ensures 1 <= Arity(op) <= 3 && 2 <= Cost(op) <= 1000
    ensures op in {OP_LIVE, OP_ZJMP, OP_FORK, OP_LFORK, 16} <==> Arity(op) == 1
  {
  }

  /** Row i of one table describes the same instruction as row i of the other, opcode
      i + 1, and no mnemonic occurs twice. The tables disagree on the type of the operand of
      `live`, `fork` and `lfork`, and on nothing else; neither program looks at it. */
  lemma TablesAgree(i: nat, j: nat)
    requires i < 16 && j < 16
    ensures AsmOp(i).mnemonic == VmOp(i).mnemonic
    ensures AsmOp(i).nbrArgs == VmOp(i).nbrArgs == Arity(AsmOp(i).code) == |AsmOp(i).types| == |VmOp(i).types|
    ensures AsmOp(i).code == VmOp(i).code == i + 1
    ensures AsmOp(i).types == VmOp(i).types <==> i + 1 !in {OP_LIVE, OP_FORK, OP_LFORK}
    ensures AsmOp(i).mnemonic == AsmOp(j).mnemonic ==> i == j
  {
  }

  /** The costs of the sixteen instructions, and which of them the machine treats specially. */
  lemma CostsAre()
    ensures Cost(1) == 10 && Cost(2) == 5 && Cost(3) == 5 && Cost(4) == 10 && Cost(5) == 10 && Cost(6) == 6
    ensures Cost(7) == 6 && Cost(8) == 6 && Cost(9) == 20 && Cost(10) == 25 && Cost(11) == 25 && Cost(12) == 800
    ensures Cost(13) == 10 && Cost(14) == 50 && Cost(15) == 1000 && Cost(16) == 2
    ensures VmOp(OP_LIVE - 1).mnemonic == "live" && VmOp(OP_ZJMP - 1).mnemonic == "zjmp"
    ensures VmOp(OP_FORK - 1).mnemonic == "fork" && VmOp(OP_LFORK - 1).mnemonic == "lfork"
  {
  }

  /** `mnemonic_to_op_type`: the scan stops at the one row that carries the mnemonic. */
  method MnemonicToOpType(mnemonic: string) returns (row: nat)
    requires IsMnemonic(mnemonic)
    ensures row < 16 && AsmOp(row).mnemonic == mnemonic
  {
    row := 0;
    while AsmOp(row).mnemonic != mnemonic
      invariant row < 16
      invariant forall i: nat | i < row :: AsmOp(i).mnemonic != mnemonic
      decreases 16 - row
    {
      row := row + 1;
    }
  }
}
