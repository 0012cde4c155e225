/** What the machine decodes from what the assembler wrote. */
module RoundTrip {
  import opened Bytes
  import opened OpTable
  import opened Wrappers
  import opened Text
  import opened Encoder
  import opened Decoder

  ghost predicate Stored(mem: seq<byte>, at: int, b: seq<byte>)
  {
    forall k | 0 <= k < |b| :: Cell(mem, at + k) == b[k]
  }

  lemma StoredParts(mem: seq<byte>, at: int, a: seq<byte>, b: seq<byte>)
    ensures Stored(mem, at, a + b) <==> Stored(mem, at, a) && Stored(mem, at + |a|, b)
  {
    if Stored(mem, at, a + b) {
      assert forall k | 0 <= k < |a| :: (a + b)[k] == a[k];
      forall k | 0 <= k < |b| ensures Cell(mem, at + |a| + k) == b[k] { assert (a + b)[|a| + k] == b[k]; }
    }
  }

  // ---------------------------------------------------------------- one argument

  /** The integer an argument stands for in the output. */
  function Written(table: Table, arg: string, address: int): int
  {
    if At(arg, 0) == 'r' then Atoi(Drop(arg, 1)) % 256
    else if IsLabel(arg) then Symbols.Lookup(table, Drop(arg, 2)) - address
    else Atoi(Drop(arg, 1))
  }

  /** A direct operand of two bytes must not be zero in its low half, one of four bytes must
      be zero in its high half: the decoder tells them apart by two zero bytes. */
  predicate FramedArg(table: Table, arg: string, address: int)
  {
    ParamCode(arg) == 2 ==>
      if ArgWidth(arg) == 2 then Written(table, arg, address) % HALF != 0
      else Written(table, arg, address) % WORD < HALF
  }

  lemma ArgLayout(table: Table, arg: string, address: int)
    ensures var b, v := ArgBytes(table, arg, address), Written(table, arg, address);
            && |b| == ArgWidth(arg)
            && b == (if ArgWidth(arg) == 1 then [v] else if ArgWidth(arg) == 2 then TwoBytes(v) else BigEndian(v))
    ensures ParamCode(arg) == 1 <==> ArgWidth(arg) == 1
    ensures ParamCode(arg) == 3 ==> ArgWidth(arg) == 4
  {
  }

  lemma SumOfStored(mem: seq<byte>, at: int, b: seq<byte>)
    requires Stored(mem, at, b) && (|b| == 2 || |b| == 4)
    ensures ByteSum(mem, |b|, at) == Sum(b)
  {
    if |b| == 2 {
      Sum2(b);
      assert Cell(mem, at + 0) == b[0] && Cell(mem, at + 1) == b[1];
      assert ByteSum(mem, 1, at) == b[0];
    } else {
      Sum4(b);
      assert Cell(mem, at + 0) == b[0] && Cell(mem, at + 1) == b[1];
      assert Cell(mem, at + 2) == b[2] && Cell(mem, at + 3) == b[3];
      assert ByteSum(mem, 1, at) == b[0];
      assert ByteSum(mem, 3, at) == ByteSum(mem, 2, at) + Cell(mem, at + 2);
    }
  }

  /** The decoder finds the end of an argument exactly when it is framed, and then reads the
      sum of its bytes. */
  lemma ArgRoundTrip(mem: seq<byte>, t: int, table: Table, arg: string, address: int)
    requires Stored(mem, t, ArgBytes(table, arg, address))
    ensures var b := ArgBytes(table, arg, address);
            && (OperandAt(mem, t, ParamCode(arg)).1 == t + |b| <==> FramedArg(table, arg, address))
            && (FramedArg(table, arg, address) ==> OperandAt(mem, t, ParamCode(arg)).0 == Some(Sum(b)))
  {
    hide ArgBytes, ByteSum, BigEndian, TwoBytes, Written, ParamCode, ArgWidth;
    var b, v := ArgBytes(table, arg, address), Written(table, arg, address);
    ArgLayout(table, arg, address);
    assert Cell(mem, t + 0) == b[0];
    if |b| == 1 {
      assert Sum(b) == b[0];
    } else {
      assert Cell(mem, t + 1) == b[1];
      SumOfStored(mem, t, b);
      TwoBytesSum(v);
      HighHalfZero(v);
      assert |b| == 2 ==> b == [b[0], b[1]];
    }
  }

  /** An operand comes back unchanged exactly when it is a byte. */
  lemma ArgExact(table: Table, arg: string, address: int)
    ensures var b, v := ArgBytes(table, arg, address), Written(table, arg, address);
            && Sum(b) <= 1020
            && (Sum(b) == v <==> 0 <= v < 256)
            && (Sum(b) % 255 == (if |b| == 1 then v else if |b| == 2 then v % HALF else v % WORD) % 255)
  {
    hide ArgBytes, BigEndian, TwoBytes, Written, ParamCode, ArgWidth;
    var b, v := ArgBytes(table, arg, address), Written(table, arg, address);
    ArgLayout(table, arg, address);
    if |b| == 1 {
      assert Sum(b) == b[0];
    } else {
      TwoBytesSum(v);
      BigEndianSum(v);
    }
  }

  // ---------------------------------------------------------------- argument lists

  lemma BaseFour(d: byte, c0: nat, c1: nat, c2: nat)
    requires d == 64 * c0 + 16 * c1 + 4 * c2 && c0 < 4 && c1 < 4 && c2 < 4
    ensures Field(d, 0) == c0 && Field(d, 1) == c1 && Field(d, 2) == c2 && Field(d, 3) == 0
  {
    hide Field;
    FieldsAre(d);
  }

  /** The fields of the descriptor are the codes of the arguments, and zero behind them. */
  lemma DescriptorFields(args: seq<string>, i: nat)
    requires |args| <= 3 && i < 4
    ensures Field(Descriptor(args, |args|), i) == if i < |args| then ParamCode(args[i]) else 0
  {
    hide ParamCode, Field;
    BaseFour(Descriptor(args, |args|), if |args| > 0 then ParamCode(args[0]) else 0,
             if |args| > 1 then ParamCode(args[1]) else 0, if |args| > 2 then ParamCode(args[2]) else 0);
  }

  ghost predicate FramedArgs(table: Table, args: seq<string>, address: int)
  {
    FramedFirst(table, args, |args|, address)
  }

  ghost predicate FramedFirst(table: Table, args: seq<string>, n: nat, address: int)
    requires n <= |args|
  {
    forall i | 0 <= i < n :: FramedArg(table, args[i], address + |ArgsBytes(table, args, i, address)|)
  }

  /** The byte sums of the first `n` arguments. */
  function ArgSums(table: Table, args: seq<string>, n: nat, address: int): (r: seq<Option<int>>)
    requires n <= |args|
    ensures |r| == n
  {
    if n == 0 then []
    else ArgSums(table, args, n - 1, address) +
         [Some(Sum(ArgBytes(table, args[n - 1], address + |ArgsBytes(table, args, n - 1, address)|)))]
  }

  lemma {:induction false} ArgsRoundTrip(mem: seq<byte>, t: int, table: Table, args: seq<string>, n: nat, address: int)
    requires n <= |args| <= 3 && FramedArgs(table, args, address)
    requires Stored(mem, t, ArgsBytes(table, args, n, address))
    ensures OperandsAt(mem, t, Descriptor(args, |args|), n) ==
            (ArgSums(table, args, n, address), t + |ArgsBytes(table, args, n, address)|)
  {
    hide ArgBytes, OperandAt, Descriptor, Field, ParamCode, FramedArg, Stored;
    if n > 0 {
      var front := ArgsBytes(table, args, n - 1, address);
      var last := ArgBytes(table, args[n - 1], address + |front|);
      StoredParts(mem, t, front, last);
      ArgsRoundTrip(mem, t, table, args, n - 1, address);
      DescriptorFields(args, n - 1);
      ArgRoundTrip(mem, t + |front|, table, args[n - 1], address + |front|);
    }
  }

  // ---------------------------------------------------------------- instructions

  /** An instruction whose end the decoder finds: as many arguments as the table says, all
      framed; a lone argument always occupies four bytes. */
  ghost predicate WellFramed(table: Table, line: Line, address: int)
  {
    && ValidLine(line)
    && |line.arguments| == Arity(Code(line.opcode))
    && if |line.arguments| == 1 then LoneWidth(line.arguments[0]) == 4
       else FramedArgs(table, line.arguments, PastOpcode(address) + 1)
  }

  lemma CodeIsOpcode(opcode: string)
    requires IsMnemonic(opcode)
    ensures IsOpcode(Code(opcode))
  {
  }

  /** The operands the machine sees, when the byte after the instruction is `follow`. */
  function SeenOperands(table: Table, line: Line, address: int, follow: byte): seq<Option<int>>
    requires ValidLine(line)
  {
    var args := line.arguments;
    if |args| == 1 then
      var b := LoneBytes(table, args[0], PastOpcode(address));
      if |b| == 4 then [Some(b[0] as int + b[1] as int + b[2] as int + follow as int)] else []
    else ArgSums(table, args, |args|, PastOpcode(address) + 1)
  }

  lemma LoneRoundTrip(mem: seq<byte>, a: int, table: Table, line: Line, address: int)
    requires WellFramed(table, line, address) && |line.arguments| == 1
    requires Stored(mem, a, LineBytes(table, line, address))
    ensures IsOpcode(Cell(mem, a))
    ensures var n := |LineBytes(table, line, address)|;
            Decode(mem, a) ==
              Decoded(Code(line.opcode), SeenOperands(table, line, address, Cell(mem, a + n)), a + n)
  {
    hide LoneBytes, Code;
    CodeIsOpcode(line.opcode);
    var b := LoneBytes(table, line.arguments[0], PastOpcode(address));
    Widths(table, line.arguments[0], PastOpcode(address));
    var code := [Code(line.opcode)];
    assert LineBytes(table, line, address) == code + b;
    StoredParts(mem, a, code, b);
    assert Cell(mem, a + 0) == code[0];
    assert Cell(mem, a + 1 + 0) == b[0] && Cell(mem, a + 1 + 1) == b[1] && Cell(mem, a + 1 + 2) == b[2];
  }

  lemma LineRoundTrip(mem: seq<byte>, a: int, table: Table, line: Line, address: int)
    requires WellFramed(table, line, address)
    requires Stored(mem, a, LineBytes(table, line, address))
    ensures IsOpcode(Cell(mem, a))
    ensures var n := |LineBytes(table, line, address)|;
            Decode(mem, a) ==
              Decoded(Code(line.opcode), SeenOperands(table, line, address, Cell(mem, a + n)), a + n)
  {
    hide Code, LoneBytes, ArgsBytes, Descriptor, OperandsAt, LoneOperandAt, FramedArgs, ArgSums, Stored;
    CodeIsOpcode(line.opcode);
    ArityAndCostBounds(Code(line.opcode));
    var args := line.arguments;
    if |args| == 1 {
      LoneRoundTrip(mem, a, table, line, address);
    } else {
      var head := [Code(line.opcode)] + [Descriptor(args, |args|) as byte];
      var tail := ArgsBytes(table, args, |args|, PastOpcode(address) + 1);
      assert LineBytes(table, line, address) == head + tail;
      StoredParts(mem, a, head, tail);
      StoredPair(mem, a, head);
      ArgsRoundTrip(mem, a + 2, table, args, |args|, PastOpcode(address) + 1);
    }
  }

  lemma StoredPair(mem: seq<byte>, a: int, b: seq<byte>)
    requires Stored(mem, a, b) && |b| == 2
    ensures Cell(mem, a) == b[0] && Cell(mem, a + 1) == b[1]
  {
    assert Cell(mem, a + 0) == b[0];
  }

  /** A lone operand is always decoded as four bytes: the decoder finds the end of such an
      instruction if and only if it is well framed, and otherwise reads two cells too far. */
  lemma LoneBoundary(mem: seq<byte>, a: int, table: Table, line: Line, address: int)
    requires ValidLine(line) && |line.arguments| == 1 == Arity(Code(line.opcode))
    requires Stored(mem, a, LineBytes(table, line, address))
    ensures IsOpcode(Cell(mem, a))
    ensures var n, next := |LineBytes(table, line, address)|, Decode(mem, a).next;
            && (next == a + n <==> WellFramed(table, line, address))
            && (!WellFramed(table, line, address) ==> n == 3 && next == a + n + 2)
  {
    hide LoneBytes, Code, OperandsAt, LoneOperandAt;
    CodeIsOpcode(line.opcode);
    Widths(table, line.arguments[0], PastOpcode(address));
    StoredFirst(mem, a, LineBytes(table, line, address));
  }

  /** The decoder arrives where each of the first `n` operands, and what follows them, begins. */
  ghost predicate Recovered(mem: seq<byte>, t: int, desc: nat, table: Table, args: seq<string>, n: nat, address: int)
    requires n <= |args| <= 3
  {
    forall i | 0 <= i <= n :: OperandsAt(mem, t, desc, i).1 == t + |ArgsBytes(table, args, i, address)|
  }

  lemma RecoveredStep(mem: seq<byte>, t: int, desc: nat, table: Table, args: seq<string>, n: nat, address: int)
    requires 0 < n <= |args| <= 3
    ensures Recovered(mem, t, desc, table, args, n, address) <==>
            && Recovered(mem, t, desc, table, args, n - 1, address)
            && OperandsAt(mem, t, desc, n).1 == t + |ArgsBytes(table, args, n, address)|
    ensures FramedFirst(table, args, n, address) <==>
            && FramedFirst(table, args, n - 1, address)
            && FramedArg(table, args[n - 1], address + |ArgsBytes(table, args, n - 1, address)|)
    ensures Recovered(mem, t, desc, table, args, n - 1, address) ==>
              OperandsAt(mem, t, desc, n - 1).1 == t + |ArgsBytes(table, args, n - 1, address)|
  {
    hide OperandsAt, ArgsBytes, FramedArg;
  }

  /** Of several operands, the decoder finds every boundary up to the `n`-th if and only if
      all operands before it are framed. */
  lemma {:induction false} OperandBoundaries(mem: seq<byte>, t: int, table: Table, args: seq<string>, n: nat,
                                             address: int)
    requires n <= |args| <= 3 && Stored(mem, t, ArgsBytes(table, args, n, address))
    ensures Recovered(mem, t, Descriptor(args, |args|), table, args, n, address) <==>
            FramedFirst(table, args, n, address)
    decreases n
  {
    hide ArgBytes, OperandAt, Descriptor, Field, ParamCode, FramedArg, Stored, Recovered, FramedFirst;
    if n == 0 {
      NothingToRecover(mem, t, Descriptor(args, |args|), table, args, address);
    } else {
      var front := ArgsBytes(table, args, n - 1, address);
      var last := ArgBytes(table, args[n - 1], address + |front|);
      StoredParts(mem, t, front, last);
      OperandBoundaries(mem, t, table, args, n - 1, address);
      DescriptorFields(args, n - 1);
      ArgRoundTrip(mem, t + |front|, table, args[n - 1], address + |front|);
      RecoveredStep(mem, t, Descriptor(args, |args|), table, args, n, address);
    }
  }

  lemma NothingToRecover(mem: seq<byte>, t: int, desc: nat, table: Table, args: seq<string>, address: int)
    requires |args| <= 3
    ensures Recovered(mem, t, desc, table, args, 0, address) && FramedFirst(table, args, 0, address)
  {
  }

  /** So an instruction with several operands has all its boundaries recovered if and only if
      it is well framed. */
  lemma LineBoundaries(mem: seq<byte>, a: int, table: Table, line: Line, address: int)
    requires ValidLine(line) && |line.arguments| == Arity(Code(line.opcode)) > 1
    requires Stored(mem, a, LineBytes(table, line, address))
    ensures var args := line.arguments;
            WellFramed(table, line, address) <==>
              Recovered(mem, a + 2, Cell(mem, a + 1), table, args, |args|, PastOpcode(address) + 1)
  {
    hide Code, LoneBytes, ArgsBytes, Descriptor, FramedArg, Stored, Recovered;
    var args := line.arguments;
    var head := [Code(line.opcode)] + [Descriptor(args, |args|) as byte];
    var tail := ArgsBytes(table, args, |args|, PastOpcode(address) + 1);
    assert LineBytes(table, line, address) == head + tail;
    StoredParts(mem, a, head, tail);
    StoredPair(mem, a, head);
    OperandBoundaries(mem, a + 2, table, args, |args|, PastOpcode(address) + 1);
  }

  /** So a lone digit-free label, as in `zjmp %:live`, is written in three bytes and decoded
      as five. */
  lemma LoneLabelRunsOn(mem: seq<byte>, a: int, table: Table, line: Line, address: int)
    requires ValidLine(line) && |line.arguments| == 1 == Arity(Code(line.opcode))
    requires IsLabel(line.arguments[0]) && At(line.arguments[0], 1) == ':'
    requires Stored(mem, a, LineBytes(table, line, address))
    ensures |LineBytes(table, line, address)| == 3 && !WellFramed(table, line, address)
    ensures IsOpcode(Cell(mem, a)) && Decode(mem, a).next == a + 5
  {
    hide Code, Decode, Stored;
    LoneBoundary(mem, a, table, line, address);
  }

  /** The value of a lone argument that occupies four bytes. */
  function LoneValue(arg: string): int
  {
    Atoi(Drop(arg, 1))
  }

  /** A lone argument of four bytes is a word, also when it is a label with a digit. */
  lemma LoneIsWord(table: Table, line: Line, address: int)
    requires WellFramed(table, line, address) && |line.arguments| == 1
    ensures LoneBytes(table, line.arguments[0], PastOpcode(address)) == BigEndian(LoneValue(line.arguments[0]))
  {
  }

  /** The lone operand of `live`, `zjmp`, `fork`, `lfork` and `aff` loses its low byte and
      picks up the byte after the instruction instead: it comes back unchanged exactly when
      it happens to equal that byte, or is 256 before a byte 255. */
  lemma LoneOperandExact(table: Table, line: Line, address: int, follow: byte)
    requires WellFramed(table, line, address) && |line.arguments| == 1
    ensures var v := LoneValue(line.arguments[0]);
            && (0 <= v < 256 ==> SeenOperands(table, line, address, follow) == [Some(follow as int)])
            && (SeenOperands(table, line, address, follow) == [Some(v)] <==>
                  v == follow || (v == 256 && follow == 255))
  {
    hide WellFramed, Atoi;
    var v := LoneValue(line.arguments[0]);
    LoneSum(v, follow);
    LoneIsWord(table, line, address);
  }

  lemma OneAndFive()
    ensures Drop("%1", 1) == "1" && Drop("%5", 1) == "5" && Atoi("1") == 1 && Atoi("5") == 5
    ensures LoneWidth("%1") == LoneWidth("%5") == 4
  {
    assert Text.Digits("1", 0) == 1 && Text.Digits("5", 0) == 5;
  }

  /** `live %1` before a `zjmp` executes with operand 9. */
  lemma LiveReadsNextOpcode()
    ensures var program := [Line("live", ["%1"]), Line("zjmp", ["%5"])];
            && WellFramedProgram([], program)
            && LoneValue("%1") == 1
            && forall mem, base :: Seen(mem, base, [], program, 0).operands == [Some(9)]
  {
    hide Atoi, Code;
    var program := [Line("live", ["%1"]), Line("zjmp", ["%5"])];
    MnemonicCode(0);
    MnemonicCode(8);
    OneAndFive();
    assert WellFramed([], program[0], 0);
    assert forall i | 0 <= i < 2 :: WellFramed([], program[i], ProgramAddress([], program, i));
    LoneOperandExact([], program[0], 0, 9);
  }

  lemma LoneSum(v: int, follow: byte)
    ensures var b := BigEndian(v); var r := b[0] as int + b[1] as int + b[2] as int + follow as int;
            && (0 <= v < 256 ==> r == follow as int)
            && (r == v <==> v == follow || (v == 256 && follow == 255))
  {
    Bytes.Digits(v);
    if 0 <= v < WORD { ModUnique(v, WORD, 0, v); }
  }

  // ---------------------------------------------------------------- programs

  ghost predicate WellFramedProgram(table: Table, lines: seq<Line>)
  {
    && AllValid(lines)
    && (forall i | 0 <= i < |lines| :: WellFramed(table, lines[i], ProgramAddress(table, lines, i)))
  }

  function Offset(table: Table, lines: seq<Line>, k: nat): nat
    requires k <= |lines| && AllValid(lines)
  {
    |ProgramBytes(table, lines, k)|
  }

  lemma {:induction false} StoredPrefix(mem: seq<byte>, base: int, table: Table, lines: seq<Line>, k: nat, n: nat)
    requires k <= n <= |lines| && AllValid(lines)
    requires Stored(mem, base, ProgramBytes(table, lines, n))
    ensures Stored(mem, base, ProgramBytes(table, lines, k))
    ensures Offset(table, lines, k) <= Offset(table, lines, n)
    ensures k < n ==> Offset(table, lines, k) < Offset(table, lines, n)
    decreases n
  {
    hide Stored, LineBytes, ValidLine, PastOpcode, AddressAfter;
    if k < n {
      StoredParts(mem, base, ProgramBytes(table, lines, n - 1),
                  LineBytes(table, lines[n - 1], ProgramAddress(table, lines, n - 1)));
      StoredPrefix(mem, base, table, lines, k, n - 1);
    }
  }

  /** The byte that follows instruction `k`: the next opcode, or what lies behind the program. */
  function Follow(mem: seq<byte>, base: int, table: Table, lines: seq<Line>, k: nat): byte
    requires k < |lines| && AllValid(lines)
  {
    assert ValidLine(lines[k]);
    if k + 1 < |lines| then assert ValidLine(lines[k + 1]); Code(lines[k + 1].opcode)
    else Cell(mem, base + Offset(table, lines, |lines|))
  }

  /** The instruction the machine sees in place of source instruction `k`. */
  function Seen(mem: seq<byte>, base: int, table: Table, lines: seq<Line>, k: nat): Decoded
    requires k < |lines| && AllValid(lines)
  {
    assert ValidLine(lines[k]);
    Decoded(Code(lines[k].opcode),
            SeenOperands(table, lines[k], ProgramAddress(table, lines, k), Follow(mem, base, table, lines, k)),
            base + Offset(table, lines, k + 1))
  }

  lemma StoredLine(mem: seq<byte>, base: int, table: Table, lines: seq<Line>, k: nat)
    requires k < |lines| && AllValid(lines)
    requires Stored(mem, base, ProgramBytes(table, lines, |lines|))
    ensures Stored(mem, base + Offset(table, lines, k), LineBytes(table, lines[k], ProgramAddress(table, lines, k)))
    ensures Cell(mem, base + Offset(table, lines, k)) == Code(lines[k].opcode)
    ensures Offset(table, lines, k + 1) ==
            Offset(table, lines, k) + |LineBytes(table, lines[k], ProgramAddress(table, lines, k))|
  {
    hide Stored, LineBytes, Code;
    StoredPrefix(mem, base, table, lines, k + 1, |lines|);
    var front, b := ProgramBytes(table, lines, k), LineBytes(table, lines[k], ProgramAddress(table, lines, k));
    assert ProgramBytes(table, lines, k + 1) == front + b;
    StoredParts(mem, base, front, b);
    StoredFirst(mem, base + |front|, b);
  }

  lemma StoredFirst(mem: seq<byte>, a: int, b: seq<byte>)
    requires Stored(mem, a, b) && |b| > 0
    ensures Cell(mem, a) == b[0]
  {
    assert Cell(mem, a + 0) == b[0];
  }

  /** Stream round trip: the bytes of a program decode instruction by instruction, at the
      offsets at which they were written. */
  lemma StreamRoundTrip(mem: seq<byte>, base: int, table: Table, lines: seq<Line>, k: nat)
    requires WellFramedProgram(table, lines) && k < |lines|
    requires Stored(mem, base, ProgramBytes(table, lines, |lines|))
    ensures IsOpcode(Cell(mem, base + Offset(table, lines, k)))
    ensures Decode(mem, base + Offset(table, lines, k)) == Seen(mem, base, table, lines, k)
  {
    hide *;
    FramedLine(table, lines, k);
    var address := ProgramAddress(table, lines, k);
    StoredLine(mem, base, table, lines, k);
    LineRoundTrip(mem, base + Offset(table, lines, k), table, lines[k], address);
    FollowIs(mem, base, table, lines, k);
    SeenIs(mem, base, table, lines, k);
  }

  lemma FramedLine(table: Table, lines: seq<Line>, k: nat)
    requires WellFramedProgram(table, lines) && k < |lines|
    ensures AllValid(lines) && ValidLine(lines[k]) && IsMnemonic(lines[k].opcode)
    ensures WellFramed(table, lines[k], ProgramAddress(table, lines, k))
  {
    hide WellFramed, ProgramAddress;
  }

  lemma FollowIs(mem: seq<byte>, base: int, table: Table, lines: seq<Line>, k: nat)
    requires k < |lines| && AllValid(lines)
    requires Stored(mem, base, ProgramBytes(table, lines, |lines|))
    ensures Follow(mem, base, table, lines, k) == Cell(mem, base + Offset(table, lines, k + 1))
  {
    hide Stored, ProgramBytes, Code, Offset, Cell, LineBytes, ProgramAddress, AddressAfter, IsMnemonic;
    if k + 1 < |lines| { StoredLine(mem, base, table, lines, k + 1); }
  }

  lemma SeenIs(mem: seq<byte>, base: int, table: Table, lines: seq<Line>, k: nat)
    requires k < |lines| && AllValid(lines)
    ensures ValidLine(lines[k]) && IsMnemonic(lines[k].opcode)
    ensures Seen(mem, base, table, lines, k) ==
            Decoded(Code(lines[k].opcode),
                    SeenOperands(table, lines[k], ProgramAddress(table, lines, k), Follow(mem, base, table, lines, k)),
                    base + Offset(table, lines, k + 1))
  {
    hide Code, SeenOperands, ProgramAddress, Follow, Offset;
  }

  /** Of an instruction with several arguments, operand `i` comes back unchanged exactly when
      it is a byte. */
  lemma {:induction false} OperandExact(table: Table, args: seq<string>, n: nat, i: nat, address: int)
    requires i < n <= |args|
    ensures var v := Written(table, args[i], address + |ArgsBytes(table, args, i, address)|);
            ArgSums(table, args, n, address)[i] == Some(v) <==> 0 <= v < 256
    decreases n
  {
    hide ArgBytes, Sum, Written;
    ArgExact(table, args[n - 1], address + |ArgsBytes(table, args, n - 1, address)|);
    if i < n - 1 { OperandExact(table, args, n - 1, i, address); }
  }
}
