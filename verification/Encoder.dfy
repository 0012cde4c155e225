/** Instruction encoding (assembler/encoder.c). */
module Encoder {
  import opened Bytes
  import opened OpTable
  import opened Symbols
  import opened Text

  /** A parsed instruction line: a mnemonic and its argument texts, classified by their first
      characters. */
  datatype Line = Line(opcode: string, arguments: seq<string>)

  type Table = seq<Binding>

  function Code(opcode: string): byte
    requires IsMnemonic(opcode)
  {
    var row: nat :| row < 16 && AsmOp(row).mnemonic == opcode;
    TablesAgree(row, row);
    AsmOp(row).code
  }

  /** The descriptor code of an argument: 1 register, 2 direct, 3 indirect. */
  function ParamCode(arg: string): (r: nat)
    ensures 1 <= r <= 3
  {
    if At(arg, 0) == 'r' then 1
    else if IsDigit(At(arg, 0)) || (At(arg, 0) == '-' && IsDigit(At(arg, 1))) then 3
    else 2
  }

  function RegisterBytes(arg: string): (b: seq<byte>)
    ensures |b| == 1
  {
    [Atoi(Drop(arg, 1)) % 256]
  }

  /** The first character is skipped, whatever it is. */
  function IndirectBytes(arg: string): (b: seq<byte>)
    ensures |b| == 4
  {
    BigEndian(Atoi(Drop(arg, 1)))
  }

  predicate IsLabel(arg: string)
  {
    At(arg, 0) == '%' && !ContainsDigits(Drop(arg, 1))
  }

  /** `encode_direct` with `address` as the current address. */
  function DirectBytes(table: Table, arg: string, address: int): (b: seq<byte>)
    ensures |b| == 2 || |b| == 4
  {
    if IsLabel(arg) then TwoBytes(Lookup(table, Drop(arg, 2)) - address)
    else if At(arg, 0) == '%' then
      if Atoi(Drop(arg, 1)) == 0 then IndirectBytes(arg) else TwoBytes(Atoi(Drop(arg, 1)))
    else [TwoBytes(Atoi(arg))[1], TwoBytes(Atoi(arg))[0]]
  }

  /** One of several arguments. */
  function ArgBytes(table: Table, arg: string, address: int): (b: seq<byte>)
    ensures 1 <= |b| <= 4
  {
    if At(arg, 0) == 'r' then RegisterBytes(arg)
    else if At(arg, 0) == '%' then DirectBytes(table, arg, address)
    else IndirectBytes(arg)
  }

  /** A lone argument. */
  function LoneBytes(table: Table, arg: string, address: int): (b: seq<byte>)
    ensures |b| == 2 || |b| == 4
  {
    if At(arg, 1) == ':' then DirectBytes(table, arg, address) else IndirectBytes(arg)
  }

  /** How many bytes an argument takes, which does not depend on labels and addresses. */
  function ArgWidth(arg: string): (r: nat)
  {
    if At(arg, 0) == 'r' then 1
    else if At(arg, 0) == '%' && (IsLabel(arg) || Atoi(Drop(arg, 1)) != 0) then 2
    else 4
  }

  function LoneWidth(arg: string): (r: nat)
  {
    if At(arg, 1) == ':' && !(At(arg, 0) == '%' && !IsLabel(arg) && Atoi(Drop(arg, 1)) == 0) then 2 else 4
  }

  lemma Widths(table: Table, arg: string, address: int)
    ensures |ArgBytes(table, arg, address)| == ArgWidth(arg)
    ensures |LoneBytes(table, arg, address)| == LoneWidth(arg)
  {
  }

  /** The first `n` arguments, the current address advancing with the bytes written. */
  function ArgsBytes(table: Table, args: seq<string>, n: nat, address: int): (b: seq<byte>)
    requires n <= |args|
  {
    if n == 0 then []
    else
      var front := ArgsBytes(table, args, n - 1, address);
      front + ArgBytes(table, args[n - 1], address + |front|)
  }

  function Descriptor(args: seq<string>, n: nat): (r: nat)
    requires n <= |args| && n <= 3
    ensures r < 256
  {
    if n == 0 then 0
    else if n == 1 then 64 * ParamCode(args[0])
    else if n == 2 then 64 * ParamCode(args[0]) + 16 * ParamCode(args[1])
    else 64 * ParamCode(args[0]) + 16 * ParamCode(args[1]) + 4 * ParamCode(args[2])
  }

  /** The address after the opcode byte, which is not counted at address 0. */
  function PastOpcode(address: int): int
  {
    if address != 0 then address + 1 else address
  }

  predicate ValidLine(line: Line)
  {
    IsMnemonic(line.opcode) && |line.arguments| <= 3
  }

  predicate AllValid(lines: seq<Line>)
  {
    forall i | 0 <= i < |lines| :: ValidLine(lines[i])
  }

  /** `encode_instruction` at a current address. */
  function LineBytes(table: Table, line: Line, address: int): (b: seq<byte>)
    requires ValidLine(line)
    ensures |b| > 0 && b[0] == Code(line.opcode)
  {
    var args, a := line.arguments, PastOpcode(address);
    [Code(line.opcode)] +
    if |args| == 0 then []
    else if |args| == 1 then LoneBytes(table, args[0], a)
    else [Descriptor(args, |args|)] + ArgsBytes(table, args, |args|, a + 1)
  }

  function AddressAfter(table: Table, line: Line, address: int): int
    requires ValidLine(line)
  {
    PastOpcode(address) + |LineBytes(table, line, address)| - 1
  }

  function ProgramAddress(table: Table, lines: seq<Line>, n: nat): int
    requires n <= |lines| && AllValid(lines)
  {
    if n == 0 then 0 else AddressAfter(table, lines[n - 1], ProgramAddress(table, lines, n - 1))
  }

  /** What `assemble` has written after `n` instructions. */
  function ProgramBytes(table: Table, lines: seq<Line>, n: nat): (b: seq<byte>)
    requires n <= |lines| && AllValid(lines)
  {
    if n == 0 then []
    else ProgramBytes(table, lines, n - 1)
         + LineBytes(table, lines[n - 1], ProgramAddress(table, lines, n - 1))
  }

  // ---------------------------------------------------------------- the writer

  method WriteBigEndianBytes(v: int) returns (bytes: array<byte>)
    ensures fresh(bytes) && bytes[..] == BigEndian(v)
  {
    bytes := new byte[4];
    var value, i := v, 3;
    while i >= 0
      invariant -1 <= i <= 3
      invariant value == (if i == 3 then v else if i == 2 then v / 256 else if i == 1 then v / 256 / 256
                          else if i == 0 then v / 256 / 256 / 256 else v / 256 / 256 / 256 / 256)
      invariant forall k | i < k <= 3 :: bytes[k] == BigEndian(v)[k]
    {
      bytes[i] := value % 256;
      value := value / 256;
      i := i - 1;
    }
  }

  /** The assembler's second pass: the output file and the current address. */
  class Writer {
    var output: seq<byte>
    var currentAddress: int
    const symbols: SymbolTable

    ghost predicate Valid()
      reads this, symbols
    {
      symbols.Valid()
    }

    constructor (symbols: SymbolTable)
      requires symbols.Valid()
      ensures Valid() && this.symbols == symbols && output == [] && currentAddress == 0
    {
      this.symbols := symbols;
      output := [];
      currentAddress := 0;
    }

    method WriteBigEndian(value: int)
      modifies this`output
      ensures output == old(output) + BigEndian(value)
    {
      var bytes := WriteBigEndianBytes(value);
      output := output + bytes[..];
    }

    method WriteLastTwoBytes(value: int)
      modifies this`output
      ensures output == old(output) + TwoBytes(value)
    {
      output := output + [value / 256 % 256];
      output := output + [value % 256];
    }

    method EncodeRegister(arg: string)
      modifies this
      ensures output == old(output) + RegisterBytes(arg) && currentAddress == old(currentAddress) + 1
    {
      output := output + [Atoi(Drop(arg, 1)) % 256];
      currentAddress := currentAddress + 1;
    }

    method EncodeIndirect(arg: string)
      modifies this
      ensures output == old(output) + IndirectBytes(arg) && currentAddress == old(currentAddress) + 4
    {
      WriteBigEndian(Atoi(Drop(arg, 1)));
      currentAddress := currentAddress + 4;
    }

    method HasDigits(str: string) returns (r: bool)
      ensures r == ContainsDigits(str)
    {
      for i := 0 to |str|
        invariant forall k | 0 <= k < i :: !IsDigit(str[k])
      {
        if IsDigit(str[i]) { return true; }
      }
      return false;
    }

    method EncodeDirect(arg: string)
      requires Valid()
      modifies this
      ensures Valid()
      ensures var b := DirectBytes(symbols.Contents(), arg, old(currentAddress));
              output == old(output) + b && currentAddress == old(currentAddress) + |b|
    {
      var digits := HasDigits(Drop(arg, 1));
      if At(arg, 0) == '%' && !digits {
        var labelAddress := symbols.LookupSymbol(Drop(arg, 2));
        WriteLastTwoBytes(labelAddress - currentAddress);
      } else if At(arg, 0) == '%' && digits {
        var value := Atoi(Drop(arg, 1));
        if value == 0 {
          EncodeIndirect(arg);
          return;
        }
        WriteLastTwoBytes(value);
      } else {
        var value := Atoi(arg);
        output := output + [value % 256, value / 256 % 256];
      }
      currentAddress := currentAddress + 2;
    }

    method EncodeParameterDescription(args: seq<string>)
      requires |args| <= 3
      modifies this
      ensures output == old(output) + [Descriptor(args, |args|)]
      ensures currentAddress == old(currentAddress) + 1
    {
      var description := 0;
      for i := 0 to |args|
        invariant description == Descriptor(args, i)
      {
        var paramCode := 0;
        if At(args[i], 0) == 'r' {
          paramCode := 1;
        } else if IsDigit(At(args[i], 0)) || (At(args[i], 0) == '-' && IsDigit(At(args[i], 1))) {
          paramCode := 3;
        } else {
          paramCode := 2;
        }
        // The fields do not overlap, so the bitwise or is a sum.
        description := description + paramCode * (if i == 0 then 64 else if i == 1 then 16 else 4);
      }
      output := output + [description];
      currentAddress := currentAddress + 1;
    }

    method EncodeArguments(args: seq<string>)
      requires Valid()
      modifies this
      ensures Valid()
      ensures var b := ArgsBytes(symbols.Contents(), args, |args|, old(currentAddress));
              output == old(output) + b && currentAddress == old(currentAddress) + |b|
    {
      hide DirectBytes, IndirectBytes, RegisterBytes, Lookup;
      ghost var table, start, written := symbols.Contents(), currentAddress, output;
      for i := 0 to |args|
        invariant Valid() && symbols.Contents() == table
        invariant output == written + ArgsBytes(table, args, i, start)
        invariant currentAddress == start + |ArgsBytes(table, args, i, start)|
      {
        if At(args[i], 0) == 'r' {
          EncodeRegister(args[i]);
        } else if At(args[i], 0) == '%' {
          EncodeDirect(args[i]);
        } else {
          EncodeIndirect(args[i]);
        }
      }
    }

    method EncodeInstruction(line: Line)
      requires Valid() && ValidLine(line)
      modifies this
      ensures Valid()
      ensures output == old(output) + LineBytes(symbols.Contents(), line, old(currentAddress))
      ensures currentAddress == AddressAfter(symbols.Contents(), line, old(currentAddress))
    {
      hide ArgBytes, Descriptor, DirectBytes, IndirectBytes, Code, AsmOp, IsMnemonic, Lookup;
      ghost var table, start, written := symbols.Contents(), currentAddress, output;
      var row := MnemonicToOpType(line.opcode);
      MnemonicCode(row);
      var code := AsmOp(row).code;
      output := output + [code];
      if currentAddress != 0 {
        currentAddress := currentAddress + 1;
      }
      if |line.arguments| > 1 {
        EncodeParameterDescription(line.arguments);
      }
      if |line.arguments| == 1 {
        if At(line.arguments[0], 1) == ':' {
          EncodeDirect(line.arguments[0]);
        } else {
          EncodeIndirect(line.arguments[0]);
        }
      } else {
        EncodeArguments(line.arguments);
      }
      assert output == written + LineBytes(table, line, start);
    }

    /** `assemble`. */
    method Assemble(lines: seq<Line>)
      requires Valid() && output == [] && currentAddress == 0
      requires AllValid(lines)
      modifies this
      ensures Valid()
      ensures output == ProgramBytes(symbols.Contents(), lines, |lines|)
      ensures currentAddress == ProgramAddress(symbols.Contents(), lines, |lines|)
    {
      hide LineBytes, AddressAfter, ValidLine, Lookup;
      ghost var table := symbols.Contents();
      for i := 0 to |lines|
        invariant Valid() && symbols.Contents() == table
        invariant output == ProgramBytes(table, lines, i)
        invariant currentAddress == ProgramAddress(table, lines, i)
      {
        EncodeInstruction(lines[i]);
      }
    }
  }

  lemma MnemonicCode(row: nat)
    requires row < 16
    ensures IsMnemonic(AsmOp(row).mnemonic)
    ensures Code(AsmOp(row).mnemonic) == AsmOp(row).code == row + 1
  {
    assert AsmOp(row).mnemonic == AsmOp(row).mnemonic;
    forall i: nat | i < 16 ensures AsmOp(i).mnemonic == AsmOp(row).mnemonic ==> i == row { TablesAgree(i, row); }
    TablesAgree(row, row);
  }
}
