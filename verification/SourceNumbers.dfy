/** The numbers of the source text, and when the machine executes with them. */
module SourceNumbers {
  import opened Bytes
  import opened OpTable
  import opened Wrappers
  import opened Text
  import opened Lexer
  import opened Parser
  import opened Lexemes
  import opened Printing
  import opened Encoder
  import opened Decoder
  import opened RoundTrip

  /** The number an operand's text names; a label names none. */
  function SourceValue(arg: string): Option<int>
  {
    if IsRegister(arg) || IsDirect(arg) then Some(Atoi(Drop(arg, 1)))
    else if IsNumber(arg) then Some(Atoi(arg))
    else None
  }

  /** A bare number from whose front the assembler takes a digit that counts. */
  predicate LosesDigit(arg: string)
  {
    '1' <= At(arg, 0) <= '9'
  }

  // ---------------------------------------------------------------- decimal digits

  function Power(n: nat): (r: nat)
    ensures r > 0
  {
    if n == 0 then 1 else 10 * Power(n - 1)
  }

  lemma {:induction false} DigitsShift(s: string, v: nat)
    requires AllIn(s, DigitChars)
    ensures Text.Digits(s, v) == v * Power(|s|) + Text.Digits(s, 0)
    ensures Text.Digits(s, 0) < Power(|s|)
    decreases |s|
  {
    if s != "" {
      assert In(s[0], DigitChars);
      var d, p := s[0] as int - '0' as int, Power(|s| - 1);
      DigitsShift(s[1..], 10 * v + d);
      DigitsShift(s[1..], d);
      TenTimes(v, d, p);
    }
  }

  lemma TenTimes(v: nat, d: nat, p: nat)
    requires d <= 9
    ensures (10 * v + d) * p == v * (10 * p) + d * p
    ensures d * p <= 9 * p
  {
    assert (10 * v + d) * p == 10 * v * p + d * p;
    assert 10 * v * p == v * (10 * p);
  }

  lemma DigitsOnly(s: string)
    requires AllIn(s, DigitChars)
    ensures Atoi(s) == Text.Digits(s, 0)
  {
    if s != "" { assert In(s[0], DigitChars); }
  }

  /** What is left of a number without its first character. */
  lemma WithoutFirst(arg: string)
    requires IsNumber(arg)
    ensures arg != ""
    ensures var v, w := Atoi(arg), Atoi(Drop(arg, 1));
            if LosesDigit(arg) then 0 <= 2 * w < v
            else if arg[0] == '-' then v == -w <= 0
            else w == v
  {
    hide IsDigit, IsSpace;
    if IsSpace(arg[0]) {
      BlankFirst(arg);
    } else {
      BareNumber(arg);
      var d := arg[1..];
      if arg[0] == '-' {
        MinusFirst(arg);
        DigitsOnly(d);
      } else {
        AllButFirst(arg);
        DigitsOnly(arg);
        DigitsOnly(d);
        DigitFirst(arg);
      }
    }
  }

  lemma BlankFirst(arg: string)
    requires arg != "" && IsSpace(arg[0])
    ensures Atoi(arg) == Atoi(Drop(arg, 1)) && !LosesDigit(arg) && arg[0] != '-'
  {
  }

  lemma MinusFirst(arg: string)
    requires arg != "" && arg[0] == '-'
    ensures Atoi(arg) == 0 - Text.Digits(arg[1..], 0) && !LosesDigit(arg)
  {
  }

  lemma AllButFirst(arg: string)
    requires arg != "" && AllIn(arg, DigitChars)
    ensures AllIn(arg[1..], DigitChars)
  {
  }

  lemma DigitFirst(arg: string)
    requires arg != "" && AllIn(arg, DigitChars)
    ensures var v, w := Text.Digits(arg, 0), Text.Digits(arg[1..], 0);
            if LosesDigit(arg) then 0 <= 2 * w < v else w == v
  {
    hide Power, AllIn;
    var d := LeadingDigit(arg);
    AllButFirst(arg);
    DigitsShift(arg[1..], d);
    AtLeast(d, Power(|arg[1..]|));
  }

  lemma LeadingDigit(arg: string) returns (d: nat)
    requires arg != "" && AllIn(arg, DigitChars)
    ensures d <= 9 && (d > 0 <==> LosesDigit(arg)) && Text.Digits(arg, 0) == Text.Digits(arg[1..], d)
  {
    assert In(arg[0], DigitChars);
    d := arg[0] as int - '0' as int;
  }

  lemma AtLeast(d: nat, p: nat)
    ensures d > 0 ==> d * p >= p
    ensures d == 0 ==> d * p == 0
  {
  }

  // ---------------------------------------------------------------- one of several operands

  lemma SumAtMost(v: int)
    requires v >= 0
    ensures Sum(BigEndian(v)) <= v
  {
    var b := BigEndian(v);
    Bytes.Digits(v);
    Sum4(b);
    assert v % WORD <= v;
  }

  lemma NumberIsIndirect(arg: string)
    requires IsNumber(arg)
    ensures arg != "" && arg[0] != 'r' && arg[0] != '%'
  {
    SpanAll(arg, Blanks);
  }

  lemma PlainOperand(arg: string)
    requires IsRegister(arg) || IsDirect(arg)
    ensures At(arg, 0) == 'r' || At(arg, 0) == '%'
    ensures At(arg, 0) == 'r' <==> IsRegister(arg)
    ensures !IsLabel(arg) && !LosesDigit(arg) && Atoi(Drop(arg, 1)) >= 0
  {
    var d := arg[1..];
    assert In(d[0], DigitChars) && Drop(arg, 1) == d;
    DigitsOnly(d);
  }

  lemma NumberSum(table: Table, arg: string, address: int)
    requires IsNumber(arg)
    ensures Sum(ArgBytes(table, arg, address)) == Atoi(arg) <==> 0 <= Atoi(arg) < 256 && !LosesDigit(arg)
  {
    hide Atoi, BigEndian, IsNumber, Sum;
    NumberIsIndirect(arg);
    WithoutFirst(arg);
    var w := Atoi(Drop(arg, 1));
    ArgExact(table, arg, address);
    if w >= 0 { SumAtMost(w); }
  }

  /** In an instruction with several operands, the machine reads the number of the source
      text if and only if that is a byte and no digit of it is lost. */
  lemma NumberComesBack(table: Table, arg: string, address: int)
    requires SourceValue(arg).Some?
    ensures var v := SourceValue(arg).value;
            Sum(ArgBytes(table, arg, address)) == v <==> 0 <= v < 256 && !LosesDigit(arg)
  {
    hide Atoi, ArgBytes, Sum, IsNumber, IsRegister, IsDirect, LosesDigit;
    if IsRegister(arg) || IsDirect(arg) {
      PlainOperand(arg);
      ArgExact(table, arg, address);
    } else {
      NumberSum(table, arg, address);
    }
  }

  // ---------------------------------------------------------------- lone operands

  lemma ThreeBytes(w: int)
    requires w >= 0
    ensures var b := BigEndian(w); 256 * (b[0] as int + b[1] as int + b[2] as int) <= w
  {
    Bytes.Digits(w);
    assert w % WORD <= w;
  }

  /** A lone operand is the number of the source text if and only if that equals the byte
      after the instruction, or is 256 with no digit lost before a byte 255. */
  lemma LoneNumberComesBack(arg: string, follow: byte)
    requires SourceValue(arg).Some?
    ensures var v, b := SourceValue(arg).value, BigEndian(LoneValue(arg));
            b[0] as int + b[1] as int + b[2] as int + follow as int == v <==>
              v == follow || (v == 256 && follow == 255 && !LosesDigit(arg))
  {
    hide Atoi, BigEndian, IsNumber, IsRegister, IsDirect, LosesDigit;
    var w := LoneValue(arg);
    LoneSum(w, follow);
    if IsRegister(arg) || IsDirect(arg) { PlainOperand(arg); } else { WithoutFirst(arg); }
    if w >= 0 { ThreeBytes(w); }
  }

  // ---------------------------------------------------------------- decimal notation

  /** How a number is written. */
  function Decimal(n: nat): (s: string)
    ensures s != ""
  {
    if n < 10 then [DIGITS[n]] else Decimal(n / 10) + [DIGITS[n % 10]]
  }

  lemma {:induction false} DecimalDigits(n: nat)
    ensures AllIn(Decimal(n), DigitChars) && (Decimal(n)[0] == '0' <==> n == 0)
    decreases n
  {
    if n >= 10 { DecimalDigits(n / 10); }
  }

  lemma {:induction false} AppendDigit(s: string, c: char, v: nat)
    requires AllIn(s, DigitChars) && IsDigit(c)
    ensures Text.Digits(s + [c], v) == 10 * Text.Digits(s, v) + (c as int - '0' as int)
    decreases |s|
  {
    if s == "" {
      assert s + [c] == [c] && [c][1..] == "";
    } else {
      assert In(s[0], DigitChars);
      assert (s + [c])[1..] == s[1..] + [c];
      AppendDigit(s[1..], c, 10 * v + (s[0] as int - '0' as int));
    }
  }

  lemma {:induction false} DigitsOfDecimal(n: nat)
    ensures Text.Digits(Decimal(n), 0) == n
    decreases n
  {
    if n < 10 {
      assert Decimal(n)[1..] == "";
    } else {
      DecimalDigits(n / 10);
      DigitsOfDecimal(n / 10);
      AppendDigit(Decimal(n / 10), DIGITS[n % 10], 0);
    }
  }

  lemma {:induction false} SkipsBlanks(b: string, s: string)
    requires AllIn(b, Blanks)
    ensures Atoi(b + s) == Atoi(s)
    decreases |b|
  {
    if b == "" {
      assert b + s == s;
    } else {
      assert In(b[0], Blanks);
      assert (b + s)[1..] == b[1..] + s;
      SkipsBlanks(b[1..], s);
    }
  }

  /** Decimal round trip: `atoi` reads back every number, after blanks and after a sign. */
  lemma AtoiDecimal(n: nat, b: string)
    requires AllIn(b, Blanks)
    ensures Atoi(Decimal(n)) == n && Atoi(b + Decimal(n)) == n
    ensures Atoi(b + ("-" + Decimal(n))) == 0 - n as int && Atoi(b + ("+" + Decimal(n))) == n
  {
    hide AllIn, Decimal;
    DecimalDigits(n);
    DigitsOfDecimal(n);
    DigitsOnly(Decimal(n));
    SkipsBlanks(b, Decimal(n));
    SkipsBlanks(b, "-" + Decimal(n));
    SkipsBlanks(b, "+" + Decimal(n));
    assert ("-" + Decimal(n))[1..] == Decimal(n) && ("+" + Decimal(n))[1..] == Decimal(n);
  }

  lemma MarkedShape(m: char, n: nat)
    requires m == 'r' || m == '%'
    ensures var a := [m] + Decimal(n);
            && (if m == 'r' then IsRegister(a) else IsDirect(a)) && SourceValue(a) == Some(n) && !LosesDigit(a)
  {
    hide Decimal, Atoi;
    var d := Decimal(n);
    DecimalDigits(n);
    AtoiDecimal(n, "");
    assert ([m] + d)[1..] == d;
  }

  lemma AtoiPlain(n: nat)
    ensures Atoi(Decimal(n)) == n && Atoi("-" + Decimal(n)) == 0 - n as int
  {
    hide Decimal, Atoi;
    AtoiDecimal(n, "");
    assert "" + ("-" + Decimal(n)) == "-" + Decimal(n);
  }

  lemma BareShape(n: nat)
    ensures var d := Decimal(n);
            IsNumber(d) && SourceValue(d) == Some(n) && (LosesDigit(d) <==> n > 0)
  {
    hide Decimal, Atoi, AllIn, IsNumber, IsRegister, IsDirect;
    var d := Decimal(n);
    DecimalDigits(n);
    FirstDigit(d);
    AtoiPlain(n);
    BareIsNumber(d);
    NotNumbers(" " + d, d);
  }

  lemma FirstDigit(d: string)
    requires d != "" && AllIn(d, DigitChars)
    ensures IsDigit(d[0])
  {
    assert In(d[0], DigitChars);
  }

  lemma NegativeShape(n: nat)
    ensures var a := "-" + Decimal(n);
            IsNumber(a) && SourceValue(a) == Some(0 - n as int) && !LosesDigit(a)
  {
    hide Decimal, Atoi, AllIn, IsNumber, IsRegister, IsDirect;
    var d := Decimal(n);
    DecimalDigits(n);
    FirstDigit(d);
    AtoiPlain(n);
    BareIsNumber(d);
    NotNumbers(" " + d, d);
  }

  lemma BlankShape(n: nat, b: string)
    requires AllIn(b, Blanks) && b != ""
    ensures var a := b + Decimal(n);
            IsNumber(a) && SourceValue(a) == Some(n) && !LosesDigit(a)
  {
    hide Decimal, Atoi, IsNumber, IsRegister, IsDirect;
    var d := Decimal(n);
    DecimalDigits(n);
    FirstDigit(d);
    AtoiDecimal(n, b);
    assert In(b[0], Blanks) && (b + d)[0] == b[0];
    BareIsNumber(d);
    BlankNumber(b, d);
    NotNumbers(b + d, d);
  }

  /** The operand shapes with a given number: register, direct, with blanks in front, bare and
      negative. */
  lemma Shapes(n: nat, b: string)
    requires AllIn(b, Blanks) && b != ""
    ensures var d := Decimal(n);
            && IsRegister("r" + d) && SourceValue("r" + d) == Some(n) && !LosesDigit("r" + d)
            && IsDirect("%" + d) && SourceValue("%" + d) == Some(n) && !LosesDigit("%" + d)
            && IsNumber(b + d) && SourceValue(b + d) == Some(n) && !LosesDigit(b + d)
            && IsNumber(d) && SourceValue(d) == Some(n) && (LosesDigit(d) <==> n > 0)
            && IsNumber("-" + d) && SourceValue("-" + d) == Some(0 - n as int) && !LosesDigit("-" + d)
  {
    hide *;
    MarkedShape('r', n);
    MarkedShape('%', n);
    assert ['r'] + Decimal(n) == "r" + Decimal(n) && ['%'] + Decimal(n) == "%" + Decimal(n);
    BlankShape(n, b);
    BareShape(n);
    NegativeShape(n);
  }

  lemma BareIsNumber(d: string)
    requires d != "" && AllIn(d, DigitChars)
    ensures IsNumber(d) && IsNumber("-" + d) && !IsSpace(d[0])
  {
    assert In(d[0], DigitChars);
    assert Span(d, Blanks) == 0 && Span("-" + d, Blanks) == 0;
    assert ("-" + d)[1..] == d;
    AllButFirst(d);
  }

  lemma NotNumbers(a: string, d: string)
    requires a != "" && IsSpace(a[0]) && d != "" && IsDigit(d[0])
    ensures !IsRegister(a) && !IsDirect(a) && !IsRegister(d) && !IsDirect(d)
    ensures !IsRegister("-" + d) && !IsDirect("-" + d)
  {
  }

  /** What the assembler writes for a number: one byte for a register, two for a direct number
      that is not zero, four otherwise; and four when the operand stands alone. */
  lemma DecimalsEncoded(table: Table, n: nat, b: string, address: int)
    requires AllIn(b, Blanks) && b != ""
    ensures var d := Decimal(n);
            && ArgBytes(table, "r" + d, address) == [n % 256]
            && ArgBytes(table, "%" + d, address) == (if n == 0 then [0, 0, 0, 0] else TwoBytes(n))
            && ArgBytes(table, b + d, address) == BigEndian(n)
            && LoneBytes(table, "%" + d, address) == LoneBytes(table, "r" + d, address) == BigEndian(n)
            && LoneBytes(table, b + d, address) == BigEndian(n)
  {
    hide Atoi, BigEndian, TwoBytes, Decimal, IsNumber, AllIn, LosesDigit, ContainsDigits;
    var d := Decimal(n);
    Shapes(n, b);
    PlainOperand("r" + d);
    PlainOperand("%" + d);
    WithoutFirst(b + d);
    NumberIsIndirect(b + d);
    NoColon(n, b);
    assert BigEndian(0) == [0, 0, 0, 0] by { ZeroWord(); }
  }

  lemma ZeroWord()
    ensures BigEndian(0) == [0, 0, 0, 0]
  {
  }

  lemma NoColon(n: nat, b: string)
    requires AllIn(b, Blanks) && b != ""
    ensures var d := Decimal(n); At("r" + d, 1) != ':' && At("%" + d, 1) != ':' && At(b + d, 1) != ':'
    ensures (b + Decimal(n))[0] == b[0] && IsSpace(b[0])
  {
    DecimalDigits(n);
    var d := Decimal(n);
    assert In(d[0], DigitChars) && In(b[0], Blanks);
    if |b| > 1 { assert In(b[1], Blanks); }
  }

  /** A stray label of one character as a lone operand becomes two zero bytes. */
  lemma StrayLabelIsZero(table: Table, c: char, address: int)
    requires IsAlpha(c) && c != 'r'
    ensures LoneBytes(table, [c, ':'], address) == [0, 0]
  {
    assert Trim([c, ':']) == [c, ':'];
  }

  /** Which numbers of the source text an instruction with several operands executes with:
      registers, direct numbers and numbers with blanks in front exactly below 256, bare and
      negative ones only zero. */
  lemma DecimalsComeBack(table: Table, n: nat, b: string, address: int)
    requires AllIn(b, Blanks) && b != ""
    ensures var d := Decimal(n);
            && (Sum(ArgBytes(table, "r" + d, address)) == n <==> n < 256)
            && (Sum(ArgBytes(table, "%" + d, address)) == n <==> n < 256)
            && (Sum(ArgBytes(table, b + d, address)) == n <==> n < 256)
            && (Sum(ArgBytes(table, d, address)) == n <==> n == 0)
            && (Sum(ArgBytes(table, "-" + d, address)) == 0 - n as int <==> n == 0)
  {
    hide SourceValue, ArgBytes, Sum, LosesDigit, Decimal, AllIn;
    var d := Decimal(n);
    Shapes(n, b);
    NumberComesBack(table, "r" + d, address);
    NumberComesBack(table, "%" + d, address);
    NumberComesBack(table, b + d, address);
    NumberComesBack(table, d, address);
    NumberComesBack(table, "-" + d, address);
  }

  /** And one with a lone operand: the byte that follows, and 256 before a byte 255. */
  lemma LoneDecimalsComeBack(n: nat, b: string, follow: byte)
    requires AllIn(b, Blanks) && b != ""
    ensures var d := Decimal(n);
            && (LoneSeen("r" + d, follow) == n <==> n == follow || (n == 256 && follow == 255))
            && (LoneSeen("%" + d, follow) == n <==> n == follow || (n == 256 && follow == 255))
            && (LoneSeen(b + d, follow) == n <==> n == follow || (n == 256 && follow == 255))
            && (LoneSeen(d, follow) == n <==> n == follow)
  {
    hide SourceValue, LosesDigit, Decimal, AllIn, BigEndian, LoneValue;
    var d := Decimal(n);
    Shapes(n, b);
    LoneNumberComesBack("r" + d, follow);
    LoneNumberComesBack("%" + d, follow);
    LoneNumberComesBack(b + d, follow);
    LoneNumberComesBack(d, follow);
  }

  /** What the machine reads for a lone operand of four bytes. */
  function LoneSeen(arg: string, follow: byte): int
  {
    var b := BigEndian(LoneValue(arg));
    b[0] as int + b[1] as int + b[2] as int + follow as int
  }

  /** The descriptor code by the shape of the operand: registers 1, labels and direct numbers
      2, and numbers 3 when bare but 2 with blanks in front or without a digit. */
  lemma CodesByShape(arg: string)
    requires IsOperand(arg)
    ensures IsRegister(arg) ==> ParamCode(arg) == 1
    ensures IsLabelRef(arg) || IsDirect(arg) ==> ParamCode(arg) == 2
    ensures IsNumber(arg) ==> ParamCode(arg) == if IsSpace(arg[0]) || arg == "-" then 2 else 3
  {
    hide AllIn;
    if IsNumber(arg) {
      NumberIsIndirect(arg);
      if !IsSpace(arg[0]) {
        BareNumber(arg);
        if |arg| > 1 { SecondDigit(arg); }
      }
    }
  }

  lemma SecondDigit(arg: string)
    requires |arg| > 1 && (AllIn(arg, DigitChars) || AllIn(arg[1..], DigitChars))
    ensures IsDigit(arg[1])
  {
    if AllIn(arg[1..], DigitChars) { assert In(arg[1..][0], DigitChars); } else { assert In(arg[1], DigitChars); }
  }

  // ---------------------------------------------------------------- instructions

  /** Operand `j` of an instruction is one whose number the machine executes with. */
  predicate ComesBack(args: seq<string>, j: nat, follow: byte)
    requires j < |args| && SourceValue(args[j]).Some?
  {
    var v := SourceValue(args[j]).value;
    if |args| == 1 then v == follow || (v == 256 && follow == 255 && !LosesDigit(args[j]))
    else 0 <= v < 256 && !LosesDigit(args[j])
  }

  /** The byte sum of what is written for label operand `j`: the label's first-pass address
      minus the second-pass address of the operand. */
  function LabelSeen(table: Table, line: Line, address: int, j: nat): nat
    requires j < |line.arguments|
  {
    var at := PastOpcode(address) + 1;
    Sum(TwoBytes(Symbols.Lookup(table, Drop(line.arguments[j], 2)) - (at + |ArgsBytes(table, line.arguments, j, at)|)))
  }

  /** The instruction `d` that the machine executes for a line of source: every number is the
      one in the text exactly when it comes back. A label with a digit in its name is a
      zero, or the following byte when alone; a digit-free one the byte sum of its
      displacement. */
  ghost predicate Executes(d: Decoded, table: Table, line: Line, address: int, follow: byte)
    requires ValidLine(line)
  {
    && d.opcode == Code(line.opcode) && |d.operands| == |line.arguments|
    && forall j | 0 <= j < |line.arguments| ::
         var arg := line.arguments[j];
         && (SourceValue(arg).Some? ==> (d.operands[j] == SourceValue(arg) <==> ComesBack(line.arguments, j, follow)))
         && (IsLabelRef(arg) ==> d.operands[j] == Some(
              if |line.arguments| == 1 then follow as int
              else if ContainsDigits(Drop(arg, 1)) then 0
              else LabelSeen(table, line, address, j)))
  }

  lemma {:induction false} ArgSumAt(table: Table, args: seq<string>, n: nat, i: nat, address: int)
    requires i < n <= |args|
    ensures ArgSums(table, args, n, address)[i] ==
            Some(Sum(ArgBytes(table, args[i], address + |ArgsBytes(table, args, i, address)|)))
    decreases n
  {
    hide ArgBytes, Sum, ArgsBytes;
    if i < n - 1 { ArgSumAt(table, args, n - 1, i, address); }
  }

  lemma LabelSum(table: Table, arg: string, address: int)
    requires IsLabelRef(arg)
    ensures Sum(ArgBytes(table, arg, address)) ==
            if ContainsDigits(Drop(arg, 1)) then 0 else Sum(TwoBytes(Symbols.Lookup(table, Drop(arg, 2)) - address))
  {
    hide TwoBytes, Sum, ContainsDigits, Symbols.Lookup;
    if ContainsDigits(Drop(arg, 1)) {
      ColonIsZero(Drop(arg, 1));
      ZeroSum();
    }
  }

  lemma ZeroSum()
    ensures Sum(BigEndian(0)) == 0
  {
    Sum4(BigEndian(0));
  }

  /** What a well-framed line makes the machine execute. */
  lemma SeenExecutes(table: Table, line: Line, address: int, follow: byte, next: int)
    requires WellFramed(table, line, address)
    ensures Executes(Decoded(Code(line.opcode), SeenOperands(table, line, address, follow), next),
                     table, line, address, follow)
  {
    hide Code, WellFramed, SeenOperands, SourceValue, IsLabelRef, ContainsDigits, ArgBytes, TwoBytes, Sum,
         ComesBack, Symbols.Lookup, IsMnemonic;
    SeenCount(table, line, address, follow);
    var d, args := Decoded(Code(line.opcode), SeenOperands(table, line, address, follow), next), line.arguments;
    forall j | 0 <= j < |args|
      ensures SourceValue(args[j]).Some? ==> (d.operands[j] == SourceValue(args[j]) <==> ComesBack(args, j, follow))
      ensures IsLabelRef(args[j]) ==> d.operands[j] == Some(
              if |args| == 1 then follow as int
              else if ContainsDigits(Drop(args[j], 1)) then 0
              else LabelSeen(table, line, address, j))
    {
      if |args| == 1 { SeenLone(table, line, address, follow); } else { SeenOne(table, line, address, follow, j); }
    }
  }

  lemma SeenCount(table: Table, line: Line, address: int, follow: byte)
    requires WellFramed(table, line, address)
    ensures |SeenOperands(table, line, address, follow)| == |line.arguments|
    ensures ValidLine(line)
  {
    if |line.arguments| == 1 { Widths(table, line.arguments[0], PastOpcode(address)); }
  }

  lemma SeenLone(table: Table, line: Line, address: int, follow: byte)
    requires WellFramed(table, line, address) && |line.arguments| == 1
    ensures var arg, ops := line.arguments[0], SeenOperands(table, line, address, follow);
            && |ops| == 1
            && (SourceValue(arg).Some? ==> (ops[0] == SourceValue(arg) <==> ComesBack(line.arguments, 0, follow)))
            && (IsLabelRef(arg) ==> ops[0] == Some(follow as int))
  {
    hide Code, SourceValue, IsLabelRef, Atoi, BigEndian, LosesDigit;
    var arg := line.arguments[0];
    LoneIsWord(table, line, address);
    if SourceValue(arg).Some? { LoneNumberComesBack(arg, follow); }
    if IsLabelRef(arg) {
      LabelValueZero(arg);
      LoneSum(0, follow);
    }
  }

  lemma LabelValueZero(arg: string)
    requires IsLabelRef(arg)
    ensures LoneValue(arg) == 0
  {
    ColonIsZero(Drop(arg, 1));
  }

  lemma SeenOne(table: Table, line: Line, address: int, follow: byte, j: nat)
    requires ValidLine(line) && |line.arguments| > 1 && j < |line.arguments|
    ensures var args, ops := line.arguments, SeenOperands(table, line, address, follow);
            && |ops| == |args|
            && (SourceValue(args[j]).Some? ==> (ops[j] == SourceValue(args[j]) <==> ComesBack(args, j, follow)))
            && (IsLabelRef(args[j]) ==> ops[j] == Some(
                 if ContainsDigits(Drop(args[j], 1)) then 0
                 else LabelSeen(table, line, address, j)))
  {
    hide Code, SourceValue, IsLabelRef, ArgBytes, Sum, TwoBytes, LosesDigit, ContainsDigits, ArgSums, ArgsBytes,
         Symbols.Lookup, IsMnemonic;
    var args, a := line.arguments, PastOpcode(address) + 1;
    ArgSumAt(table, args, |args|, j, a);
    var at := a + |ArgsBytes(table, args, j, a)|;
    if SourceValue(args[j]).Some? { NumberComesBack(table, args[j], at); }
    if IsLabelRef(args[j]) { LabelSum(table, args[j], at); }
  }

  /** The operands as the text has them. */
  function TextOperands(args: seq<string>): (r: seq<Option<int>>)
    ensures |r| == |args| && forall j | 0 <= j < |r| :: r[j] == SourceValue(args[j])
  {
    seq(|args|, j requires 0 <= j < |args| => SourceValue(args[j]))
  }

  /** A well-framed line whose operands all name numbers is executed as written if and only
      if every one of them comes back. */
  lemma AsWritten(table: Table, line: Line, address: int, follow: byte)
    requires WellFramed(table, line, address)
    requires forall j | 0 <= j < |line.arguments| :: SourceValue(line.arguments[j]).Some?
    ensures ValidLine(line)
    ensures SeenOperands(table, line, address, follow) == TextOperands(line.arguments) <==>
            forall j | 0 <= j < |line.arguments| :: ComesBack(line.arguments, j, follow)
  {
    hide SourceValue, IsLabelRef, ComesBack, ContainsDigits, Symbols.Lookup, Sum, TwoBytes, Code, SeenOperands,
         WellFramed;
    SeenCount(table, line, address, follow);
    SeenExecutes(table, line, address, follow, 0);
    var args, seen, texts := line.arguments, SeenOperands(table, line, address, follow), TextOperands(line.arguments);
    forall j | 0 <= j < |args| ensures seen[j] == texts[j] <==> ComesBack(args, j, follow) {}
    if forall j | 0 <= j < |args| :: ComesBack(args, j, follow) { assert seen == texts; }
  }

  // ---------------------------------------------------------------- an instance

  lemma Texts34()
    ensures SourceValue("%1") == Some(1) && SourceValue("34") == Some(34) && SourceValue("r1") == Some(1)
    ensures Atoi(Drop("34", 1)) == 4
  {
    assert "%1"[1..] == "1" && "r1"[1..] == "1" && "34"[1..] == "4";
    assert Text.Digits("1", 0) == 1 && Text.Digits("4", 0) == 4;
    assert Text.Digits("4", 3) == 34;
    assert Span("34", Blanks) == 0;
  }

  /** `and %1,34,r1` is assembled with 4 for 34 and executes with operands 1, 4, 1. */
  lemma BareNumberLosesDigit(table: Table, address: int, follow: byte)
    ensures var line := Line("and", ["%1", "34", "r1"]);
            && Parse("and %1,34,r1\n").Some? && Parse("and %1,34,r1\n").value.0.arguments == line.arguments
            && WellFramed(table, line, address) && SourceValue("34") == Some(34)
            && SeenOperands(table, line, address, follow) == [Some(1), Some(4), Some(1)]
  {
    hide Parse, ArgBytes, WellFramed, SeenOperands;
    ParseAnd();
    SeenAnd(table, address, follow);
    Texts34();
  }

  lemma ParseAnd()
    ensures Parse("and %1,34,r1\n").Some?
    ensures Parse("and %1,34,r1\n").value.0.arguments == ["%1", "34", "r1"]
  {
    hide Parse, Render, WellFormed, Arguments;
    var a, b, c := Operand(" ", "%1"), Operand(",", "34"), Operand(",", "r1");
    var st := Statement("", "", "", "and", [a, b, c], "\n");
    RenderThree(st, a, b, c);
    assert Print(a) + (Print(b) + Print(c)) + st.finish == " %1,34,r1\n";
    assert st.lead + (st.gap + (st.mnemonic + (Print(a) + (Print(b) + Print(c)) + st.finish))) == "and %1,34,r1\n";
    OrdinaryAnd(st, a, b, c);
    PrintThenParse(st);
    KeepThree(st, a, b, c);
    assert LastBlanks(",") == "" by { assert ","[1..] == ""; }
    assert Kept(a) == "%1" && Kept(b) == "34" && Kept(c) == "r1";
  }

  lemma OrdinaryAnd(st: Statement, a: Operand, b: Operand, c: Operand)
    requires a == Operand(" ", "%1") && b == Operand(",", "34") && c == Operand(",", "r1")
    requires st == Statement("", "", "", "and", [a, b, c], "\n")
    ensures WellFormed(st)
  {
    Texts34();
    assert Print(a)[0] == ' ';
    assert "\n"[1..] == "" && Span("\n", Blanks) == 1;
  }

  lemma RenderThree(st: Statement, a: Operand, b: Operand, c: Operand)
    requires st.name == "" && st.operands == [a, b, c]
    ensures Render(st) == st.lead + (st.gap + (st.mnemonic + (Print(a) + (Print(b) + Print(c)) + st.finish)))
  {
    var os := st.operands;
    assert os[1..][0] == b && os[1..][1..] == [c] && [c][1..] == [];
    assert Tail([c]) == Print(c) + "";
    assert Tail(os[1..]) == Print(b) + Tail([c]);
    assert Tail(os) == Print(a) + Tail(os[1..]);
    assert "" + AfterLabel(st) == AfterLabel(st);
  }

  lemma KeepThree(st: Statement, a: Operand, b: Operand, c: Operand)
    requires st.operands == [a, b, c]
    ensures Arguments(st) == [Kept(a), Kept(b), Kept(c)] == Parsed(st).arguments
  {
  }

  lemma SeenAnd(table: Table, address: int, follow: byte)
    ensures var line := Line("and", ["%1", "34", "r1"]);
            && WellFramed(table, line, address)
            && SeenOperands(table, line, address, follow) == [Some(1), Some(4), Some(1)]
  {
    hide ArgBytes, ArgSums, ArgsBytes, Sum, Code, SourceValue, Atoi;
    Texts34();
    MnemonicCode(5);
    var line, a := Line("and", ["%1", "34", "r1"]), PastOpcode(address) + 1;
    var args := line.arguments;
    forall i | 0 <= i < 3
      ensures ArgSums(table, args, 3, a)[i] == Some(if i == 1 then 4 else 1)
      ensures FramedArg(table, args[i], a + |ArgsBytes(table, args, i, a)|)
    {
      var at := a + |ArgsBytes(table, args, i, a)|;
      ArgSumAt(table, args, 3, i, a);
      WrittenHere(table, at);
      ArgExact(table, args[i], at);
    }
  }

  lemma WrittenHere(table: Table, address: int)
    ensures Written(table, "%1", address) == 1 && FramedArg(table, "%1", address)
    ensures Written(table, "34", address) == 4 && FramedArg(table, "34", address)
    ensures Written(table, "r1", address) == 1 && FramedArg(table, "r1", address)
  {
    Texts34();
    assert "%1"[1..] == "1" && "r1"[1..] == "1";
    assert IsDigit("1"[0]);
    ModUnique(1, 256, 0, 1);
  }
}
