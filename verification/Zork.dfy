/** One of the champions that come with the program, players/zork.s. */
module Zork {
  import opened Bytes
  import opened OpTable
  import opened Wrappers
  import opened Text
  import opened Lexemes
  import opened Printing
  import opened Drift
  import opened Encoder
  import opened RoundTrip
  import opened SourceNumbers
  import opened TwoPass
  import Parser

  /** The lines of the file. */
  function File(): seq<string>
  {
    [".name \"zork\"\n",
     ".comment \"I'M ALIIIIVE\"\n",
     "\n",
     "l2:\t\tsti r1,%:live,%1\n",
     "\t\tand r1,%0,r1\n",
     "\n",
     "live:\tlive %1\n",
     "\t\tzjmp %:live\n"]
  }

  function Plain(finish: string): Statement
  {
    Statement("", "", "", "", [], finish)
  }

  function Sti(): Statement
  {
    Statement("", "l2", "\t\t", "sti", [Operand(" ", "r1"), Operand(",", "%:live"), Operand(",", "%1")], "\n")
  }

  function And(): Statement
  {
    Statement("\t\t", "", "", "and", [Operand(" ", "r1"), Operand(",", "%0"), Operand(",", "r1")], "\n")
  }

  function Live(): Statement
  {
    Statement("", "live", "\t", "live", [Operand(" ", "%1")], "\n")
  }

  function Zjmp(): Statement
  {
    Statement("\t\t", "", "", "zjmp", [Operand(" ", "%:live")], "\n")
  }

  function Source(): seq<Statement>
  {
    [Plain(".name \"zork\"\n"), Plain(".comment \"I'M ALIIIIVE\"\n"), Plain("\n"), Sti(), And(), Plain("\n"),
     Live(), Zjmp()]
  }

  function Program(): seq<Line>
  {
    [Line("sti", ["r1", "%:live", "%1"]), Line("and", ["r1", "%0", "r1"]),
     Line("live", ["%1"]), Line("zjmp", ["%:live"])]
  }

  lemma TailOne(a: Operand)
    ensures Tail([a]) == Print(a)
  {
    assert [a][1..] == [];
    assert Print(a) + "" == Print(a);
  }

  lemma TailThree(a: Operand, b: Operand, c: Operand)
    ensures Tail([a, b, c]) == Print(a) + (Print(b) + Print(c))
    ensures Tail([a]) == Print(a)
  {
    TailOne(a);
    TailOne(c);
    assert [a, b, c][1..] == [b, c] && [b, c][1..] == [c];
    assert Tail([b, c]) == Print(b) + Tail([c]);
    assert Tail([a, b, c]) == Print(a) + Tail([b, c]);
  }

  lemma PlainText(f: string)
    ensures Render(Plain(f)) == f
  {
  }

  lemma StiText()
    ensures Render(Sti()) == "l2:\t\tsti r1,%:live,%1\n"
  {
    hide Tail;
    TailThree(Operand(" ", "r1"), Operand(",", "%:live"), Operand(",", "%1"));
  }

  lemma AndText()
    ensures Render(And()) == "\t\tand r1,%0,r1\n"
  {
    hide Tail;
    TailThree(Operand(" ", "r1"), Operand(",", "%0"), Operand(",", "r1"));
  }

  lemma LoneTexts()
    ensures Render(Live()) == "live:\tlive %1\n"
    ensures Render(Zjmp()) == "\t\tzjmp %:live\n"
  {
    hide Tail;
    var o := Operand(" ", "%1");
    TailThree(o, o, o);
    o := Operand(" ", "%:live");
    TailThree(o, o, o);
  }

  lemma IsZork()
    ensures Lines(Source()) == File()
  {
    hide Render;
    PlainText(".name \"zork\"\n");
    PlainText(".comment \"I'M ALIIIIVE\"\n");
    PlainText("\n");
    StiText();
    AndText();
    LoneTexts();
  }

  // ---------------------------------------------------------------- first pass

  lemma Operands()
    ensures IsOperand("r1") && IsOperand("%:live") && IsOperand("%1") && IsOperand("%0")
    ensures !IsNumber("r1") && !IsNumber("%:live") && !IsNumber("%1") && !IsNumber("%0")
    ensures IsRegister("r1") && IsLabelRef("%:live") && IsDirect("%1") && IsDirect("%0")
    ensures !IsLabelRef("r1") && !IsLabelRef("%1") && !IsLabelRef("%0") && !IsDirect("r1") && !IsDirect("%:live")
    ensures !IsRegister("%:live") && !IsRegister("%1") && !IsRegister("%0")
  {
    assert "r1"[1..] == "1" && "%1"[1..] == "1" && "%0"[1..] == "0" && "%:live"[2..] == "live";
    assert "%:live"[1..][0] == ':';
  }

  lemma PlainOk(f: string)
    requires OneLine(f) && (IsFinish(f) || IsDirective(f))
    ensures WellFormed(Plain(f)) && OneLine(Render(Plain(f)))
  {
    PlainText(f);
  }

  lemma Ends()
    ensures IsFinish("\n") && IsDirective(".name \"zork\"\n") && IsDirective(".comment \"I'M ALIIIIVE\"\n")
  {
    assert "\n"[1..] == "";
  }

  lemma StiOk()
    ensures WellFormed(Sti()) && OneLine(Render(Sti())) && Arguments(Sti()) == ["r1", "%:live", "%1"]
  {
    hide IsOperand, IsNumber, Render;
    Operands();
    Ends();
    StiText();
    assert Print(Sti().operands[0])[0] == ' ';
  }

  lemma AndOk()
    ensures WellFormed(And()) && OneLine(Render(And())) && Arguments(And()) == ["r1", "%0", "r1"]
  {
    hide IsOperand, IsNumber, Render;
    Operands();
    Ends();
    AndText();
    assert Print(And().operands[0])[0] == ' ';
  }

  lemma LiveOk()
    ensures WellFormed(Live()) && OneLine(Render(Live())) && Arguments(Live()) == ["%1"]
  {
    hide IsOperand, IsNumber, Render;
    Operands();
    Ends();
    LoneTexts();
    assert Print(Live().operands[0])[0] == ' ';
  }

  lemma ZjmpOk()
    ensures WellFormed(Zjmp()) && OneLine(Render(Zjmp())) && Arguments(Zjmp()) == ["%:live"]
  {
    hide IsOperand, IsNumber, Render;
    Operands();
    Ends();
    LoneTexts();
    assert Print(Zjmp().operands[0])[0] == ' ';
  }

  lemma SourceOk()
    ensures Ordinary(Source())
  {
    hide WellFormed, OneLine, Render, IsFinish, IsDirective, Plain, Sti, And, Live, Zjmp;
    Ends();
    FinishOneLine();
    PlainOk(".name \"zork\"\n");
    PlainOk(".comment \"I'M ALIIIIVE\"\n");
    PlainOk("\n");
    StiOk();
    AndOk();
    LiveOk();
    ZjmpOk();
  }

  lemma FinishOneLine()
    ensures forall f | IsFinish(f) || IsDirective(f) :: OneLine(f)
  {
  }

  lemma ProgramIs()
    ensures Instructions(Source(), 6) == Program()[..2] && Instructions(Source(), 8) == Program()
    ensures LastNamed(Source(), 8, "live") == Some(6)
  {
    hide Arguments;
    StiOk();
    AndOk();
    LiveOk();
    ZjmpOk();
    var sts := Source();
    assert Instructions(sts, 3) == [];
    assert Instructions(sts, 5) == Program()[..2];
    assert Instructions(sts, 7) == Program()[..3];
    assert "live" <= "live" + ":";
  }

  lemma DriftThere()
    ensures SourceDrift(Source(), 6) == 2
  {
    hide StatementDrift;
    Drifts();
    assert SourceDrift(Source(), 3) == 0;
    assert SourceDrift(Source(), 5) == 2;
  }

  lemma Drifts()
    ensures StatementDrift(Sti()) == 2 && StatementDrift(And()) == 0
    ensures forall f :: StatementDrift(Plain(f)) == 0
  {
    hide IsRegister, IsLabelRef, IsDirect, Arguments, ContainsDigits, Atoi;
    StiOk();
    AndOk();
    Operands();
    Numbers();
    assert ["r1", "%:live", "%1"][1..] == ["%:live", "%1"] && ["%:live", "%1"][1..] == ["%1"] && ["%1"][1..] == [];
    assert ["r1", "%0", "r1"][1..] == ["%0", "r1"] && ["%0", "r1"][1..] == ["r1"] && ["r1"][1..] == [];
  }

  lemma Numbers()
    ensures Drop("%1", 1) == "1" && Drop("%0", 1) == "0" && Drop("%:live", 1) == ":live" && Drop("%:live", 2) == "live"
    ensures Atoi("1") == 1 && Atoi("0") == 0 && !ContainsDigits(":live") && ContainsDigits("1") && ContainsDigits("0")
  {
    assert Text.Digits("1", 0) == 1 && Text.Digits("0", 0) == 0;
    assert IsDigit("1"[0]) && IsDigit("0"[0]);
  }

  lemma WidthsAre()
    ensures LineWidth(["r1", "%:live", "%1"]) == 7 && LineWidth(["r1", "%0", "r1"]) == 8 && LineWidth(["%1"]) == 5
    ensures ArgsWidth(["r1", "%:live", "%1"], 1) == 1 && ArgsWidth(["%:live"], 0) == 0
  {
    hide Atoi, ContainsDigits;
    Numbers();
    var a, b := ["r1", "%:live", "%1"], ["r1", "%0", "r1"];
    assert ArgsWidth(a, 1) == 1 && ArgsWidth(a, 2) == 3 && ArgsWidth(a, 3) == 5;
    assert ArgsWidth(b, 1) == 1 && ArgsWidth(b, 2) == 5 && ArgsWidth(b, 3) == 6;
  }

  lemma Known()
    ensures AllValid(Program())
  {
    MnemonicCode(10);
    MnemonicCode(5);
    MnemonicCode(0);
    MnemonicCode(8);
  }

  lemma Offsets(table: Table)
    ensures AllValid(Program()) && AllValid(Program()[..2])
    ensures |ProgramBytes(table, Program(), 0)| == 0 && |ProgramBytes(table, Program(), 3)| == 20
    ensures |ProgramBytes(table, Program()[..2], 2)| == 15
  {
    hide LineBytes, LineWidth, AddressAfter;
    Known();
    WidthsAre();
    var p := Program();
    BytesOfPrefix(table, p[..2], p, 2);
    LineWidths(table, p[0], ProgramAddress(table, p, 0));
    LineWidths(table, p[1], ProgramAddress(table, p, 1));
    LineWidths(table, p[2], ProgramAddress(table, p, 2));
    assert |ProgramBytes(table, p, 1)| == 7;
    assert |ProgramBytes(table, p, 2)| == 15;
  }

  lemma LabelText()
    ensures IsLabel("%:live") && At("%:live", 1) == ':'
    ensures FirstOperand(Program()) == 0
  {
    Numbers();
  }

  lemma JumpMisframed(table: Table)
    ensures !WellFramedProgram(table, Program())
  {
    LabelText();
    Numbers();
    assert !WellFramed(table, Program()[3], 0) by { assert LoneWidth("%:live") == 2; }
  }

  /** The file is an ordinary source; it is assembled to four instructions, and its two label
      operands to 15 and -3, at offsets 3 and 21 of the output. The lone one is misframed. */
  lemma ZorkAssembled()
    ensures Lines(Source()) == File() && Parser.Terminates(File())
    ensures var pass := Parser.FirstPass(File(), 8);
            && pass.program == Program() && AllValid(Program()) && !WellFramedProgram(pass.table, Program())
            && var output := ProgramBytes(pass.table, Program(), 4);
               |output| >= 23 && output[3..5] == [0, 15] && output[21..23] == [255, 253]
  {
    hide *;
    Counts();
    IsZork();
    SourceOk();
    ProgramIs();
    OrdinarySource(Source(), 8, "live");
    Known();
    JumpMisframed(Parser.FirstPass(File(), 8).table);
    ZorkDisplacements();
  }

  lemma ZorkDisplacements()
    requires Ordinary(Source()) && Parser.Terminates(Lines(Source())) && AllValid(Program()) && |Program()| == 4
    ensures var output := ProgramBytes(Parser.FirstPass(Lines(Source()), 8).table, Program(), 4);
            |output| >= 23 && output[3..5] == [0, 15] && output[21..23] == [255, 253]
  {
    hide Ordinary, Source, Parser.FirstPass, ProgramBytes, TwoBytes, Instructions, SourceDrift, LastNamed, IsLabel,
         FirstOperand, Parser.Terminates;
    Counts();
    ProgramIs();
    DriftThere();
    LabelText();
    Numbers();
    WidthsAre();
    var table := Parser.FirstPass(Lines(Source()), 8).table;
    Offsets(table);
    SourceDisplacement(Source(), 0, 1);
    SourceDisplacement(Source(), 3, 0);
    Bits();
  }

  lemma Counts()
    ensures |Source()| == 8 && |Program()| == 4 && |File()| == 8
    ensures Program()[0].arguments == ["r1", "%:live", "%1"] && Program()[3].arguments == ["%:live"]
  {
  }

  lemma Bits()
    ensures TwoBytes(15) == [0, 15] && TwoBytes(-3) == [255, 253]
  {
  }

  // ---------------------------------------------------------------- the output

  const CODE: seq<byte> := [11, 104, 1, 0, 15, 0, 1, 6, 100, 1, 0, 0, 0, 0, 1, 1, 0, 0, 0, 1, 9, 255, 253]

  lemma ThreeArgs(table: Table, args: seq<string>, a: int)
    requires |args| == 3
    ensures var x := ArgBytes(table, args[0], a);
            var y := ArgBytes(table, args[1], a + |x|);
            ArgsBytes(table, args, 3, a) == x + y + ArgBytes(table, args[2], a + |x + y|)
  {
    hide ArgBytes;
    var x := ArgBytes(table, args[0], a);
    assert ArgsBytes(table, args, 0, a) == [] && [] + x == x;
    assert ArgsBytes(table, args, 1, a) == x;
    assert ArgsBytes(table, args, 2, a) == x + ArgBytes(table, args[1], a + |x|);
  }

  lemma NumbersEncoded(table: Table, a: int)
    ensures ArgBytes(table, "r1", a) == [1] && ArgBytes(table, "%1", a) == [0, 1]
    ensures ArgBytes(table, "%0", a) == [0, 0, 0, 0]
    ensures LoneBytes(table, "%1", a) == [0, 0, 0, 1]
  {
    assert Decimal(1) == "1" && Decimal(0) == "0";
    assert "r" + "1" == "r1" && "%" + "1" == "%1" && "%" + "0" == "%0";
    DecimalsEncoded(table, 1, " ", a);
    DecimalsEncoded(table, 0, " ", a);
  }

  lemma CodesAre()
    ensures AllValid(Program()) && |Program()| == 4
    ensures IsMnemonic("sti") && IsMnemonic("and") && IsMnemonic("live") && IsMnemonic("zjmp")
    ensures Code("sti") == 11 && Code("and") == 6 && Code("live") == 1 && Code("zjmp") == 9
    ensures Descriptor(["r1", "%:live", "%1"], 3) == 104 && Descriptor(["r1", "%0", "r1"], 3) == 100
  {
    MnemonicCode(10);
    MnemonicCode(5);
    MnemonicCode(0);
    MnemonicCode(8);
  }

  lemma LinesEncoded(table: Table, a: int)
    ensures AllValid(Program()) && |Program()| == 4
    ensures var b := LineBytes(table, Program()[0], a);
            |b| == 7 && b[..3] == [11, 104, 1] && b[5..] == [0, 1]
    ensures LineBytes(table, Program()[1], a) == [6, 100, 1, 0, 0, 0, 0, 1]
    ensures LineBytes(table, Program()[2], a) == [1, 0, 0, 0, 1]
    ensures var b := LineBytes(table, Program()[3], a); |b| == 3 && b[0] == 9
  {
    hide ArgBytes, LoneBytes, ArgsBytes, Descriptor, Code, Decimal;
    CodesAre();
    Counts();
    var past := PastOpcode(a) + 1;
    ThreeArgs(table, ["r1", "%:live", "%1"], past);
    ThreeArgs(table, ["r1", "%0", "r1"], past);
    var x := ArgBytes(table, "%:live", past + 1);
    LabelText();
    LabelArgBytes(table, "%:live", past + 1);
    LabelArgBytes(table, "%:live", PastOpcode(a));
    NumbersEncoded(table, past);
    NumbersEncoded(table, past + 3);
    NumbersEncoded(table, past + 1);
    NumbersEncoded(table, past + 5);
    NumbersEncoded(table, PastOpcode(a));
  }

  /** The 23 bytes the assembler writes for the file. */
  lemma ZorkBytes()
    ensures Parser.Terminates(File()) && |File()| == 8
    ensures var pass := Parser.FirstPass(File(), 8);
            pass.program == Program() && AllValid(Program()) && ProgramBytes(pass.table, Program(), 4) == CODE
  {
    hide LineBytes, AddressAfter, Parser.FirstPass, Parser.Terminates, File, AllValid, ProgramBytes, Program;
    Counts();
    ZorkAssembled();
    Joined(Parser.FirstPass(File(), 8).table);
  }

  lemma FourLines(table: Table, p: seq<Line>)
    requires |p| == 4 && AllValid(p)
    ensures ValidLine(p[0]) && ValidLine(p[1]) && ValidLine(p[2]) && ValidLine(p[3])
    ensures ProgramBytes(table, p, 4) ==
            LineBytes(table, p[0], ProgramAddress(table, p, 0)) + LineBytes(table, p[1], ProgramAddress(table, p, 1))
            + LineBytes(table, p[2], ProgramAddress(table, p, 2)) + LineBytes(table, p[3], ProgramAddress(table, p, 3))
  {
    hide LineBytes, AddressAfter, ValidLine;
    var a := LineBytes(table, p[0], ProgramAddress(table, p, 0));
    assert ProgramBytes(table, p, 0) == [] && [] + a == a;
    assert ProgramBytes(table, p, 1) == a;
    assert ProgramBytes(table, p, 2) == a + LineBytes(table, p[1], ProgramAddress(table, p, 1));
    assert ProgramBytes(table, p, 3) == ProgramBytes(table, p, 2) + LineBytes(table, p[2], ProgramAddress(table, p, 2));
  }

  lemma Spliced(a: seq<byte>, d: seq<byte>, out: seq<byte>)
    requires |a| == 7 && a[..3] == [11, 104, 1] && a[5..] == [0, 1] && |d| == 3 && d[0] == 9
    requires out == a + [6, 100, 1, 0, 0, 0, 0, 1] + [1, 0, 0, 0, 1] + d
    ensures |out| == 23 && (out[3..5] == [0, 15] && out[21..23] == [255, 253] ==> out == CODE)
  {
    assert a == a[..3] + a[3..5] + a[5..] && d == [d[0]] + d[1..3];
    assert out[3..5] == a[3..5] && out[21..23] == d[1..3];
  }

  lemma Joined(table: Table)
    requires AllValid(Program()) && |Program()| == 4
    ensures var p := ProgramBytes(table, Program(), 4);
            |p| == 23 && (p[3..5] == [0, 15] && p[21..23] == [255, 253] ==> p == CODE)
  {
    hide LineBytes, AddressAfter, Program, AllValid, ProgramBytes, ProgramAddress, CODE;
    var p := Program();
    FourLines(table, p);
    LinesEncoded(table, ProgramAddress(table, p, 0));
    LinesEncoded(table, ProgramAddress(table, p, 1));
    LinesEncoded(table, ProgramAddress(table, p, 2));
    LinesEncoded(table, ProgramAddress(table, p, 3));
    Spliced(LineBytes(table, p[0], ProgramAddress(table, p, 0)), LineBytes(table, p[3], ProgramAddress(table, p, 3)),
            ProgramBytes(table, p, 4));
  }
}
