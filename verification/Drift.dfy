/** How many bytes the first pass counts for a line beyond those the second pass writes: a
    closed form over the shapes of the line's operands. */
module Drift {
  import opened Wrappers
  import opened Text
  import opened Lexer
  import opened Parser
  import opened Lexemes
  import opened Printing
  import opened Encoder

  // ---------------------------------------------------------------- widths

  /** How many bytes a line takes in the output, whatever labels and addresses are. */
  function ArgsWidth(args: seq<string>, n: nat): nat
    requires n <= |args|
  {
    if n == 0 then 0 else ArgsWidth(args, n - 1) + ArgWidth(args[n - 1])
  }

  function LineWidth(args: seq<string>): nat
  {
    if |args| == 0 then 1 else if |args| == 1 then 1 + LoneWidth(args[0]) else 2 + ArgsWidth(args, |args|)
  }

  lemma {:induction false} ArgsWidths(table: Table, args: seq<string>, n: nat, address: int)
    requires n <= |args|
    ensures |ArgsBytes(table, args, n, address)| == ArgsWidth(args, n)
    decreases n
  {
    hide ArgBytes, ArgWidth;
    if n > 0 {
      ArgsWidths(table, args, n - 1, address);
      Widths(table, args[n - 1], address + |ArgsBytes(table, args, n - 1, address)|);
    }
  }

  lemma LineWidths(table: Table, line: Line, address: int)
    requires ValidLine(line)
    ensures |LineBytes(table, line, address)| == LineWidth(line.arguments)
  {
    hide LoneBytes, LoneWidth, Code;
    var args := line.arguments;
    if |args| == 1 { Widths(table, args[0], PastOpcode(address)); }
    ArgsWidths(table, args, |args|, PastOpcode(address) + 1);
  }

  lemma {:induction false} WidthFront(args: seq<string>, n: nat)
    requires 0 < n <= |args|
    ensures ArgsWidth(args, n) == ArgWidth(args[0]) + ArgsWidth(args[1..], n - 1)
    decreases n
  {
    hide ArgWidth;
    if n > 1 { WidthFront(args, n - 1); }
    else { assert ArgsWidth(args, 0) == 0; }
  }

  // ---------------------------------------------------------------- a line's tokens

  /** The tokens that the argument loop keeps while it has room. */
  function KeptTokens(s: string, room: nat): (r: seq<Token>)
    ensures |r| <= room
    decreases |s|
  {
    var (t, n) := Lex(s);
    Progress(s);
    if Ends(t.kind) || t.kind == Unknown then []
    else if room > 0 && t.text != "" then [t] + KeptTokens(s[n..], room - 1)
    else KeptTokens(s[n..], room)
  }

  function TokenTexts(ts: seq<Token>): (r: seq<string>)
    ensures |r| == |ts|
  {
    if ts == [] then [] else [ts[0].text] + TokenTexts(ts[1..])
  }

  function Nominals(ts: seq<Token>): nat
  {
    if ts == [] then 0 else Nominal(ts[0].kind) + Nominals(ts[1..])
  }

  lemma {:induction false} KeptAre(s: string, seen: seq<string>)
    requires |seen| <= 3 && ParseArguments(s, seen).Some?
    ensures var k := KeptTokens(s, 3 - |seen|); ParseArguments(s, seen) == Some((seen + TokenTexts(k), Nominals(k)))
    decreases |s|
  {
    hide Lex;
    var (t, n) := Lex(s);
    Progress(s);
    if Ends(t.kind) {
      assert seen + [] == seen;
    } else if |seen| < 3 && t.text != "" {
      KeptAre(s[n..], seen + [t.text]);
      var k := KeptTokens(s[n..], 2 - |seen|);
      assert ([t] + k)[1..] == k;
      assert seen + [t.text] + TokenTexts(k) == seen + ([t.text] + TokenTexts(k));
    } else {
      KeptAre(s[n..], seen);
    }
  }

  /** The operands of a line, as the parser keeps them. */
  function LineTokens(s: string): (r: seq<Token>)
    ensures |r| <= 3
  {
    var (t, n) := Lex(s);
    if Ends(t.kind) then []
    else KeptTokens(if t.kind == Label then s[n..][Lex(s[n..]).1..] else s[n..], 3)
  }

  lemma ParsedFrom(s: string)
    requires Parse(s).Some?
    ensures var (line, delta) := Parse(s).value;
            && line.arguments == TokenTexts(LineTokens(s))
            && delta == Nominals(LineTokens(s)) + if line.lineType == Instruction then 2 else 0
  {
    hide Lex, KeptTokens, ParseArguments;
    var (t, n) := Lex(s);
    if !Ends(t.kind) { KeptAre(if t.kind == Label then s[n..][Lex(s[n..]).1..] else s[n..], []); }
  }

  /** What the text of a token that has one looks like. Directives may hold anything. */
  predicate OfKind(t: Token)
  {
    match t.kind
    case Register => IsRegister(t.text)
    case Indirect => IsDirect(t.text) || IsNumber(t.text)
    case Direct => true
    case Instruction => IsWord(t.text)
    case Label => |t.text| >= 2 && t.text[|t.text| - 1] == ':' && IsWord(t.text[..|t.text| - 1])
    case _ => t.text == ""
  }

  lemma RunAll(s: string, p: nat, chars: Class)
    requires p <= |s|
    ensures AllIn(s[p..Run(s, p, chars)], chars)
    ensures p < |s| && In(s[p], chars) ==> Run(s, p, chars) > p
  {
    SpanAll(s[p..], chars);
    forall i | 0 <= i < Run(s, p, chars) - p ensures In(s[p..Run(s, p, chars)][i], chars) {
      assert s[p..][i] == s[p + i];
    }
  }

  lemma WordToken(s: string, w: nat)
    requires w < |s| && IsAlpha(s[w]) && s[w] != 'r'
    ensures OfKind(TokenOf(s, PieceAt(s, 0, w)))
  {
    hide Run;
    RunAll(s, w, Word);
    var e := Run(s, w, Word);
    assert s[w..e][0] == s[w];
    if At(s, e) == ':' { assert s[w..e + 1][..e - w] == s[w..e]; }
  }

  lemma NumberParts(b: string, c: char, d: string)
    requires AllIn(b, Blanks) && (IsDigit(c) || c == '-') && AllIn(d, DigitChars)
    ensures IsNumber(b + ([c] + d))
  {
    SpanIs(b, [c] + d, Blanks);
    assert (b + ([c] + d))[|b| + 1..] == d;
  }

  lemma AllInRest(s: string, chars: Class)
    requires s != "" && AllIn(s, chars)
    ensures AllIn(s[1..], chars)
  {
  }

  lemma NumberToken(s: string, w: nat)
    requires w < |s| && Run(s, 0, Blanks) == w && (IsDigit(s[w]) || s[w] == '-')
    ensures OfKind(TokenOf(s, PieceAt(s, 0, w)))
  {
    hide Run, AllIn, IsNumber;
    var from := if s[w] == '-' then w + 1 else w;
    var e := Run(s, from, DigitChars);
    RunAll(s, 0, Blanks);
    RunAll(s, from, DigitChars);
    assert from == w ==> In(s[w], DigitChars);
    if from == w {
      AllInRest(s[w..e], DigitChars);
      assert s[w..e][1..] == s[w + 1..e];
    }
    NumberParts(s[0..w], s[w], s[w + 1..e]);
    assert s[0..e] == s[0..w] + ([s[w]] + s[w + 1..e]);
  }

  lemma OtherToken(s: string, w: nat)
    requires w < |s| && !IsSpace(s[w]) && !IsDigit(s[w]) && s[w] != '-' && (IsAlpha(s[w]) ==> s[w] == 'r')
    ensures OfKind(TokenOf(s, PieceAt(s, 0, w)))
  {
    hide Run;
    RunAll(s, w + 1, DigitChars);
    var e := Run(s, w + 1, DigitChars);
    assert s[w..e][1..] == s[w + 1..e];
    assert s[w..w] == "";
    if IsDigit(At(s, w + 1)) { assert In(s[w + 1], DigitChars); }
  }

  lemma TokenShape(s: string)
    ensures OfKind(Lex(s).0)
  {
    hide PieceAt, OfKind;
    var w := Run(s, 0, Blanks);
    if w < |s| {
      assert s[0..] == s;
      SpanAll(s, Blanks);
      if IsAlpha(s[w]) && s[w] != 'r' { WordToken(s, w); }
      else if IsDigit(s[w]) || s[w] == '-' { NumberToken(s, w); }
      else { OtherToken(s, w); }
    } else {
      assert OfKind(Token(Blankline, s[w..w])) by { EmptyText(); assert s[w..w] == ""; }
    }
  }

  lemma EmptyText()
    ensures OfKind(Token(Blankline, ""))
  {
  }

  lemma {:induction false} KeptShapes(s: string, room: nat)
    ensures forall i | 0 <= i < |KeptTokens(s, room)| ::
              OfKind(KeptTokens(s, room)[i]) && KeptTokens(s, room)[i].text != ""
    decreases |s|
  {
    hide Lex, OfKind;
    var (t, n) := Lex(s);
    Progress(s);
    if !Ends(t.kind) && t.kind != Unknown {
      TokenShape(s);
      KeptShapes(s[n..], if room > 0 && t.text != "" then room - 1 else room);
    }
  }

  // ---------------------------------------------------------------- the drift of a token

  /** Nominal minus actual bytes of one of several operands: a nonzero direct number takes two
      bytes less than planned, a label with a digit two more; a stray word or label, for which
      nothing is planned, takes four. What a directive leaves is not an operand at all. */
  function TokenDrift(t: Token): int
  {
    match t.kind
    case Register => 0
    case Indirect => if IsDirect(t.text) && Atoi(Drop(t.text, 1)) != 0 then 2 else 0
    case Direct =>
      if !IsLabelRef(t.text) then 2 - ArgWidth(t.text)
      else if ContainsDigits(Drop(t.text, 1)) then -2 else 0
    case _ => -4
  }

  /** The same for a lone operand, which mostly takes four bytes. */
  function LoneTokenDrift(t: Token): int
  {
    match t.kind
    case Register => -3
    case Indirect => 0
    case Direct =>
      if !IsLabelRef(t.text) then 2 - LoneWidth(t.text)
      else if ContainsDigits(Drop(t.text, 1)) then -2 else 0
    case Label => if |t.text| == 2 then -2 else -4
    case _ => -4
  }

  function TokensDrift(ts: seq<Token>): int
  {
    if ts == [] then 0 else TokenDrift(ts[0]) + TokensDrift(ts[1..])
  }

  /** The drift of an instruction with these operands. The opcode and a descriptor are always
      planned for; the descriptor is written for two operands and more. */
  function LineDrift(ts: seq<Token>): int
  {
    if |ts| == 0 then 1 else if |ts| == 1 then 1 + LoneTokenDrift(ts[0]) else TokensDrift(ts)
  }

  lemma NumberStarts(a: string)
    requires IsNumber(a)
    ensures a[0] != 'r' && a[0] != '%' && At(a, 1) != ':'
  {
    SpanAll(a, Blanks);
    var w := Span(a, Blanks);
    if w == 0 && |a| > 1 { assert a[1] == a[1..][0]; }
  }

  lemma DirectDigit(a: string)
    requires IsDirect(a) || IsRegister(a)
    ensures IsDigit(a[1]) && ContainsDigits(Drop(a, 1))
  {
    assert a[1] == a[1..][0];
    assert IsDigit(Drop(a, 1)[0]);
  }

  lemma LabelEnds(a: string)
    requires |a| >= 2 && a[|a| - 1] == ':' && IsWord(a[..|a| - 1])
    ensures At(a, 0) != '%' && At(a, 0) != 'r' && (At(a, 1) == ':' <==> |a| == 2)
  {
    assert a[0] == a[..|a| - 1][0];
    if |a| > 2 { assert a[1] == a[..|a| - 1][1]; }
  }

  lemma WordPlain(a: string)
    requires IsWord(a)
    ensures At(a, 0) != '%' && At(a, 0) != 'r' && At(a, 1) != ':'
  {
  }

  lemma TokenDriftIs(t: Token)
    requires OfKind(t) && t.text != ""
    ensures Nominal(t.kind) - ArgWidth(t.text) == TokenDrift(t)
    ensures Nominal(t.kind) - LoneWidth(t.text) == LoneTokenDrift(t)
  {
    hide Atoi, ContainsDigits, AllIn, IsNumber, IsWord;
    match t.kind
    case Register => DirectDigit(t.text);
    case Indirect => if IsDirect(t.text) { DirectDigit(t.text); } else { NumberStarts(t.text); }
    case Direct => if IsLabelRef(t.text) { ColonIsZero(Drop(t.text, 1)); }
    case Instruction => WordPlain(t.text);
    case Label => LabelEnds(t.text);
    case _ =>
  }

  lemma {:induction false} TokensDriftIs(ts: seq<Token>)
    requires forall i | 0 <= i < |ts| :: OfKind(ts[i]) && ts[i].text != ""
    ensures Nominals(ts) - ArgsWidth(TokenTexts(ts), |ts|) == TokensDrift(ts)
    decreases |ts|
  {
    hide ArgWidth, OfKind, Nominal, TokenDrift;
    if ts != [] {
      TokenDriftIs(ts[0]);
      WidthFront(TokenTexts(ts), |ts|);
      assert TokenTexts(ts)[1..] == TokenTexts(ts[1..]);
      TokensDriftIs(ts[1..]);
    }
  }

  /** The closed form: for every line on which the parser returns with an instruction, what
      the first pass adds exceeds what the second pass writes by exactly the drift. */
  lemma DriftIs(s: string)
    requires Parse(s).Some? && Parse(s).value.0.lineType == Instruction
    ensures Parse(s).value.1 == LineWidth(Parse(s).value.0.arguments) + LineDrift(LineTokens(s))
    ensures |Parse(s).value.0.arguments| <= 3
  {
    hide Parse, Lex, OfKind, ArgWidth, LoneWidth, TokenDrift, LoneTokenDrift, Nominal, KeptTokens;
    ParsedFrom(s);
    var ts := LineTokens(s);
    LineTokenShapes(s);
    TokensDriftIs(ts);
    if |ts| == 1 {
      TokenDriftIs(ts[0]);
      assert Nominals(ts[1..]) == 0;
    }
  }

  lemma LineTokenShapes(s: string)
    ensures forall i | 0 <= i < |LineTokens(s)| :: OfKind(LineTokens(s)[i]) && LineTokens(s)[i].text != ""
  {
    hide Lex, OfKind, KeptTokens;
    var (t, n) := Lex(s);
    if !Ends(t.kind) { KeptShapes(if t.kind == Label then s[n..][Lex(s[n..]).1..] else s[n..], 3); }
  }

  // ---------------------------------------------------------------- ordinary operands

  /** The drift of an operand by its text alone. */
  function ArgDrift(a: string): int
  {
    if IsLabelRef(a) && ContainsDigits(Drop(a, 1)) then -2
    else if IsDirect(a) && Atoi(Drop(a, 1)) != 0 then 2
    else 0
  }

  function LoneDrift(a: string): int
  {
    if IsRegister(a) then -3
    else if IsLabelRef(a) && ContainsDigits(Drop(a, 1)) then -2
    else 0
  }

  function ArgsDrift(args: seq<string>): int
  {
    if args == [] then 0 else ArgDrift(args[0]) + ArgsDrift(args[1..])
  }

  /** The drift of a line of source: of its instruction, if it has one. */
  function StatementDrift(st: Statement): int
  {
    var args := Arguments(st);
    if st.mnemonic == "" then 0
    else if |args| == 0 then 1 else if |args| == 1 then 1 + LoneDrift(args[0]) else ArgsDrift(args)
  }

  lemma OperandToken(a: string)
    requires IsOperand(a)
    ensures OfKind(Token(KindOf(a), a))
    ensures TokenDrift(Token(KindOf(a), a)) == ArgDrift(a)
    ensures LoneTokenDrift(Token(KindOf(a), a)) == LoneDrift(a)
  {
    hide Atoi, ContainsDigits, AllIn, IsNumber;
    if IsNumber(a) { NumberStarts(a); }
    if IsDirect(a) { DirectDigit(a); }
  }

  lemma {:induction false} ArgsDriftIs(args: seq<string>)
    requires forall i | 0 <= i < |args| :: IsOperand(args[i])
    ensures Sizes(args) - ArgsWidth(args, |args|) == ArgsDrift(args)
    decreases |args|
  {
    hide ArgWidth, IsOperand, KindOf, Nominal, ArgDrift, TokenDrift, OfKind;
    if args != [] {
      OperandToken(args[0]);
      OperandSome(args[0]);
      TokenDriftIs(Token(KindOf(args[0]), args[0]));
      WidthFront(args, |args|);
      ArgsDriftIs(args[1..]);
    }
  }

  lemma OperandSome(a: string)
    requires IsOperand(a)
    ensures a != ""
  {
  }

  lemma ArgumentsAreOperands(st: Statement)
    requires WellFormed(st)
    ensures forall i | 0 <= i < |Arguments(st)| :: IsOperand(Arguments(st)[i])
  {
    hide IsOperand, KindOf;
    forall i | 0 <= i < |Arguments(st)| ensures IsOperand(Arguments(st)[i]) {
      assert Spaced(st.operands[i]);
      KeptKind(st.operands[i]);
    }
  }

  /** On a line of source with ordinary operands the drift is a count over their shapes:
      labelled or not, with whatever blanks, comment and surplus operands. */
  lemma StatementDriftIs(st: Statement)
    requires WellFormed(st) && OneLine(Render(st)) && st.mnemonic != ""
    ensures Parse(Render(st)).Some? && Parse(Render(st)).value.0.lineType == Instruction
    ensures LineDrift(LineTokens(Render(st))) == StatementDrift(st)
  {
    hide *;
    PrintThenParse(st);
    ParsedInstruction(st);
    DriftIs(Render(st));
    ArgumentsAreOperands(st);
    ShapesCount(st);
  }

  lemma ParsedInstruction(st: Statement)
    ensures st.mnemonic != "" ==> Parsed(st).lineType == Instruction
    ensures Parsed(st).arguments == Arguments(st)
    ensures st.mnemonic != "" ==> Parsed(st).opcode == st.mnemonic
    ensures Parsed(st).name == if st.name == "" then "" else st.name + ":"
    ensures st.mnemonic == "" ==> Parsed(st).lineType != Instruction
  {
  }

  lemma ShapesCount(st: Statement)
    requires st.mnemonic != "" && forall i | 0 <= i < |Arguments(st)| :: IsOperand(Arguments(st)[i])
    ensures 2 + Sizes(Arguments(st)) == LineWidth(Arguments(st)) + StatementDrift(st)
  {
    hide Arguments, IsOperand, KindOf, Nominal, ArgWidth, LoneWidth, ArgDrift, LoneDrift, TokenDrift,
         LoneTokenDrift, OfKind;
    var args := Arguments(st);
    ArgsDriftIs(args);
    if |args| == 1 {
      OperandToken(args[0]);
      OperandSome(args[0]);
      TokenDriftIs(Token(KindOf(args[0]), args[0]));
      assert Sizes(args[1..]) == 0;
    }
  }
}
