/** Writing down a line of source and parsing it. */
module Printing {
  import opened Wrappers
  import opened Text
  import opened Lexer
  import opened Parser
  import opened Lexemes

  /** An operand with the blanks and commas in front of it. */
  datatype Operand = Operand(before: string, text: string)

  predicate AllSeparators(b: string)
  {
    forall i | 0 <= i < |b| :: IsSpace(b[i]) || b[i] == ','
  }

  predicate Spaced(o: Operand)
  {
    o.text != "" && IsOperand(o.text) && !IsSpace(o.text[0]) && AllSeparators(o.before)
  }

  /** Operands are kept apart by blanks, by commas or by both. */
  predicate AllSpaced(os: seq<Operand>)
  {
    && (forall i | 0 <= i < |os| :: Spaced(os[i]))
    && (forall i | 0 < i < |os| :: os[i].before != "")
  }

  function Print(o: Operand): string
  {
    o.before + o.text
  }

  /** The blanks behind the last comma. */
  function LastBlanks(b: string): string
  {
    if ',' in b then LastBlanks(b[1..]) else b
  }

  /** What the lexer makes of an operand: a number keeps the blanks directly in front. */
  function Kept(o: Operand): string
  {
    if IsNumber(o.text) then LastBlanks(o.before) + o.text else o.text
  }

  /** Operands the line has room for: the parser drops the others. */
  function Taken(os: seq<Operand>, room: nat): (r: seq<Operand>)
    ensures |r| <= room
  {
    if |os| <= room then os else os[..room]
  }

  function Texts(os: seq<Operand>): (r: seq<string>)
    ensures |r| == |os| && forall i | 0 <= i < |r| :: r[i] == Kept(os[i])
  {
    seq(|os|, i requires 0 <= i < |os| => Kept(os[i]))
  }

  /** What the first pass counts for operands. */
  function Sizes(args: seq<string>): nat
  {
    if args == [] then 0 else Nominal(KindOf(args[0])) + Sizes(args[1..])
  }

  /** The end of a line: blanks, the line feed among them, or a comment. */
  predicate IsFinish(f: string)
  {
    OneLine(f) && (Span(f, Blanks) == |f| || f[Span(f, Blanks)] == ';')
  }

  /** A directive, which takes the rest of the line. */
  predicate IsDirective(f: string)
  {
    OneLine(f) && Span(f, Blanks) < |f| && f[Span(f, Blanks)] == '.'
  }

  function DirectiveText(f: string): string
    requires IsDirective(f)
  {
    TokenOf(f, DirectiveAt(f, Span(f, Blanks) + 1)).text
  }

  function Tail(os: seq<Operand>): string
  {
    if os == [] then "" else Print(os[0]) + Tail(os[1..])
  }

  // ---------------------------------------------------------------- operands

  predicate Delimited(rest: string)
  {
    rest == "" || rest[0] == ',' || rest[0] == ';' || IsSpace(rest[0])
  }

  lemma DelimitedStops(rest: string)
    requires Delimited(rest)
    ensures Stops(rest, Word) && Stops(rest, DigitChars) && At(rest, 0) != ':'
  {
  }

  lemma LexOperand(a: string, rest: string)
    requires a != "" && IsOperand(a) && !IsSpace(a[0]) && Delimited(rest)
    ensures Lex(a + rest) == (Token(KindOf(a), a), |a|)
    ensures IsNumber(a) <==> IsDigit(a[0]) || a[0] == '-'
  {
    hide Lex, AllIn, Stops;
    DelimitedStops(rest);
    if IsRegister(a) {
      LexRegister(a, rest);
    } else if IsLabelRef(a) {
      LexLabelRef(a, rest);
    } else if IsDirect(a) {
      LexDirect(a, rest);
    } else {
      LexNumber(a, rest);
    }
  }

  lemma LexSpaced(gap: string, a: string, rest: string)
    requires a != "" && IsOperand(a) && !IsSpace(a[0]) && AllIn(gap, Blanks) && Delimited(rest)
    ensures Lex(gap + (a + rest)) == (Token(KindOf(a), if IsNumber(a) then gap + a else a), |gap| + |a|)
    ensures (gap + (a + rest))[|gap| + |a|..] == rest
  {
    hide Lex, IsOperand, IsNumber, Delimited;
    LexOperand(a, rest);
    assert (a + rest)[0] == a[0];
    NumberKind(a);
    SkipBlanks(gap, a + rest);
  }

  lemma NumberKind(a: string)
    ensures IsNumber(a) ==> KindOf(a) == Indirect
  {
  }

  lemma TakeOperand(s: string, seen: seq<string>, t: Token, n: nat)
    requires n <= |s| && Lex(s) == (t, n) && |seen| <= 3 && t.text != ""
    requires t.kind == Register || t.kind == Direct || t.kind == Indirect
    requires ParseArguments(s[n..], if |seen| < 3 then seen + [t.text] else seen).Some?
    ensures var r := ParseArguments(s[n..], if |seen| < 3 then seen + [t.text] else seen).value;
            ParseArguments(s, seen) == Some((r.0, r.1 + if |seen| < 3 then Nominal(t.kind) else 0))
  {
    hide Lex;
  }

  lemma TakeComma(s: string, seen: seq<string>, n: nat)
    requires n <= |s| && Lex(s) == (Token(Separator, ""), n) && |seen| <= 3
    ensures ParseArguments(s, seen) == ParseArguments(s[n..], seen)
  {
    hide Lex;
  }

  lemma FinishEnds(gap: string, f: string)
    requires AllIn(gap, Blanks) && IsFinish(f)
    ensures Ends(Lex(gap + f).0.kind)
    ensures Lex(gap + f).0.kind == if Span(f, Blanks) == |f| then Blankline else Comment
  {
    hide Lex;
    SpanAll(f, Blanks);
    var w := Span(f, Blanks);
    var b, rest := gap + f[..w], f[w..];
    assert gap + f == b + rest;
    SkipBlanks(b, rest);
    if rest == "" {
      LexEnd();
    } else {
      assert rest == ";" + rest[1..];
      LexComment(rest[1..]);
    }
  }

  lemma TailDelimits(os: seq<Operand>, f: string)
    requires IsFinish(f) && AllSpaced(os) && (os != [] ==> os[0].before != "")
    ensures Delimited(Tail(os) + f)
  {
    SpanAll(f, Blanks);
    if os != [] {
      assert Spaced(os[0]);
      assert (Tail(os) + f)[0] == os[0].before[0];
    }
  }

  lemma LexGapComma(gap: string, rest: string)
    requires AllIn(gap, Blanks)
    ensures Lex(gap + ("," + rest)) == (Token(Separator, ""), |gap| + 1)
  {
    LexComma(rest);
    SkipBlanks(gap, "," + rest);
  }

  lemma {:induction false} LastBlanksBehind(g: string, b: string)
    requires ',' !in g
    ensures LastBlanks(g + "," + b) == LastBlanks(b)
    decreases |g|
  {
    var s := g + "," + b;
    assert s[|g|] == ',';
    if g == "" {
      assert s[1..] == b;
    } else {
      assert s[1..] == g[1..] + "," + b;
      LastBlanksBehind(g[1..], b);
    }
  }

  lemma FirstComma(b: string) returns (g: string, rest: string)
    requires ',' in b && AllSeparators(b)
    ensures b == g + "," + rest && ',' !in g && AllIn(g, Blanks) && AllSeparators(rest)
  {
    var i: nat := 0;
    while b[i] != ','
      invariant i < |b| && ',' !in b[..i] && ',' in b[i..]
      decreases |b| - i
    {
      assert b[i..] == [b[i]] + b[i + 1..];
      assert b[..i + 1] == b[..i] + [b[i]];
      i := i + 1;
    }
    g, rest := b[..i], b[i + 1..];
    forall k | 0 <= k < |g| ensures In(g[k], Blanks) { assert b[k] == g[k] && b[k] in b[..i]; }
  }

  /** Commas, and blanks in front of commas, make no difference. */
  lemma {:induction false} SkipCommas(b: string, x: string, seen: seq<string>)
    requires AllSeparators(b) && |seen| <= 3
    ensures ParseArguments(b + x, seen) == ParseArguments(LastBlanks(b) + x, seen)
    ensures AllIn(LastBlanks(b), Blanks)
    decreases |b|
  {
    hide Lex, ParseArguments;
    if ',' in b {
      var g, rest := FirstComma(b);
      LastBlanksBehind(g, rest);
      var s := b + x;
      assert s == g + ("," + (rest + x));
      LexGapComma(g, rest + x);
      assert s[|g| + 1..] == rest + x;
      TakeComma(s, seen, |g| + 1);
      SkipCommas(rest, x, seen);
    }
  }

  /** The argument loop collects exactly the first three operands. */
  lemma {:induction false} ParseTail(os: seq<Operand>, seen: seq<string>, f: string)
    requires |seen| <= 3 && AllSpaced(os) && IsFinish(f)
    ensures var t := Taken(os, 3 - |seen|);
            ParseArguments(Tail(os) + f, seen) == Some((seen + Texts(t), Sizes(Texts(t))))
    decreases |os|
  {
    hide Lex, Spaced, Delimited, AllIn, IsFinish, ParseArguments, Print, Texts, Taken, Sizes, Kept, KindOf,
         IsNumber, Tail, AllSpaced, LastBlanks, Nominal;
    TailOf(os, f);
    if os == [] {
      FinishStops(f, seen);
      NoneTaken(seen);
    } else {
      var o, rest := os[0], Tail(os[1..]) + f;
      SpacedParts(os);
      TailDelimits(os[1..], f);
      SkipCommas(o.before, o.text + rest, seen);
      var gap := LastBlanks(o.before);
      LexSpaced(gap, o.text, rest);
      KeptIs(o);
      ParseTail(os[1..], if |seen| < 3 then seen + [Kept(o)] else seen, f);
      OneMore(os, seen);
      OperandKind(o.text);
      TakeOperand(gap + (o.text + rest), seen, Token(KindOf(o.text), Kept(o)), |gap| + |o.text|);
    }
  }

  lemma FinishStops(f: string, seen: seq<string>)
    requires IsFinish(f) && |seen| <= 3
    ensures ParseArguments(f, seen) == Some((seen, 0))
  {
    FinishEnds("", f);
    assert "" + f == f;
    StopThere(f, seen);
  }

  lemma TailOf(os: seq<Operand>, f: string)
    ensures os == [] ==> Tail(os) + f == f
    ensures os != [] ==> Tail(os) + f == os[0].before + (os[0].text + (Tail(os[1..]) + f))
  {
  }

  lemma NoneTaken(seen: seq<string>)
    requires |seen| <= 3
    ensures var t := Texts(Taken([], 3 - |seen|)); seen + t == seen && Sizes(t) == 0
  {
  }

  lemma KeptIs(o: Operand)
    requires o.text != ""
    ensures Kept(o) == (if IsNumber(o.text) then LastBlanks(o.before) + o.text else o.text) != ""
  {
  }

  lemma StopThere(s: string, seen: seq<string>)
    requires |seen| <= 3 && Ends(Lex(s).0.kind)
    ensures ParseArguments(s, seen) == Some((seen, 0))
  {
  }

  lemma OneMore(os: seq<Operand>, seen: seq<string>)
    requires os != [] && |seen| <= 3 && Spaced(os[0])
    ensures var room := 3 - |seen|;
            var t, more := Texts(Taken(os, room)), room > 0;
            var u := Texts(Taken(os[1..], if more then room - 1 else 0));
            && seen + t == (if more then seen + [Kept(os[0])] else seen) + u
            && Sizes(t) == Sizes(u) + if more then Nominal(KindOf(os[0].text)) else 0
  {
    hide Kept, KindOf, Spaced;
    KeptKind(os[0]);
    var room := 3 - |seen|;
    if room > 0 {
      var t, u := Texts(Taken(os, room)), Texts(Taken(os[1..], room - 1));
      assert t == [Kept(os[0])] + u;
      assert t[1..] == u;
    }
  }

  lemma OperandKind(a: string)
    ensures KindOf(a) == Register || KindOf(a) == Direct || KindOf(a) == Indirect
  {
  }

  lemma SpacedParts(os: seq<Operand>)
    requires os != [] && AllSpaced(os)
    ensures Spaced(os[0]) && AllSpaced(os[1..]) && (os[1..] != [] ==> os[1..][0].before != "")
    ensures var o := os[0]; o.text != "" && IsOperand(o.text) && !IsSpace(o.text[0]) && AllSeparators(o.before)
  {
  }

  lemma BlankNumber(b: string, a: string)
    requires AllIn(b, Blanks) && IsNumber(a) && !IsSpace(a[0])
    ensures IsNumber(b + a)
    ensures b != "" ==> !IsRegister(b + a) && !IsLabelRef(b + a) && !IsDirect(b + a)
  {
    SpanIs(b, a, Blanks);
    assert Span(a, Blanks) == 0;
    assert (b + a)[|b| + 1..] == a[1..];
  }

  lemma {:induction false} OnlyBlanks(b: string)
    requires AllSeparators(b)
    ensures AllIn(LastBlanks(b), Blanks)
    decreases |b|
  {
    if ',' in b { OnlyBlanks(b[1..]); }
  }

  /** A kept operand is an operand of the same kind. */
  lemma KeptKind(o: Operand)
    requires Spaced(o)
    ensures IsOperand(Kept(o)) && KindOf(Kept(o)) == KindOf(o.text)
  {
    hide Span, AllIn;
    if IsNumber(o.text) {
      OnlyBlanks(o.before);
      BlankNumber(LastBlanks(o.before), o.text);
      NumberKind(o.text);
      NumberKind(Kept(o));
    }
  }

  // ---------------------------------------------------------------- lines

  /** A line of source: a label, a mnemonic with operands, both or neither, and a comment; or
      a directive in place of the mnemonic. */
  datatype Statement = Statement(lead: string, name: string, gap: string, mnemonic: string,
                                 operands: seq<Operand>, finish: string)

  predicate WellFormed(st: Statement)
  {
    && AllIn(st.lead, Blanks) && AllIn(st.gap, Blanks)
    && (IsFinish(st.finish) || (st.mnemonic == "" && IsDirective(st.finish)))
    && (st.name != "" ==> IsWord(st.name))
    && (if st.mnemonic == "" then st.operands == [] else IsWord(st.mnemonic))
    && AllSpaced(st.operands)
    && (st.operands != [] ==> Stops(Print(st.operands[0]), Word))
  }

  function Operands(st: Statement): string
  {
    Tail(st.operands) + st.finish
  }

  function AfterLabel(st: Statement): string
  {
    st.gap + (st.mnemonic + Operands(st))
  }

  function Render(st: Statement): string
  {
    st.lead + ((if st.name == "" then "" else st.name + ":") + AfterLabel(st))
  }

  function Arguments(st: Statement): (r: seq<string>)
    ensures |r| <= 3
  {
    Texts(Taken(st.operands, 3))
  }

  function LineType(st: Statement): Kind
  {
    if st.mnemonic != "" then Instruction
    else if IsDirective(st.finish) then Direct
    else if st.name != "" then Label
    else if Span(st.finish, Blanks) == |st.finish| then Blankline
    else Comment
  }

  /** What the line parses to. */
  function Parsed(st: Statement): ParsedLine
  {
    ParsedLine(LineType(st), if st.name == "" then "" else st.name + ":",
               if LineType(st) == Direct && IsDirective(st.finish) then DirectiveText(st.finish) else st.mnemonic,
               Arguments(st))
  }

  lemma ParseOperands(st: Statement)
    requires WellFormed(st) && st.mnemonic != ""
    ensures ParseArguments(Operands(st), []) == Some((Arguments(st), Sizes(Arguments(st))))
  {
    hide ParseArguments, AllSpaced, IsFinish;
    ParseTail(st.operands, [], st.finish);
    assert [] + Arguments(st) == Arguments(st);
  }

  lemma FinishDelimits(f: string)
    requires IsFinish(f)
    ensures Delimited(f)
  {
    SpanAll(f, Blanks);
  }

  lemma PrintsSomething(o: Operand)
    requires Spaced(o) && Stops(Print(o), Word)
    ensures |Print(o)| > 0 && !In(Print(o)[0], Word) && Print(o)[0] != ':'
  {
    var a := o.text;
    assert a[0] != ':';
    if o.before == "" { assert Print(o)[0] == a[0]; } else { assert Print(o)[0] == o.before[0]; }
  }

  lemma OperandsApart(st: Statement)
    requires WellFormed(st) && st.mnemonic != ""
    ensures Stops(Operands(st), Word) && At(Operands(st), 0) != ':'
  {
    hide IsFinish, Spaced, Print, AllIn;
    if st.operands == [] {
      FinishDelimits(st.finish);
      DelimitedStops(st.finish);
      assert Operands(st) == st.finish;
    } else {
      PrintsSomething(st.operands[0]);
      assert Operands(st)[0] == Print(st.operands[0])[0];
    }
  }

  lemma WordFirst(m: string, rest: string, chars: Class)
    requires IsWord(m) && chars == Blanks
    ensures Stops(m + rest, chars) && (m + rest)[0] != '-' && !IsDigit((m + rest)[0])
  {
  }

  /** The token at the mnemonic, after blanks. */
  lemma LexCode(b: string, st: Statement)
    requires WellFormed(st) && st.mnemonic != "" && AllIn(b, Blanks)
    ensures var s := b + (st.mnemonic + Operands(st));
            && Lex(s) == (Token(Instruction, st.mnemonic), |b| + |st.mnemonic|)
            && s[|b| + |st.mnemonic|..] == Operands(st)
  {
    hide Lex, IsWord, Operands, Stops, AllIn, IsFinish;
    var m, rest := st.mnemonic, Operands(st);
    OperandsApart(st);
    LexWord(m, rest);
    WordFirst(m, rest, Blanks);
    SkipBlanks(b, m + rest);
  }

  lemma LexDefinition(b: string, name: string, rest: string)
    requires AllIn(b, Blanks) && IsWord(name)
    ensures var s := b + (name + ":" + rest);
            && Lex(s) == (Token(Label, name + ":"), |b| + |name| + 1)
            && s[|b| + |name| + 1..] == rest
  {
    hide Lex, IsWord, AllIn, Stops;
    LexLabel(name, rest);
    WordFirst(name, ":" + rest, Blanks);
    assert name + (":" + rest) == name + ":" + rest;
    SkipBlanks(b, name + ":" + rest);
  }

  lemma ParseInstruction(s: string, m: string, n: nat)
    requires n <= |s| && Lex(s) == (Token(Instruction, m), n) && ParseArguments(s[n..], []).Some?
    ensures var r := ParseArguments(s[n..], []).value;
            Parse(s) == Some((ParsedLine(Instruction, "", m, r.0), r.1 + 2))
  {
    hide ParseArguments, Lex;
  }

  lemma ParseDirective(s: string, text: string, n: nat)
    requires n <= |s| && Lex(s) == (Token(Direct, text), n) && ParseArguments(s[n..], []) == Some(([], 0))
    ensures Parse(s) == Some((ParsedLine(Direct, "", text, []), 0))
  {
    hide ParseArguments, Lex;
  }

  lemma ParseLabelled(s: string, name: string, n: nat, t: Token, k: nat)
    requires n <= |s| && Lex(s) == (Token(Label, name), n)
    requires k <= |s[n..]| && Lex(s[n..]) == (t, k) && (t.kind == Instruction || t.kind == Direct || Ends(t.kind))
    requires ParseArguments(s[n..][k..], []).Some?
    ensures var r := ParseArguments(s[n..][k..], []).value;
            Parse(s) == if t.kind == Instruction then Some((ParsedLine(Instruction, name, t.text, r.0), r.1 + 2))
                        else if t.kind == Direct then Some((ParsedLine(Direct, name, t.text, r.0), r.1))
                        else Some((ParsedLine(Label, name, "", r.0), r.1))
  {
    hide ParseArguments, Lex;
  }

  lemma LineEnd(s: string)
    requires s == "" || s == "\n"
    ensures ParseArguments(s, []) == Some(([], 0))
  {
    FinishEnds(s, "");
    assert s + "" == s;
    StopThere(s, []);
  }

  lemma NothingBehind(s: string)
    requires OneLine(s) && Ends(Lex(s).0.kind)
    ensures ParseArguments(s[Lex(s).1..], []) == Some(([], 0))
  {
    hide Lex;
    var n := Lex(s).1;
    if Lex(s).0.kind == Blankline { BlanklineTakesAll(s); } else { CommentRuns(s); }
    LineEnd(s[n..]);
  }

  lemma LexDot(d: string)
    requires d != "" && d[0] == '.'
    ensures var p := DirectiveAt(d, 1); Lex(d) == (TokenOf(d, p), p.end) && p.kind == Direct
  {
    hide Run;
    NoBlanks(d);
  }

  lemma SliceShift(s: string, w: nat, a: nat, b: nat)
    requires a <= b && w + b <= |s|
    ensures s[w + a..w + b] == s[w..][a..b]
  {
    forall i | 0 <= i < b - a ensures s[w + a..w + b][i] == s[w..][a..b][i] {}
  }

  lemma DirectiveTextIs(f: string)
    requires IsDirective(f)
    ensures var w := Span(f, Blanks); TokenOf(f[w..], DirectiveAt(f[w..], 1)) == Token(Direct, DirectiveText(f))
  {
    hide Span, Run;
    var w := Span(f, Blanks);
    DirectiveShift(f, w, 1);
    var p := DirectiveAt(f[w..], 1);
    SliceShift(f, w, p.from, p.to);
  }

  /** A directive takes the line up to the line feed. */
  lemma LexDirectiveLine(gap: string, f: string)
    requires AllIn(gap, Blanks) && IsDirective(f)
    ensures var (t, n) := Lex(gap + f);
            && t == Token(Direct, DirectiveText(f))
            && ((gap + f)[n..] == "" || (gap + f)[n..] == "\n")
  {
    hide Lex, DirectiveAt, DirectiveText, TokenOf;
    var w := Span(f, Blanks);
    SpanAll(f, Blanks);
    var b, d := gap + f[..w], f[w..];
    assert gap + f == b + d && d[0] == f[w];
    LexDot(d);
    DirectiveTextIs(f);
    SkipBlanks(b, d);
    var e := DirectiveAt(d, 1).end;
    assert (b + d)[|b| + e..] == d[e..];
    DirectiveRest(d);
    if e < |d| { assert d[e] == f[w + e]; }
  }

  lemma DirectiveRest(d: string)
    requires d != ""
    ensures var e := DirectiveAt(d, 1).end; e < |d| ==> d[e] == '\n'
  {
    var k := Run(d, 1, NotBlank);
    var m := Run(d, k, Blanks);
    SpanAll(d[m..], InLine);
  }

  lemma OneLineRest(b: string, f: string)
    requires OneLine(b + f)
    ensures OneLine(f)
  {
    forall i | 0 <= i < |f| - 1 ensures f[i] != '\n' { assert (b + f)[|b| + i] == f[i]; }
  }

  /** Print and parse. A line of source parses to its label with the colon, its mnemonic and
      its first three operands, and adds its nominal size; an operand comes back as written
      exactly when it is no number or has no blanks directly in front. */
  lemma PrintThenParse(st: Statement)
    requires WellFormed(st) && OneLine(Render(st))
    ensures Parse(Render(st)) == Some((Parsed(st), if st.mnemonic == "" then 0 else 2 + Sizes(Arguments(st))))
    ensures forall i | 0 <= i < |Arguments(st)| ::
              Arguments(st)[i] == st.operands[i].text <==>
                !IsNumber(st.operands[i].text) || LastBlanks(st.operands[i].before) == ""
  {
    hide *;
    KeptIsText(st);
    if st.mnemonic != "" {
      ParseCode(st);
    } else {
      ParseEmpty(st);
    }
  }

  lemma KeptIsText(st: Statement)
    ensures |Arguments(st)| <= |st.operands|
    ensures forall i | 0 <= i < |Arguments(st)| ::
              Arguments(st)[i] == st.operands[i].text <==>
                !IsNumber(st.operands[i].text) || LastBlanks(st.operands[i].before) == ""
  {
    hide IsNumber;
    forall i | 0 <= i < |Arguments(st)|
      ensures Arguments(st)[i] == st.operands[i].text <==>
                !IsNumber(st.operands[i].text) || LastBlanks(st.operands[i].before) == ""
    {
      var o := st.operands[i];
      assert |LastBlanks(o.before) + o.text| == |LastBlanks(o.before)| + |o.text|;
    }
  }

  lemma ParseCode(st: Statement)
    requires WellFormed(st) && st.mnemonic != ""
    ensures Parse(Render(st)) == Some((Parsed(st), 2 + Sizes(Arguments(st))))
  {
    hide Lex, IsWord, Operands, Stops, AllIn, IsFinish, ParseArguments, Parse, AllSpaced, Arguments;
    ParseOperands(st);
    var s, m, ops := Render(st), st.mnemonic, Operands(st);
    if st.name == "" {
      JoinBlanks(st.lead, st.gap);
      LexCode(st.lead + st.gap, st);
      assert s == st.lead + st.gap + (m + ops);
      ParseInstruction(s, m, |st.lead + st.gap| + |m|);
    } else {
      LexDefinition(st.lead, st.name, AfterLabel(st));
      LexCode(st.gap, st);
      ParseLabelled(s, st.name + ":", |st.lead| + |st.name| + 1, Token(Instruction, m), |st.gap| + |m|);
    }
  }

  lemma JoinBlanks(a: string, b: string)
    requires AllIn(a, Blanks) && AllIn(b, Blanks)
    ensures AllIn(a + b, Blanks)
  {
  }

  lemma ParseEmpty(st: Statement)
    requires WellFormed(st) && st.mnemonic == "" && OneLine(Render(st))
    ensures Parse(Render(st)) == Some((Parsed(st), 0))
  {
    hide Lex, IsWord, Stops, AllIn, IsFinish, ParseArguments, OneLine, Parse, IsDirective, DirectiveText;
    assert Arguments(st) == [];
    FinishOrDirective(st.finish);
    if st.name == "" {
      JoinBlanks(st.lead, st.gap);
      assert Render(st) == st.lead + st.gap + st.finish;
      if IsDirective(st.finish) {
        LexDirectiveLine(st.lead + st.gap, st.finish);
        LineEnd(Render(st)[Lex(Render(st)).1..]);
        ParseDirective(Render(st), DirectiveText(st.finish), Lex(Render(st)).1);
      } else {
        FinishEnds(st.lead + st.gap, st.finish);
        ParseNothing(Render(st));
      }
    } else {
      ParseDefinition(st);
    }
  }

  lemma FinishOrDirective(f: string)
    ensures IsFinish(f) ==> !IsDirective(f)
  {
  }

  lemma ParseNothing(s: string)
    requires Ends(Lex(s).0.kind)
    ensures Parse(s) == Some((ParsedLine(Lex(s).0.kind, "", "", []), 0))
  {
    hide Lex;
  }

  lemma ParseDefinition(st: Statement)
    requires WellFormed(st) && st.mnemonic == "" && st.name != "" && OneLine(Render(st))
    ensures Parse(Render(st)) ==
            Some((if IsDirective(st.finish) then ParsedLine(Direct, st.name + ":", DirectiveText(st.finish), [])
                  else ParsedLine(Label, st.name + ":", "", []), 0))
  {
    hide Lex, IsWord, Stops, AllIn, IsFinish, ParseArguments, OneLine, Parse, IsDirective, DirectiveText;
    var code, n := st.gap + st.finish, |st.lead| + |st.name| + 1;
    assert AfterLabel(st) == code;
    LexDefinition(st.lead, st.name, code);
    assert Render(st) == st.lead + (st.name + ":") + code;
    FinishOrDirective(st.finish);
    if IsDirective(st.finish) {
      LexDirectiveLine(st.gap, st.finish);
      LineEnd(code[Lex(code).1..]);
    } else {
      FinishEnds(st.gap, st.finish);
      OneLineRest(st.lead + (st.name + ":"), code);
      NothingBehind(code);
    }
    assert st.lead + (st.name + ":" + code) == Render(st);
    ParseLabelled(Render(st), st.name + ":", n, Lex(code).0, Lex(code).1);
  }
}
