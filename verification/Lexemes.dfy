/** What the assembler's lines are made of, on characters, and on which lines `parse_line`
    returns. */
module Lexemes {
  import opened Wrappers
  import opened Text
  import opened Lexer
  import opened Parser

  predicate AllIn(s: string, chars: Class)
  {
    forall i | 0 <= i < |s| :: In(s[i], chars)
  }

  /** What follows does not prolong a run of such characters. */
  predicate Stops(rest: string, chars: Class)
  {
    rest == "" || !In(rest[0], chars)
  }

  // ---------------------------------------------------------------- shapes of texts

  predicate IsWord(m: string)
  {
    |m| > 0 && IsAlpha(m[0]) && m[0] != 'r' && AllIn(m, Word)
  }

  predicate IsRegister(a: string)
  {
    |a| >= 2 && a[0] == 'r' && AllIn(a[1..], DigitChars)
  }

  predicate IsLabelRef(a: string)
  {
    |a| >= 2 && a[0] == '%' && a[1] == ':' && AllIn(a[2..], Word)
  }

  predicate IsDirect(a: string)
  {
    |a| >= 2 && a[0] == '%' && AllIn(a[1..], DigitChars)
  }

  /** A number, possibly after blanks: bare when there are none. */
  predicate IsNumber(a: string)
  {
    var w := Span(a, Blanks);
    w < |a| && (IsDigit(a[w]) || a[w] == '-') && AllIn(a[w + 1..], DigitChars)
  }

  predicate IsOperand(a: string)
  {
    IsRegister(a) || IsLabelRef(a) || IsDirect(a) || IsNumber(a)
  }

  function KindOf(a: string): (r: Kind)
    ensures r == Register || r == Direct || r == Indirect
  {
    if IsRegister(a) then Register else if IsLabelRef(a) then Direct else Indirect
  }

  // ---------------------------------------------------------------- one token

  lemma RunIs(s: string, p: nat, a: string, rest: string, chars: Class)
    requires p <= |s| && s[p..] == a + rest && AllIn(a, chars) && Stops(rest, chars)
    ensures Run(s, p, chars) == p + |a|
  {
    SpanIs(a, rest, chars);
  }

  lemma NoBlanks(s: string)
    requires |s| > 0 && !IsSpace(s[0])
    ensures Run(s, 0, Blanks) == 0
  {
    assert s[0..] == s;
  }

  lemma LexRegister(a: string, rest: string)
    requires IsRegister(a) && Stops(rest, DigitChars)
    ensures Lex(a + rest) == (Token(Register, a), |a|)
  {
    var s := a + rest;
    NoBlanks(s);
    assert s[1..] == a[1..] + rest;
    RunIs(s, 1, a[1..], rest, DigitChars);
    assert s[1] == a[1..][0];
    assert s[0..|a|] == a;
  }

  lemma LexLabelRef(a: string, rest: string)
    requires IsLabelRef(a) && Stops(rest, Word)
    ensures Lex(a + rest) == (Token(Direct, a), |a|)
  {
    var s := a + rest;
    NoBlanks(s);
    assert s[2..] == a[2..] + rest;
    RunIs(s, 2, a[2..], rest, Word);
    assert s[0..|a|] == a;
  }

  lemma LexDirect(a: string, rest: string)
    requires IsDirect(a) && Stops(rest, DigitChars)
    ensures Lex(a + rest) == (Token(Indirect, a), |a|)
  {
    var s := a + rest;
    NoBlanks(s);
    assert s[1..] == a[1..] + rest;
    RunIs(s, 1, a[1..], rest, DigitChars);
    assert s[1] == a[1..][0];
    assert s[0..|a|] == a;
  }

  lemma LexWord(m: string, rest: string)
    requires IsWord(m) && Stops(rest, Word) && At(rest, 0) != ':'
    ensures Lex(m + rest) == (Token(Instruction, m), |m|)
  {
    var s := m + rest;
    NoBlanks(s);
    assert s[0..] == m + rest;
    RunIs(s, 0, m, rest, Word);
    assert s[0..|m|] == m;
  }

  lemma LexLabel(name: string, rest: string)
    requires IsWord(name)
    ensures Lex(name + ":" + rest) == (Token(Label, name + ":"), |name| + 1)
  {
    var s := name + ":" + rest;
    NoBlanks(s);
    assert s[0..] == name + (":" + rest);
    RunIs(s, 0, name, ":" + rest, Word);
    assert s[0..|name| + 1] == name + ":";
  }

  lemma LexMinus(d: string, rest: string)
    requires AllIn(d, DigitChars) && Stops(rest, DigitChars)
    ensures Lex("-" + d + rest) == (Token(Indirect, "-" + d), |d| + 1)
  {
    hide AllIn, Stops, Run, Span, DirectiveAt, WordAt;
    var s := "-" + d + rest;
    NoBlanks(s);
    assert s[1..] == d + rest;
    RunIs(s, 1, d, rest, DigitChars);
    assert s[0..|d| + 1] == "-" + d;
  }

  lemma LexDigits(d: string, rest: string)
    requires d != "" && AllIn(d, DigitChars) && Stops(rest, DigitChars)
    ensures Lex(d + rest) == (Token(Indirect, d), |d|)
  {
    hide Stops, Run, Span, DirectiveAt, WordAt;
    var s := d + rest;
    assert In(d[0], DigitChars) && s[0] == d[0];
    NoBlanks(s);
    assert s[0..] == d + rest;
    RunIs(s, 0, d, rest, DigitChars);
    assert s[0..|d|] == d;
  }

  lemma BareNumber(a: string)
    requires IsNumber(a) && !IsSpace(a[0])
    ensures a != ""
    ensures if a[0] == '-' then a == "-" + a[1..] && AllIn(a[1..], DigitChars) else AllIn(a, DigitChars)
  {
    assert Span(a, Blanks) == 0;
    assert forall i | 1 <= i < |a| :: a[i] == a[1..][i - 1];
  }

  /** A number with nothing in front. */
  lemma LexNumber(a: string, rest: string)
    requires IsNumber(a) && !IsSpace(a[0]) && Stops(rest, DigitChars)
    ensures Lex(a + rest) == (Token(Indirect, a), |a|)
  {
    hide Lex, AllIn, IsNumber, Stops;
    BareNumber(a);
    if a[0] == '-' { LexMinus(a[1..], rest); } else { LexDigits(a, rest); }
  }

  lemma LexComma(rest: string)
    ensures Lex("," + rest) == (Token(Separator, ""), 1)
  {
    NoBlanks("," + rest);
    assert ("," + rest)[0..0] == "";
  }

  lemma LexEnd()
    ensures Lex("") == (Token(Blankline, ""), 0)
  {
    assert ""[0..0] == "";
  }

  lemma LexComment(rest: string)
    ensures Lex(";" + rest).0 == Token(Comment, "")
    ensures (";" + rest)[Lex(";" + rest).1..] == "" || (";" + rest)[Lex(";" + rest).1] == '\n'
  {
    var s := ";" + rest;
    NoBlanks(s);
    assert s[0..] == s && s[0..0] == "";
    SpanAll(s, InLine);
  }

  lemma StartIrrelevant(t: string, a: nat, b: nat, w: nat)
    requires a <= w && b <= w < |t|
    ensures var p, q := PieceAt(t, a, w), PieceAt(t, b, w);
            && p == q.(from := p.from)
            && (if IsDigit(t[w]) || t[w] == '-' then p.from == a && q.from == b else p == q)
  {
  }

  /** Blanks in front change nothing but the texts of numbers, which keep them. */
  lemma SkipBlanks(b: string, s: string)
    requires AllIn(b, Blanks) && Stops(s, Blanks)
    ensures var (t, n) := Lex(s);
            Lex(b + s) == (if s != "" && (IsDigit(s[0]) || s[0] == '-') then Token(t.kind, b + t.text) else t, |b| + n)
  {
    hide PieceAt, Run;
    var t, w := b + s, |b|;
    assert t[w..] == s && t[0..] == t;
    RunIs(t, 0, b, s, Blanks);
    if s == "" {
      LexEnd();
      assert t[w..w] == "";
    } else {
      NoBlanks(s);
      PieceShift(t, w, 0);
      StartIrrelevant(t, 0, w, w);
      StartIrrelevant(s, 0, 0, 0);
      var q := NextPiece(s, 0);
      assert NextPiece(t, 0) == PieceAt(t, 0, w);
      assert s[q.from..q.to] == t[w + q.from..w + q.to];
      if IsDigit(s[0]) || s[0] == '-' { assert t[0..w + q.to] == b + s[0..q.to]; }
    }
  }

  // ---------------------------------------------------------------- lexemes

  datatype Lexeme =
    | Gap(blanks: string)
    | Name(word: string)
    | Definition(word: string)
    | Literal(minus: bool, digits: string)
    | Reg(digits: string)
    | Reference(name: string)
    | Immediate(digits: string)
    | Comma
    | Directive(keyword: string, blanks: string, text: string)

  function Spell(l: Lexeme): string
  {
    match l
    case Gap(b) => b
    case Name(w) => w
    case Definition(w) => w + ":"
    case Literal(minus, d) => if minus then "-" + d else d
    case Reg(d) => "r" + d
    case Reference(w) => "%:" + w
    case Immediate(d) => "%" + d
    case Comma => ","
    case Directive(k, b, t) => "." + k + b + t
  }

  predicate Shaped(l: Lexeme)
  {
    match l
    case Gap(b) => b != "" && AllIn(b, Blanks)
    case Name(w) => IsWord(w)
    case Definition(w) => IsWord(w)
    case Literal(minus, d) => (minus || d != "") && AllIn(d, DigitChars)
    case Reg(d) => d != "" && AllIn(d, DigitChars)
    case Reference(w) => AllIn(w, Word)
    case Immediate(d) => d != "" && AllIn(d, DigitChars)
    case Comma => true
    case Directive(k, b, t) => AllIn(k, NotBlank) && AllIn(b, Blanks) && AllIn(t, InLine)
  }

  /** What follows the lexeme does not prolong it. */
  predicate Apart(l: Lexeme, rest: string)
  {
    match l
    case Gap(_) => Stops(rest, Blanks)
    case Name(_) => Stops(rest, Word) && At(rest, 0) != ':'
    case Literal(_, _) => Stops(rest, DigitChars)
    case Reg(_) => Stops(rest, DigitChars)
    case Reference(_) => Stops(rest, Word)
    case Immediate(_) => Stops(rest, DigitChars)
    case Directive(_, b, t) => Stops(b + t + rest, NotBlank) && Stops(t + rest, Blanks) && Stops(rest, InLine)
    case _ => true
  }

  function Spelling(ls: seq<Lexeme>): string
  {
    if ls == [] then "" else Spell(ls[0]) + Spelling(ls[1..])
  }

  /** A concatenation of lexemes, each ending where it cannot be prolonged. */
  predicate Recognised(ls: seq<Lexeme>, rest: string)
  {
    ls == [] || (Shaped(ls[0]) && Apart(ls[0], Spelling(ls[1..]) + rest) && Recognised(ls[1..], rest))
  }

  predicate Splits(s: string, ls: seq<Lexeme>, rest: string)
  {
    Recognised(ls, rest) && s == Spelling(ls) + rest
  }

  /** No lexeme and no comment begins with these characters. */
  predicate Unrecognised(s: string)
  {
    && s != ""
    && !IsSpace(s[0]) && s[0] !in ";.,-" && !IsDigit(s[0])
    && (IsAlpha(s[0]) ==> s[0] == 'r' && !IsDigit(At(s, 1)))
    && (s[0] == '%' ==> At(s, 1) != ':' && !IsDigit(At(s, 1)))
  }

  predicate Finished(rest: string)
  {
    rest == "" || rest[0] == ';'
  }

  function LexemeKind(l: Lexeme): Kind
  {
    match l
    case Gap(_) => Blankline
    case Name(_) => Instruction
    case Definition(_) => Label
    case Literal(_, _) => Indirect
    case Reg(_) => Register
    case Reference(_) => Direct
    case Immediate(_) => Indirect
    case Comma => Separator
    case Directive(_, _, _) => Direct
  }

  lemma LexDirective(k: string, b: string, t: string, rest: string)
    requires var l := Directive(k, b, t); Shaped(l) && Apart(l, rest)
    ensures var l := Directive(k, b, t);
            var (u, n) := Lex(Spell(l) + rest);
            && u.kind == Direct && n == |Spell(l)|
            && u.text == if t == "" then k else if |t| > 49 then t[..49] else t
  {
    hide Run, Span, AllIn, Stops;
    var l := Directive(k, b, t);
    var s := Spell(l) + rest;
    NoBlanks(s);
    assert s[1..] == k + (b + t + rest);
    RunIs(s, 1, k, b + t + rest, NotBlank);
    assert s[1 + |k|..] == b + (t + rest);
    RunIs(s, 1 + |k|, b, t + rest, Blanks);
    assert s[1 + |k| + |b|..] == t + rest;
    RunIs(s, 1 + |k| + |b|, t, rest, InLine);
  }

  /** The lexer takes exactly one lexeme. */
  lemma LexemeStep(l: Lexeme, rest: string)
    requires Shaped(l) && Apart(l, rest) && !l.Gap?
    ensures var (t, n) := Lex(Spell(l) + rest); t.kind == LexemeKind(l) && n == |Spell(l)|
  {
    hide Lex;
    var a := Spell(l);
    match l
    case Name(w) => LexWord(w, rest);
    case Definition(w) => LexLabel(w, rest);
    case Literal(minus, d) =>
      assert minus ==> a[1..] == d;
      LexNumber(a, rest);
    case Reg(d) =>
      assert a[1..] == d;
      LexRegister(a, rest);
    case Reference(w) =>
      assert a[2..] == w;
      LexLabelRef(a, rest);
    case Immediate(d) =>
      assert a[1..] == d;
      LexDirect(a, rest);
    case Comma => LexComma(rest);
    case Directive(k, b, t) => LexDirective(k, b, t, rest);
  }

  // ---------------------------------------------------------------- lines that return

  /** The lexer reaches the end of the line or a comment before an unrecognised character. */
  predicate Returns(s: string)
    decreases |s|
  {
    var (t, n) := Lex(s);
    Progress(s);
    Ends(t.kind) || (t.kind != Unknown && Returns(s[n..]))
  }

  lemma {:induction false} ArgumentsReturn(s: string, arguments: seq<string>)
    requires |arguments| <= 3
    ensures ParseArguments(s, arguments).Some? <==> Returns(s)
    decreases |s|
  {
    hide Lex;
    var (t, n) := Lex(s);
    Progress(s);
    if !Ends(t.kind) && t.kind != Unknown {
      ArgumentsReturn(s[n..], if |arguments| < 3 && t.text != "" then arguments + [t.text] else arguments);
    }
  }

  lemma ReturnsStep(s: string, n: nat)
    requires n <= |s| && Lex(s).1 == n
    ensures Returns(s) <==> Ends(Lex(s).0.kind) || (Lex(s).0.kind != Unknown && Returns(s[n..]))
  {
  }

  /** Lexemes in front make no difference. */
  lemma {:induction false} ReturnsBeyond(ls: seq<Lexeme>, rest: string)
    requires Recognised(ls, rest)
    ensures Returns(Spelling(ls) + rest) <==> Returns(rest)
    decreases |ls|
  {
    hide Lex, Returns, Shaped, Spell, Apart;
    if ls == [] {
      assert Spelling(ls) + rest == rest;
    } else {
      var l, tail := ls[0], Spelling(ls[1..]) + rest;
      var s := Spell(l) + tail;
      assert Spelling(ls) + rest == s;
      if l.Gap? {
        GapBeyond(l, tail);
      } else {
        LexemeStep(l, tail);
        assert s[|Spell(l)|..] == tail;
        ReturnsStep(s, |Spell(l)|);
      }
      ReturnsBeyond(ls[1..], rest);
    }
  }

  lemma GapBeyond(l: Lexeme, tail: string)
    requires l.Gap? && Shaped(l) && Apart(l, tail)
    ensures Returns(Spell(l) + tail) <==> Returns(tail)
  {
    hide Lex, Returns;
    var b := l.blanks;
    SkipBlanks(b, tail);
    var n := Lex(tail).1;
    assert (b + tail)[|b| + n..] == tail[n..];
    ReturnsStep(b + tail, |b| + n);
    ReturnsStep(tail, n);
  }

  lemma AtTheEnd(rest: string)
    requires Finished(rest)
    ensures Returns(rest)
  {
    if rest == "" {
      LexEnd();
    } else {
      LexComment(rest[1..]);
      assert rest == ";" + rest[1..];
    }
  }

  lemma AtUnrecognised(rest: string)
    requires Unrecognised(rest)
    ensures !Returns(rest) && Lex(rest) == (Token(Unknown, ""), 0)
  {
    NoBlanks(rest);
    assert rest[0..0] == "";
  }

  // ---------------------------------------------------------------- every line

  lemma SpanParts(s: string, from: nat, chars: Class) returns (a: string, rest: string)
    requires from <= |s|
    ensures s[from..] == a + rest && AllIn(a, chars) && Stops(rest, chars)
    ensures a == "" <==> Stops(s[from..], chars)
  {
    var t := s[from..];
    SpanAll(t, chars);
    var n := Span(t, chars);
    a, rest := t[..n], t[n..];
  }

  lemma FirstWord(s: string) returns (l: Lexeme, rest: string)
    requires s != "" && IsAlpha(s[0]) && s[0] != 'r'
    ensures Shaped(l) && Apart(l, rest) && s == Spell(l) + rest
  {
    var a: string;
    a, rest := SpanParts(s, 0, Word);
    assert s[0..] == s && a[0] == s[0];
    if At(rest, 0) == ':' {
      assert rest == ":" + rest[1..];
      assert a + (":" + rest[1..]) == a + ":" + rest[1..];
      l, rest := Definition(a), rest[1..];
    } else {
      l := Name(a);
    }
  }

  /** A lexeme that is a run of digits, or `x` and a run of characters. */
  lemma FirstRun(s: string, x: string, chars: Class) returns (a: string, rest: string)
    requires |x| <= |s| && s[..|x|] == x
    ensures s == x + a + rest && AllIn(a, chars) && Stops(rest, chars)
    ensures a == "" <==> Stops(s[|x|..], chars)
  {
    hide AllIn, Stops, Span;
    a, rest := SpanParts(s, |x|, chars);
    assert s == s[..|x|] + s[|x|..];
  }

  lemma FirstLexeme(s: string) returns (l: Lexeme, rest: string)
    requires s != "" && s[0] != ';' && !Unrecognised(s)
    ensures Shaped(l) && Apart(l, rest) && s == Spell(l) + rest
  {
    hide Span, AllIn, Stops;
    var c := s[0];
    var a: string;
    assert s[0..] == s && s[..0] == "" && s[..1] == [c];
    FirstIn(s);
    if IsSpace(c) {
      a, rest := FirstRun(s, "", Blanks);
      l := Gap(a);
    } else if IsAlpha(c) && c != 'r' {
      l, rest := FirstWord(s);
    } else if IsDigit(c) {
      a, rest := FirstRun(s, "", DigitChars);
      l := Literal(false, a);
    } else if c == '-' {
      a, rest := FirstRun(s, "-", DigitChars);
      l := Literal(true, a);
    } else if c == ',' {
      l, rest := Comma, s[1..];
    } else if c == '.' {
      l, rest := FirstDirective(s);
    } else {
      l, rest := FirstPrefixed(s);
    }
  }

  lemma FirstPrefixed(s: string) returns (l: Lexeme, rest: string)
    requires s != "" && (s[0] == 'r' || s[0] == '%') && !Unrecognised(s)
    ensures Shaped(l) && Apart(l, rest) && s == Spell(l) + rest
  {
    hide Span, AllIn, Stops;
    var c := s[0];
    var a: string;
    assert s[..1] == [c];
    if c == '%' && At(s, 1) == ':' {
      assert s[..2] == "%:";
      a, rest := FirstRun(s, "%:", Word);
      l := Reference(a);
    } else {
      DigitNext(s, 1);
      a, rest := FirstRun(s, [c], DigitChars);
      l := if c == 'r' then Reg(a) else Immediate(a);
    }
  }

  lemma FirstIn(s: string)
    requires s != ""
    ensures Stops(s, Blanks) <==> !IsSpace(s[0])
    ensures Stops(s, DigitChars) <==> !IsDigit(s[0])
  {
  }

  lemma DigitNext(s: string, i: nat)
    requires i <= |s| && IsDigit(At(s, i))
    ensures !Stops(s[i..], DigitChars)
  {
  }

  lemma FirstDirective(s: string) returns (l: Lexeme, rest: string)
    requires s != "" && s[0] == '.'
    ensures l.Directive? && Shaped(l) && Apart(l, rest) && s == Spell(l) + rest
  {
    hide AllIn, Stops;
    var k, r1 := SpanParts(s, 1, NotBlank);
    var b, r2 := SpanParts(r1, 0, Blanks);
    var t, r3 := SpanParts(r2, 0, InLine);
    l, rest := Directive(k, b, t), r3;
    DirectiveParts(s, k, b, t, r1, r2, r3);
  }

  lemma DirectiveParts(s: string, k: string, b: string, t: string, r1: string, r2: string, r3: string)
    requires s != "" && s[0] == '.' && s[1..] == k + r1 && r1[0..] == b + r2 && r2[0..] == t + r3
    requires AllIn(k, NotBlank) && AllIn(b, Blanks) && AllIn(t, InLine)
    requires Stops(r1, NotBlank) && Stops(r2, Blanks) && Stops(r3, InLine)
    ensures var l := Directive(k, b, t); Shaped(l) && Apart(l, r3) && s == Spell(l) + r3
  {
    hide AllIn, Stops;
    assert r1 == r1[0..] && r2 == r2[0..];
    assert r1 == b + t + r3 && r2 == t + r3;
    assert s == "." + s[1..];
    assert "." + (k + (b + t + r3)) == "." + k + b + t + r3;
  }

  /** Every line is a concatenation of lexemes up to its end, to a comment or to an
      unrecognised character. */
  lemma {:induction false} Cut(s: string) returns (ls: seq<Lexeme>, rest: string)
    ensures Splits(s, ls, rest) && (Finished(rest) || Unrecognised(rest))
    decreases |s|
  {
    hide Shaped, Apart, Spell;
    if Finished(s) || Unrecognised(s) {
      ls, rest := [], s;
    } else {
      var l, tail := FirstLexeme(s);
      SpellsSomething(l);
      ls, rest := Cut(tail);
      assert ([l] + ls)[1..] == ls;
      assert Spell(l) + (Spelling(ls) + rest) == Spell(l) + Spelling(ls) + rest;
      ls := [l] + ls;
    }
  }

  lemma SpellsSomething(l: Lexeme)
    requires Shaped(l)
    ensures |Spell(l)| > 0
  {
  }

  /** The argument loop of `parse_line` returns exactly on concatenations of lexemes up to the
      end of the line or a comment, and loops for ever exactly on those up to an unrecognised
      character, at which the lexer returns the same token again and again. */
  lemma LoopReturnsWhen(s: string, arguments: seq<string>)
    requires |arguments| <= 3
    ensures ParseArguments(s, arguments).Some? <==> exists ls, rest :: Splits(s, ls, rest) && Finished(rest)
    ensures ParseArguments(s, arguments) == None <==> exists ls, rest :: Splits(s, ls, rest) && Unrecognised(rest)
    ensures forall rest | Unrecognised(rest) :: Lex(rest) == (Token(Unknown, ""), 0)
  {
    hide *;
    ArgumentsReturn(s, arguments);
    WhenReturns(s);
    forall rest | Unrecognised(rest) ensures Lex(rest) == (Token(Unknown, ""), 0) { AtUnrecognised(rest); }
  }

  lemma WhenReturns(s: string)
    ensures Returns(s) <==> exists ls, rest :: Splits(s, ls, rest) && Finished(rest)
    ensures !Returns(s) <==> exists ls, rest :: Splits(s, ls, rest) && Unrecognised(rest)
  {
    hide Returns, Recognised, Spelling, Finished, Unrecognised;
    forall ls, rest | Splits(s, ls, rest) ensures Returns(s) <==> Returns(rest) { ReturnsBeyond(ls, rest); }
    forall rest | Finished(rest) ensures Returns(rest) { AtTheEnd(rest); }
    forall rest | Unrecognised(rest) ensures !Returns(rest) { AtUnrecognised(rest); }
    var ls, rest := Cut(s);
  }

  /** What `fgets` delivers: nothing after a line feed. */
  predicate OneLine(s: string)
  {
    forall i | 0 <= i < |s| - 1 :: s[i] != '\n'
  }

  lemma AfterComment(s: string)
    requires OneLine(s) && Lex(s).0.kind == Comment
    ensures Returns(s[Lex(s).1..])
  {
    hide Lex;
    var ls: seq<Lexeme>, rest: string := [], s[Lex(s).1..];
    CommentRuns(s);
    if rest != "" {
      assert rest == "\n";
      assert Spelling([Gap("\n")]) == "\n" + "";
      ls := [Gap("\n")];
      assert Splits(rest, ls, "");
    } else {
      assert Splits(rest, ls, "");
    }
    WhenReturns(rest);
  }

  lemma CommentRuns(s: string)
    requires Lex(s).0.kind == Comment
    ensures var n := Lex(s).1; n <= |s| && (n < |s| ==> s[n] == '\n')
  {
    var w := Run(s, 0, Blanks);
    SpanAll(s[w..], InLine);
  }

  lemma BlanklineTakesAll(s: string)
    requires Lex(s).0.kind == Blankline
    ensures Lex(s).1 == |s|
  {
  }

  lemma AfterEnd(s: string)
    requires Lex(s).0.kind == Blankline
    ensures Returns(s[Lex(s).1..])
  {
    hide Lex;
    BlanklineTakesAll(s);
    AtTheEnd("");
  }

  lemma AfterUnknown(s: string)
    requires Lex(s).0.kind == Unknown
    ensures !Returns(s[Lex(s).1..]) && !Returns(s)
  {
    hide Lex;
    Stuck(s);
    ReturnsStep(s, Lex(s).1);
    ReturnsStep(s[Lex(s).1..], 0);
  }

  /** Whatever the token `u` at the front is, the line behind it returns if the line does. */
  lemma BehindToken(s: string)
    requires OneLine(s)
    ensures Returns(s) <==> Returns(s[Lex(s).1..])
  {
    hide Lex, Returns;
    var (t, n) := Lex(s);
    ReturnsStep(s, n);
    if t.kind == Comment {
      AfterComment(s);
    } else if t.kind == Blankline {
      AfterEnd(s);
    } else if t.kind == Unknown {
      AfterUnknown(s);
    }
  }

  /** `parse_line` returns on a line if and only if the line is a concatenation of lexemes up
      to its end or to a comment. */
  lemma ParseReturnsWhen(s: string)
    requires OneLine(s)
    ensures Parse(s).Some? <==> exists ls, rest :: Splits(s, ls, rest) && Finished(rest)
    ensures Parse(s) == None <==> exists ls, rest :: Splits(s, ls, rest) && Unrecognised(rest)
  {
    hide Lex, Returns, Splits, Finished, Unrecognised, ParseArguments;
    var (t, n) := Lex(s);
    ReturnsStep(s, n);
    WhenReturns(s);
    BehindToken(s);
    if t.kind == Label {
      var m := Lex(s[n..]).1;
      BehindToken(s[n..]);
      ArgumentsReturn(s[n..][m..], []);
    } else {
      ArgumentsReturn(s[n..], []);
    }
  }

  /** The line is a concatenation of lexemes up to its end or to a comment. */
  ghost predicate IsLexed(s: string)
  {
    exists ls, rest :: Splits(s, ls, rest) && Finished(rest)
  }

  /** The first pass over a file ends if and only if every line is such a concatenation. */
  lemma FirstPassReturnsWhen(lines: seq<string>)
    requires forall i | 0 <= i < |lines| :: OneLine(lines[i])
    ensures Terminates(lines) <==> forall i | 0 <= i < |lines| :: IsLexed(lines[i])
  {
    hide Parse, Splits, Finished, OneLine;
    forall i | 0 <= i < |lines| ensures Parse(lines[i]).Some? <==> IsLexed(lines[i]) {
      ParseReturnsWhen(lines[i]);
    }
  }

  /** A word, blanks and an operand the lexer does not know: the assembler hangs. */
  lemma HangsAfterWord(w: string, b: string, rest: string)
    requires IsWord(w) && b != "" && AllIn(b, Blanks) && Unrecognised(rest) && OneLine(w + b + rest)
    ensures Parse(w + b + rest) == None
  {
    var ls := [Name(w), Gap(b)];
    assert ls[1..] == [Gap(b)] && [Gap(b)][1..] == [];
    assert Spelling([]) == "";
    assert Spelling([Gap(b)]) == b + "";
    assert Spelling(ls) == w + (b + "");
    assert w + (b + "") + rest == w + b + rest && b + "" + rest == b + rest;
    assert Recognised([Gap(b)], rest);
    assert Splits(w + b + rest, ls, rest);
    ParseReturnsWhen(w + b + rest);
  }

  lemma HangsAtOnce(rest: string)
    requires Unrecognised(rest) && OneLine(rest)
    ensures Parse(rest) == None
  {
    assert Splits(rest, [], rest);
    ParseReturnsWhen(rest);
  }

  /** For instance on a negative direct value, on a label that begins with `r`, and on a
      comment after `#`. */
  lemma SomeLinesHang()
    ensures Parse("live %-1\n") == None
    ensures Parse("run: live %1\n") == None
    ensures Parse("#While (r2 < 10)\n") == None
  {
    hide Parse, Splits;
    HangsAfterWord("live", " ", "%-1\n");
    assert "live" + " " + "%-1\n" == "live %-1\n";
    HangsAtOnce("run: live %1\n");
    HangsAtOnce("#While (r2 < 10)\n");
  }
}
