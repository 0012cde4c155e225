/** The assembler's lexer (assembler/tokenizer.c). */
module Lexer {
  import opened Text

  datatype Kind = Unknown | Instruction | Separator | Label | Direct | Comment | Register | Indirect | Blankline

  datatype Token = Token(kind: Kind, text: string)

  datatype Class = Blanks | DigitChars | Word | NotBlank | InLine

  predicate In(c: char, chars: Class)
  {
    match chars
    case Blanks => IsSpace(c)
    case DigitChars => IsDigit(c)
    case Word => IsAlnum(c) || c == '_'
    case NotBlank => !IsSpace(c)
    case InLine => c != '\n'
  }

  /** How many leading characters are in the class. */
  function Span(s: string, chars: Class): (n: nat)
    ensures n <= |s|
  {
    if s != [] && In(s[0], chars) then 1 + Span(s[1..], chars) else 0
  }

  /** Where such a run from position `i` ends. */
  function Run(s: string, i: nat, chars: Class): (n: nat)
    requires i <= |s|
    ensures i <= n <= |s|
  {
    i + Span(s[i..], chars)
  }

  /** A token as the stretch `from .. to` of the input that is its text, and where it ends. */
  datatype Piece = Piece(kind: Kind, from: nat, to: nat, end: nat)

  predicate Fits(p: Piece, low: nat, high: nat)
  {
    low <= p.from <= p.to <= p.end <= high
  }

  /** The piece whose first character is at `w`, when the input begins at `start`. The text
      of a number begins where the input begins, blanks included. */
  function PieceAt(s: string, start: nat, w: nat): (r: Piece)
    requires start <= w < |s|
    ensures Fits(r, start, |s|) && w <= r.end
  {
    var c, peek := s[w], At(s, w + 1);
    if c == ';' then Piece(Comment, w, w, Run(s, w, InLine))
    else if c == '.' then DirectiveAt(s, w + 1)
    else if IsAlpha(c) && c != 'r' then WordAt(s, w, Run(s, w, Word))
    else if IsDigit(c) || c == '-' then Upto(Indirect, start, Run(s, if c == '-' then w + 1 else w, DigitChars))
    else if c == 'r' && IsDigit(peek) then Upto(Register, w, Run(s, w + 1, DigitChars))
    else if c == '%' && peek == ':' then Upto(Direct, w, Run(s, w + 2, Word))
    else if c == '%' && IsDigit(peek) then Upto(Indirect, w, Run(s, w + 1, DigitChars))
    else if c == ',' then Piece(Separator, w, w, w + 1)
    else Piece(Unknown, w, w, w)
  }

  function Upto(kind: Kind, from: nat, end: nat): Piece
  {
    Piece(kind, from, end, end)
  }

  /** The text of a directive is what follows its name, cut to 49 characters, or else the
      name. */
  function DirectiveAt(s: string, name: nat): (r: Piece)
    requires name <= |s|
    ensures Fits(r, name, |s|)
  {
    var d := Run(s, name, NotBlank);
    var m := Run(s, d, Blanks);
    var e := Run(s, m, InLine);
    if e == m then Piece(Direct, name, d, e)
    else Piece(Direct, m, if e - m > 49 then m + 49 else e, e)
  }

  function WordAt(s: string, w: nat, e: nat): (r: Piece)
    requires w <= e <= |s|
    ensures Fits(r, w, |s|) && e <= r.end
  {
    if At(s, e) == ':' then Upto(Label, w, e + 1) else Upto(Instruction, w, e)
  }

  function TokenOf(s: string, p: Piece): Token
    requires Fits(p, 0, |s|)
  {
    Token(p.kind, s[p.from..p.to])
  }

  function NextPiece(s: string, p: nat): (r: Piece)
    requires p <= |s|
    ensures Fits(r, p, |s|)
  {
    var w := Run(s, p, Blanks);
    if w == |s| then Piece(Blankline, w, w, w) else PieceAt(s, p, w)
  }

  /** `lex_token` at position `p`: the token, and the position after it. */
  function LexAt(s: string, p: nat): (r: (Token, nat))
    requires p <= |s|
    ensures p <= r.1 <= |s|
  {
    (TokenOf(s, NextPiece(s, p)), NextPiece(s, p).end)
  }

  /** `lex_token` on an input: the token, and how much of the input it takes. */
  function Lex(s: string): (r: (Token, nat))
    ensures r.1 <= |s|
  {
    LexAt(s, 0)
  }

  // ---------------------------------------------------------------- progress

  lemma {:induction false} SpanAll(s: string, chars: Class)
    ensures forall i | 0 <= i < Span(s, chars) :: In(s[i], chars)
    ensures Span(s, chars) < |s| ==> !In(s[Span(s, chars)], chars)
  {
    if s != [] && In(s[0], chars) {
      SpanAll(s[1..], chars);
      forall i | 0 <= i < Span(s, chars) ensures In(s[i], chars) {
        if i > 0 { assert s[i] == s[1..][i - 1]; }
      }
    }
  }

  lemma {:induction false} SpanIs(a: string, rest: string, chars: Class)
    requires forall i | 0 <= i < |a| :: In(a[i], chars)
    requires rest == [] || !In(rest[0], chars)
    ensures Span(a + rest, chars) == |a|
  {
    if a == [] {
      assert a + rest == rest;
    } else {
      assert (a + rest)[1..] == a[1..] + rest;
      SpanIs(a[1..], rest, chars);
    }
  }

  lemma SpanFirst(s: string, w: nat, chars: Class)
    requires w < |s|
    ensures In(s[w], chars) <==> Run(s, w, chars) > w
  {
    assert s[w..][0] == s[w];
  }

  lemma TokenProgress(s: string, start: nat, w: nat)
    requires start <= w < |s| && !IsSpace(s[w])
    ensures var p := PieceAt(s, start, w); p.kind != Blankline && (p.kind != Unknown ==> p.end > w)
  {
    SpanFirst(s, w, Word);
    SpanFirst(s, w, InLine);
    SpanFirst(s, w, DigitChars);
  }

  /** Every token but the end of the line and the unrecognised character takes input, and the
      end of the line is reported exactly when only blanks are left. */
  lemma Progress(s: string)
    ensures var (t, n) := Lex(s);
            && (t.kind == Blankline <==> Span(s, Blanks) == |s|)
            && (t.kind != Blankline && t.kind != Unknown ==> n > 0)
  {
    hide PieceAt;
    assert s[0..] == s;
    SpanAll(s, Blanks);
    if Span(s, Blanks) < |s| { TokenProgress(s, 0, Span(s, Blanks)); }
  }

  /** At an unrecognised character the lexer is stuck: it returns the same token, having
      taken nothing, forever. */
  lemma Stuck(s: string)
    requires Lex(s).0.kind == Unknown
    ensures Lex(s[Lex(s).1..]) == (Token(Unknown, ""), 0)
  {
    var w := Run(s, 0, Blanks);
    assert s[0..] == s;
    SpanAll(s, Blanks);
    var u := s[w..];
    assert u[0] == s[w] && u[0..] == u;
    assert At(u, 1) == At(s, w + 1);
  }

  // ---------------------------------------------------------------- the cursor

  class Cursor {
    const line: string
    var pos: nat

    constructor (line: string)
      ensures this.line == line && pos == 0
    {
      this.line := line;
      pos := 0;
    }

    ghost predicate Valid()
      reads this
    {
      pos <= |line|
    }

    /** The loops of `lex_token`: over a run of characters of one class. */
    method Skip(chars: Class)
      requires Valid()
      modifies this
      ensures Valid() && pos == Run(line, old(pos), chars)
    {
      while pos < |line| && In(line[pos], chars)
        invariant old(pos) <= pos <= |line|
        invariant Run(line, pos, chars) == Run(line, old(pos), chars)
      {
        assert line[pos..][1..] == line[pos + 1..];
        pos := pos + 1;
      }
      assert pos < |line| ==> line[pos..][0] == line[pos];
    }

    /** The branch of `lex_token` for a directive, behind its dot. */
    method Directive() returns (token: Token)
      requires Valid()
      modifies this
      ensures Valid() && var p := DirectiveAt(line, old(pos)); token == TokenOf(line, p) && pos == p.end
    {
      hide Run;
      var name := pos;
      Skip(NotBlank);
      var text := line[name..pos];
      Skip(Blanks);
      var from := pos;
      Skip(InLine);
      if pos != from {
        text := line[from..if pos - from > 49 then from + 49 else pos];
      }
      token := Token(Direct, text);
    }

    /** The branch for a word, which a colon makes a label. */
    method LabelOrInstruction() returns (token: Token)
      requires Valid()
      modifies this
      ensures Valid()
      ensures var p := WordAt(line, old(pos), Run(line, old(pos), Word)); token == TokenOf(line, p) && pos == p.end
    {
      hide Run;
      var from := pos;
      Skip(Word);
      if At(line, pos) == ':' {
        pos := pos + 1;
        token := Token(Label, line[from..pos]);
      } else {
        token := Token(Instruction, line[from..pos]);
      }
    }

    /** `lex_token`. */
    method LexToken() returns (token: Token)
      requires Valid()
      modifies this
      ensures Valid() && (token, pos) == LexAt(line, old(pos))
    {
      hide Run, DirectiveAt, WordAt;
      var start := pos;
      Skip(Blanks);
      token := Token(Unknown, "");
      assert line[pos..pos] == "";
      if pos == |line| {
        return Token(Blankline, "");
      }
      var c := line[pos];
      var peek := At(line, pos + 1);
      if c == ';' {
        Skip(InLine);
        token := Token(Comment, "");
      } else if c == '.' {
        pos := pos + 1;
        token := Directive();
      } else if IsAlpha(c) && c != 'r' {
        token := LabelOrInstruction();
      } else if IsDigit(c) || c == '-' {
        if c == '-' { pos := pos + 1; }
        Skip(DigitChars);
        token := Token(Indirect, line[start..pos]);
      } else if c == 'r' && IsDigit(peek) {
        var from := pos;
        pos := pos + 1;
        Skip(DigitChars);
        token := Token(Register, line[from..pos]);
      } else if c == '%' && peek == ':' {
        var from := pos;
        pos := pos + 2;
        Skip(Word);
        token := Token(Direct, line[from..pos]);
      } else if c == '%' && IsDigit(peek) {
        var from := pos;
        pos := pos + 1;
        Skip(DigitChars);
        token := Token(Indirect, line[from..pos]);
      } else if c == ',' {
        pos := pos + 1;
        token := Token(Separator, "");
      }
    }
  }

  lemma RunShift(line: string, p: nat, i: nat, chars: Class)
    requires p + i <= |line|
    ensures Run(line[p..], i, chars) + p == Run(line, i + p, chars)
  {
    assert line[p..][i..] == line[i + p..];
  }

  function Shifted(q: Piece, p: nat): Piece
  {
    Piece(q.kind, q.from + p, q.to + p, q.end + p)
  }

  lemma DirectiveShift(line: string, p: nat, i: nat)
    requires p + i <= |line|
    ensures DirectiveAt(line, p + i) == Shifted(DirectiveAt(line[p..], i), p)
  {
    hide Run;
    var d := Run(line[p..], i, NotBlank);
    var m := Run(line[p..], d, Blanks);
    RunShift(line, p, i, NotBlank);
    RunShift(line, p, d, Blanks);
    RunShift(line, p, m, InLine);
  }

  lemma WordShift(line: string, p: nat, w: nat, e: nat)
    requires w <= e && p + e <= |line|
    ensures WordAt(line, p + w, p + e) == Shifted(WordAt(line[p..], w, e), p)
  {
    assert At(line[p..], e) == At(line, p + e);
  }

  lemma PieceShift(line: string, p: nat, w: nat)
    requires p + w < |line|
    ensures PieceAt(line, p, p + w) == Shifted(PieceAt(line[p..], 0, w), p)
  {
    hide Run, DirectiveAt, WordAt;
    var s := line[p..];
    assert s[w] == line[p + w] && At(s, w + 1) == At(line, p + w + 1);
    DirectiveShift(line, p, w + 1);
    RunShift(line, p, w, InLine);
    RunShift(line, p, w, Word);
    RunShift(line, p, w, DigitChars);
    RunShift(line, p, w + 1, DigitChars);
    if w + 2 <= |s| { RunShift(line, p, w + 2, Word); }
    WordShift(line, p, w, Run(s, w, Word));
  }

  /** Lexing at a position is lexing the rest of the line. */
  lemma LexShift(line: string, p: nat)
    requires p <= |line|
    ensures LexAt(line, p) == (Lex(line[p..]).0, p + Lex(line[p..]).1)
  {
    hide PieceAt, Run;
    RunShift(line, p, 0, Blanks);
    var s := line[p..];
    var w := Run(s, 0, Blanks);
    if w < |s| { PieceShift(line, p, w); }
    var q := NextPiece(s, 0);
    assert s[q.from..q.to] == line[p + q.from..p + q.to];
  }
}
