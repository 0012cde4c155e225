/** Lines and the assembler's first pass (assembler/parser.c). */
module Parser {
  import opened Wrappers
  import opened Lexer
  import opened Symbols
  import Encoder

  datatype ParsedLine = ParsedLine(lineType: Kind, name: string, opcode: string, arguments: seq<string>)

  /** `add_bytes_to_header`. */
  function Nominal(kind: Kind): nat
  {
    match kind
    case Register => 1
    case Direct => 2
    case Indirect => 4
    case _ => 0
  }

  predicate Ends(kind: Kind)
  {
    kind == Blankline || kind == Comment
  }

  /** The argument loop of `parse_line` on the rest of a line: the arguments and the bytes
      added to the size; none when an unrecognised character keeps the loop from ending. */
  function ParseArguments(s: string, arguments: seq<string>): (r: Option<(seq<string>, nat)>)
    requires |arguments| <= 3
    ensures r.Some? ==> arguments <= r.value.0 && |r.value.0| <= 3
    decreases |s|
  {
    var (t, n) := Lex(s);
    Progress(s);
    if Ends(t.kind) then Some((arguments, 0))
    else if t.kind == Unknown then None
    else if |arguments| < 3 && t.text != "" then
      match ParseArguments(s[n..], arguments + [t.text])
      case None => None
      case Some(r) => Some((r.0, r.1 + Nominal(t.kind)))
    else ParseArguments(s[n..], arguments)
  }

  /** The line after its label, if any: token `t`, and the rest of the line. */
  function ParseBody(line: ParsedLine, t: Token, rest: string): Option<(ParsedLine, nat)>
  {
    var l := if t.kind == Instruction then line.(lineType := Instruction, opcode := t.text)
             else if t.kind == Direct then line.(lineType := Direct, opcode := t.text)
             else line;
    match ParseArguments(rest, [])
    case None => None
    case Some(r) => Some((l.(arguments := r.0), r.1 + if t.kind == Instruction then 2 else 0))
  }

  /** `parse_line`: the parsed line and the bytes it adds to the size, or nothing when it
      never returns. A label is added to the symbol table on the way. */
  function Parse(s: string): Option<(ParsedLine, nat)>
  {
    var (t, n) := Lex(s);
    var line := ParsedLine(Unknown, "", "", []);
    if Ends(t.kind) then Some((line.(lineType := t.kind), 0))
    else if t.kind == Label then
      var (u, m) := Lex(s[n..]);
      ParseBody(line.(lineType := Label, name := t.text), u, s[n..][m..])
    else ParseBody(line, t, s[n..])
  }

  // ---------------------------------------------------------------- the first pass

  /** Everything the first pass accumulates; the table lists the newest symbol first. */
  datatype Pass = Pass(size: nat, address: nat, table: seq<Binding>, program: seq<Encoder.Line>)

  /** One iteration of the loop in `parse_contents`. A line that holds nothing but a label
      adds it twice, with the same address. */
  function Absorb(pass: Pass, line: ParsedLine, delta: nat): Pass
  {
    var binding := Binding(line.name, pass.address);
    var table := (if line.lineType == Label then [binding, binding] else if line.name != "" then [binding] else [])
                 + pass.table;
    var size := pass.size + delta;
    if line.lineType == Instruction then
      Pass(size, size, table, pass.program + [Encoder.Line(line.opcode, line.arguments)])
    else Pass(size, pass.address, table, pass.program)
  }

  /** What becomes of the table, the address and the program, by the type of the line. */
  lemma AbsorbCases(pass: Pass, line: ParsedLine, delta: nat)
    requires line.lineType == Label ==> line.name != ""
    ensures var r, b := Absorb(pass, line, delta), Binding(line.name, pass.address);
            && r.size == pass.size + delta
            && r.table == (if line.lineType == Label then [b] + ([b] + pass.table)
                           else (if line.name != "" then [b] else []) + pass.table)
            && r.address == (if line.lineType == Instruction then r.size else pass.address)
            && r.program == pass.program + if line.lineType == Instruction then
                                             [Encoder.Line(line.opcode, line.arguments)] else []
  {
    var b := Binding(line.name, pass.address);
    assert [b] + ([b] + pass.table) == [b, b] + pass.table;
    assert [] + pass.table == pass.table;
  }

  predicate Terminates(lines: seq<string>)
  {
    forall i | 0 <= i < |lines| :: Parse(lines[i]).Some?
  }

  /** The first pass over the first `n` lines. */
  function FirstPass(lines: seq<string>, n: nat): Pass
    requires n <= |lines| && Terminates(lines)
  {
    if n == 0 then Pass(0, 0, [], [])
    else Absorb(FirstPass(lines, n - 1), Parse(lines[n - 1]).value.0, Parse(lines[n - 1]).value.1)
  }

  /** The first pass's state: `header` and the locals of `parse_contents`. */
  class Header {
    var size: nat
    var parsedLines: seq<Encoder.Line>
    const symbols: SymbolTable

    constructor (symbols: SymbolTable)
      ensures size == 0 && parsedLines == [] && this.symbols == symbols
    {
      size := 0;
      parsedLines := [];
      this.symbols := symbols;
    }

    method AddBytesToHeader(kind: Kind)
      modifies this`size
      ensures size == old(size) + Nominal(kind)
    {
      match kind {
        case Register => size := size + 1;
        case Direct => size := size + 2;
        case Indirect => size := size + 4;
        case _ =>
      }
    }

    /** `parse_line`, on a line on which it returns. */
    method ParseLine(line: string, currentAddress: int) returns (parsed: ParsedLine)
      requires Parse(line).Some? && symbols.Valid()
      modifies this`size, symbols
      ensures symbols.Valid()
      ensures var r := Parse(line).value; parsed == r.0 && size == old(size) + r.1
      ensures symbols.Contents() ==
              (if parsed.name != "" then [Binding(parsed.name, currentAddress)] else []) + old(symbols.Contents())
    {
      hide Lex, LexAt, ParseArguments;
      parsed := ParsedLine(Unknown, "", "", []);
      var input := new Cursor(line);
      LexShift(line, 0);
      assert line[0..] == line;
      var token := input.LexToken();
      if token.kind == Blankline || token.kind == Comment {
        return parsed.(lineType := token.kind);
      }
      if token.kind == Label {
        LabelText(line);
        parsed := parsed.(lineType := Label, name := token.text);
        symbols.AddSymbol(parsed.name, currentAddress);
        LexShift(line, input.pos);
        token := input.LexToken();
      }
      if token.kind == Instruction {
        parsed := parsed.(lineType := Instruction, opcode := token.text);
        size := size + 2;
      } else if token.kind == Direct {
        parsed := parsed.(lineType := Direct, opcode := token.text);
      }
      LexedTwice(line, input.pos);
      var arguments := ReadArguments(input);
      parsed := parsed.(arguments := arguments);
    }

    /** The argument loop of `parse_line`. */
    method ReadArguments(input: Cursor) returns (arguments: seq<string>)
      requires input.Valid() && ParseArguments(input.line[input.pos..], []).Some?
      modifies this`size, input
      ensures var r := ParseArguments(old(input.line[input.pos..]), []).value;
              arguments == r.0 && size == old(size) + r.1
    {
      hide Lex, LexAt;
      ghost var all := ParseArguments(input.line[input.pos..], []).value;
      arguments := [];
      while true
        invariant input.Valid() && |arguments| <= 3
        invariant ParseArguments(input.line[input.pos..], arguments).Some?
        invariant var r := ParseArguments(input.line[input.pos..], arguments).value;
                  all.0 == r.0 && old(size) + all.1 == size + r.1
        decreases |input.line| - input.pos
      {
        ghost var rest := input.line[input.pos..];
        LexShift(input.line, input.pos);
        Progress(rest);
        var token := input.LexToken();
        assert input.line[input.pos..] == rest[Lex(rest).1..];
        if token.kind == Blankline || token.kind == Comment { break; }
        if |arguments| < 3 && token.text != "" {
          AddBytesToHeader(token.kind);
          arguments := arguments + [token.text];
        }
      }
    }

    /** The loop body of `parse_contents`. */
    method TakeLine(line: string, currentAddress: nat, ghost pass: Pass) returns (newAddress: nat)
      requires Parse(line).Some? && symbols.Valid()
      requires pass == Pass(size, currentAddress, symbols.Contents(), parsedLines)
      modifies this, symbols
      ensures symbols.Valid()
      ensures Absorb(pass, Parse(line).value.0, Parse(line).value.1) ==
              Pass(size, newAddress, symbols.Contents(), parsedLines)
    {
      hide Parse, Absorb;
      newAddress := currentAddress;
      ghost var table := symbols.Contents();
      var parsed := ParseLine(line, currentAddress);
      NamedLabel(line);
      AbsorbCases(pass, parsed, Parse(line).value.1);
      if parsed.lineType == Label {
        symbols.AddSymbol(parsed.name, currentAddress);
      } else if parsed.lineType == Instruction {
        newAddress := size;
        parsedLines := parsedLines + [Encoder.Line(parsed.opcode, parsed.arguments)];
      }
    }

    /** `parse_contents`, on the lines of the file. */
    method ParseContents(lines: seq<string>)
      requires Terminates(lines) && size == 0 && parsedLines == [] && symbols.Valid() && symbols.Contents() == []
      modifies this, symbols
      ensures symbols.Valid()
      ensures var r := FirstPass(lines, |lines|);
              size == r.size && parsedLines == r.program && symbols.Contents() == r.table
    {
      hide Parse, Absorb;
      var currentAddress := 0;
      for i := 0 to |lines|
        invariant symbols.Valid()
        invariant FirstPass(lines, i) == Pass(size, currentAddress, symbols.Contents(), parsedLines)
      {
        currentAddress := TakeLine(lines[i], currentAddress, FirstPass(lines, i));
      }
    }
  }

  lemma LexedTwice(line: string, p: nat)
    requires p <= |line|
    ensures forall n: nat | n <= p :: line[n..][p - n..] == line[p..]
  {
  }

  /** The text of a label is not empty: it ends in a colon. */
  lemma LabelText(s: string)
    requires Lex(s).0.kind == Label
    ensures Lex(s).0.text != ""
  {
  }

  lemma NamedLabel(s: string)
    requires Parse(s).Some?
    ensures Parse(s).value.0.lineType == Label ==> Parse(s).value.0.name != ""
  {
    hide Lex;
    if Lex(s).0.kind == Label { LabelText(s); }
  }
}
