/** The two passes count addresses differently: the first by nominal sizes, the second by a
    counter that starts late. What that does to every label. */
module TwoPass {
  import opened Wrappers
  import opened Bytes
  import opened Text
  import opened Lexer
  import opened Symbols
  import opened Parser
  import opened Lexemes
  import opened Printing
  import opened Drift
  import opened Encoder

  // ---------------------------------------------------------------- second pass

  predicate NoOperandsBefore(program: seq<Line>, n: nat)
    requires n <= |program|
  {
    forall i | 0 <= i < n :: program[i].arguments == []
  }

  /** How many of the first `n` opcode bytes the second pass does not count: those written
      while its address is still zero. */
  function Uncounted(program: seq<Line>, n: nat): nat
    requires n <= |program|
  {
    if n == 0 then 0 else Uncounted(program, n - 1) + if NoOperandsBefore(program, n - 1) then 1 else 0
  }

  lemma LineAdvance(table: Table, line: Line, address: int)
    requires ValidLine(line)
    ensures |LineBytes(table, line, address)| >= 1
    ensures |LineBytes(table, line, address)| == 1 <==> line.arguments == []
  {
    if |line.arguments| == 1 {
      Widths(table, line.arguments[0], PastOpcode(address));
    }
  }

  /** The second pass's address is the number of bytes written less the uncounted ones. */
  lemma {:induction false} AddressLaw(table: Table, program: seq<Line>, n: nat)
    requires AllValid(program) && n <= |program|
    ensures |ProgramBytes(table, program, n)| == ProgramAddress(table, program, n) + Uncounted(program, n)
    ensures ProgramAddress(table, program, n) >= 0
    ensures ProgramAddress(table, program, n) == 0 <==> NoOperandsBefore(program, n)
    decreases n
  {
    hide LineBytes, Code;
    if n > 0 {
      AddressLaw(table, program, n - 1);
      assert ValidLine(program[n - 1]);
      LineAdvance(table, program[n - 1], ProgramAddress(table, program, n - 1));
      assert NoOperandsBefore(program, n) <==> NoOperandsBefore(program, n - 1) && program[n - 1].arguments == [];
    }
  }

  /** From the first instruction with an operand on, their number is fixed: one for that
      instruction and one for each before it. */
  lemma {:induction false} UncountedIs(program: seq<Line>, first: nat, n: nat)
    requires first < n <= |program| && NoOperandsBefore(program, first) && program[first].arguments != []
    ensures Uncounted(program, n) == first + 1
    decreases n
  {
    if n > first + 1 {
      UncountedIs(program, first, n - 1);
      assert !NoOperandsBefore(program, n - 1);
    } else {
      AllUncounted(program, first);
    }
  }

  /** The first instruction with an operand. */
  function FirstOperand(program: seq<Line>): (r: nat)
    ensures r <= |program|
    ensures NoOperandsBefore(program, r) && (r < |program| ==> program[r].arguments != [])
  {
    if program == [] || program[0].arguments != [] then 0
    else
      var r := FirstOperand(program[1..]);
      assert forall i | 0 < i < r + 1 :: program[i] == program[1..][i - 1];
      r + 1
  }

  lemma UncountedFrom(program: seq<Line>, i: nat)
    requires i < |program| && program[i].arguments != []
    ensures Uncounted(program, i + 1) == FirstOperand(program) + 1
  {
    hide FirstOperand, Uncounted;
    var first := FirstOperand(program);
    assert NoOperandsBefore(program, first);
    assert first <= i;
    UncountedIs(program, first, i + 1);
  }

  lemma {:induction false} AllUncounted(program: seq<Line>, n: nat)
    requires n <= |program| && NoOperandsBefore(program, n)
    ensures Uncounted(program, n) == n
    decreases n
  {
    if n > 0 { AllUncounted(program, n - 1); }
  }

  // ---------------------------------------------------------------- first pass

  predicate HasInstruction(lines: seq<string>, i: nat)
    requires i < |lines| && Terminates(lines)
  {
    Parse(lines[i]).value.0.lineType == Instruction
  }

  /** The drift of the first `n` lines: a count over the shapes of their instructions'
      operands. */
  function TotalDrift(lines: seq<string>, n: nat): int
    requires n <= |lines| && Terminates(lines)
  {
    if n == 0 then 0
    else TotalDrift(lines, n - 1) + if HasInstruction(lines, n - 1) then LineDrift(LineTokens(lines[n - 1])) else 0
  }

  /** What the first pass counts for operands on lines without an instruction, of which
      nothing will be written. */
  function Strays(lines: seq<string>, n: nat): nat
    requires n <= |lines| && Terminates(lines)
  {
    if n == 0 then 0
    else Strays(lines, n - 1) + if HasInstruction(lines, n - 1) then 0 else Nominals(LineTokens(lines[n - 1]))
  }

  /** The number of lines up to the last instruction among the first `n`. */
  function UpToInstruction(lines: seq<string>, n: nat): (r: nat)
    requires n <= |lines| && Terminates(lines)
    ensures r <= n
  {
    if n == 0 then 0 else if HasInstruction(lines, n - 1) then n else UpToInstruction(lines, n - 1)
  }

  lemma {:induction false} ProgramGrows(lines: seq<string>, k: nat, n: nat)
    requires k <= n <= |lines| && Terminates(lines)
    ensures FirstPass(lines, k).program <= FirstPass(lines, n).program
    decreases n
  {
    hide Parse;
    if k < n { ProgramGrows(lines, k, n - 1); }
  }

  lemma {:induction false} BytesOfPrefix(table: Table, a: seq<Line>, b: seq<Line>, n: nat)
    requires AllValid(b) && a <= b && n <= |a|
    ensures AllValid(a)
    ensures ProgramBytes(table, a, n) == ProgramBytes(table, b, n)
    ensures ProgramAddress(table, a, n) == ProgramAddress(table, b, n)
    decreases n
  {
    hide ValidLine, LineBytes, AddressAfter;
    forall i | 0 <= i < |a| ensures ValidLine(a[i]) { assert a[i] == b[i]; }
    if n > 0 {
      assert a[n - 1] == b[n - 1];
      BytesOfPrefix(table, a, b, n - 1);
    }
  }

  /** Where the second pass will have arrived at line `k`. */
  function Emitted(table: Table, lines: seq<string>, k: nat): nat
    requires k <= |lines| && Terminates(lines) && AllValid(FirstPass(lines, k).program)
  {
    |ProgramBytes(table, FirstPass(lines, k).program, |FirstPass(lines, k).program|)|
  }

  lemma ParsedType(lines: seq<string>, i: nat)
    requires i < |lines| && Terminates(lines)
    ensures Parse(lines[i]).Some?
    ensures HasInstruction(lines, i) <==> Parse(lines[i]).value.0.lineType == Instruction
  {
    hide Parse;
  }

  lemma PassStep(lines: seq<string>, k: nat)
    requires 0 < k <= |lines| && Terminates(lines)
    ensures var (p, q, (line, delta)) := (FirstPass(lines, k - 1), FirstPass(lines, k), Parse(lines[k - 1]).value);
            && q.size == p.size + delta
            && if HasInstruction(lines, k - 1) then
                 q.address == q.size && q.program == p.program + [Line(line.opcode, line.arguments)]
               else q.address == p.address && q.program == p.program
  {
    hide Parse;
  }

  lemma SumsStep(lines: seq<string>, k: nat)
    requires 0 < k <= |lines| && Terminates(lines)
    ensures if HasInstruction(lines, k - 1) then
              && TotalDrift(lines, k) == TotalDrift(lines, k - 1) + LineDrift(LineTokens(lines[k - 1]))
              && Strays(lines, k) == Strays(lines, k - 1) && UpToInstruction(lines, k) == k
            else
              && TotalDrift(lines, k) == TotalDrift(lines, k - 1)
              && Strays(lines, k) == Strays(lines, k - 1) + Nominals(LineTokens(lines[k - 1]))
              && UpToInstruction(lines, k) == UpToInstruction(lines, k - 1)
  {
    hide Parse, LineDrift, LineTokens, Nominals;
  }

  lemma OneMoreLine(table: Table, a: seq<Line>, line: Line)
    requires AllValid(a + [line])
    ensures AllValid(a)
    ensures |ProgramBytes(table, a + [line], |a| + 1)| == |ProgramBytes(table, a, |a|)| + LineWidth(line.arguments)
  {
    hide LineBytes, LineWidth, AddressAfter, ValidLine;
    var b := a + [line];
    BytesOfPrefix(table, a, b, |a|);
    assert ValidLine(b[|a|]);
    LineWidths(table, line, ProgramAddress(table, b, |a|));
  }

  /** The address of the first pass at line `k` is the offset the second pass reaches there,
      plus the drift of the instructions before, plus the stray operands before the last of
      them; its size likewise, with all stray operands. */
  ghost predicate Drifted(table: Table, lines: seq<string>, k: nat)
    requires k <= |lines| && Terminates(lines) && AllValid(FirstPass(lines, k).program)
  {
    var pass, offset := FirstPass(lines, k), Emitted(table, lines, k) + TotalDrift(lines, k);
    && pass.address == offset + Strays(lines, UpToInstruction(lines, k))
    && pass.size == offset + Strays(lines, k)
  }

  /** Drift law: so it is at every line of every source. */
  lemma {:induction false} DriftLaw(table: Table, lines: seq<string>, k: nat)
    requires k <= |lines| && Terminates(lines) && AllValid(FirstPass(lines, k).program)
    ensures Drifted(table, lines, k)
    decreases k
  {
    hide FirstPass, Parse, TotalDrift, Strays, UpToInstruction, HasInstruction, AllValid, LineDrift, LineTokens,
         LineWidth, Nominals, Terminates, ProgramBytes;
    if k == 0 {
      DriftStart(table, lines);
    } else {
      PassStep(lines, k);
      SumsStep(lines, k);
      ParsedType(lines, k - 1);
      if HasInstruction(lines, k - 1) {
        var line := Parse(lines[k - 1]).value.0;
        OneMoreLine(table, FirstPass(lines, k - 1).program, Line(line.opcode, line.arguments));
        DriftIs(lines[k - 1]);
      } else {
        ParsedFrom(lines[k - 1]);
      }
      DriftLaw(table, lines, k - 1);
    }
  }

  lemma DriftStart(table: Table, lines: seq<string>)
    requires Terminates(lines)
    ensures AllValid(FirstPass(lines, 0).program) && Drifted(table, lines, 0)
  {
  }

  /** The last of the first `n` lines whose label starts with the query. */
  function LastMatch(lines: seq<string>, n: nat, query: string): (r: Option<nat>)
    requires n <= |lines| && Terminates(lines)
    ensures r.Some? ==> r.value < n
  {
    if n == 0 then None
    else
      var name := Parse(lines[n - 1]).value.0.name;
      if name != "" && Matches(name, query) then Some(n - 1) else LastMatch(lines, n - 1, query)
  }

  lemma TableStep(lines: seq<string>, n: nat)
    requires 0 < n <= |lines| && Terminates(lines)
    ensures var (p, q, line) := (FirstPass(lines, n - 1), FirstPass(lines, n), Parse(lines[n - 1]).value.0);
            var b := Binding(line.name, p.address);
            q.table == if line.lineType == Label then [b] + ([b] + p.table)
                       else (if line.name != "" then [b] else []) + p.table
    ensures var line := Parse(lines[n - 1]).value.0; line.lineType == Label ==> line.name != ""
  {
    hide Parse, Absorb;
    NamedLabel(lines[n - 1]);
    AbsorbCases(FirstPass(lines, n - 1), Parse(lines[n - 1]).value.0, Parse(lines[n - 1]).value.1);
  }

  lemma LastMatchStep(lines: seq<string>, n: nat, query: string)
    requires 0 < n <= |lines| && Terminates(lines)
    ensures var name := Parse(lines[n - 1]).value.0.name;
            LastMatch(lines, n, query) ==
              if name != "" && Matches(name, query) then Some(n - 1) else LastMatch(lines, n - 1, query)
  {
    hide Parse;
  }

  /** What the symbol table of the first pass answers. */
  lemma {:induction false} LookupFinds(lines: seq<string>, n: nat, query: string)
    requires n <= |lines| && Terminates(lines)
    ensures Lookup(FirstPass(lines, n).table, query) ==
            match LastMatch(lines, n, query) case None => -1 case Some(k) => FirstPass(lines, k).address
    decreases n
  {
    hide Parse, FirstPass, LastMatch, Matches, Lookup;
    if n == 0 {
      NothingFound(lines, query);
    } else {
      LookupFinds(lines, n - 1, query);
      TableStep(lines, n);
      LastMatchStep(lines, n, query);
      var line, before := Parse(lines[n - 1]).value.0, FirstPass(lines, n - 1);
      var b := Binding(line.name, before.address);
      LookupPushed(b, before.table, query);
      LookupPushed(b, [b] + before.table, query);
      assert [] + before.table == before.table;
    }
  }

  lemma NothingFound(lines: seq<string>, query: string)
    requires Terminates(lines)
    ensures Lookup(FirstPass(lines, 0).table, query) == -1 && LastMatch(lines, 0, query) == None
  {
  }

  lemma LookupPushed(b: Binding, table: seq<Binding>, query: string)
    ensures Lookup([b] + table, query) == if Matches(b.text, query) then b.address else Lookup(table, query)
  {
    assert ([b] + table)[1..] == table;
  }

  // ---------------------------------------------------------------- the law

  /** The offset in the output of argument `j` of instruction `i`. */
  function OperandOffset(table: Table, program: seq<Line>, i: nat, j: nat): nat
    requires AllValid(program) && i < |program| && j < |program[i].arguments|
  {
    |ProgramBytes(table, program, i)| + (if |program[i].arguments| > 1 then 2 else 1)
      + ArgsWidth(program[i].arguments, j)
  }

  lemma OperandAddress(table: Table, program: seq<Line>, i: nat)
    requires AllValid(program) && i < |program|
    ensures PastOpcode(ProgramAddress(table, program, i)) ==
            |ProgramBytes(table, program, i)| + 1 - Uncounted(program, i + 1)
  {
    hide LineBytes;
    AddressLaw(table, program, i);
  }

  lemma SubSlice(s: seq<byte>, a: nat, b: nat, x: nat, y: nat)
    requires a <= b <= |s| && x <= y && a + y <= b
    ensures s[a..b][x..y] == s[a + x..a + y]
  {
    var t := s[a..b];
    assert |t[x..y]| == |s[a + x..a + y]|;
    assert forall k | 0 <= k < y - x :: t[x..y][k] == t[x + k] == s[a + x + k] == s[a + x..a + y][k];
  }

  lemma PrefixSlice(p: seq<byte>, s: seq<byte>, x: nat, y: nat)
    requires p <= s && x <= y <= |p|
    ensures s[x..y] == p[x..y]
  {
  }

  lemma LabelInArgs(table: Table, args: seq<string>, address: int, j: nat)
    requires j < |args| && IsLabel(args[j]) && At(args[j], 1) == ':'
    ensures var w := ArgsWidth(args, j);
            && w + 2 <= |ArgsBytes(table, args, |args|, address)|
            && ArgsBytes(table, args, |args|, address)[w..w + 2] ==
                 TwoBytes(Lookup(table, Drop(args[j], 2)) - (address + w))
  {
    hide ArgBytes, Lookup, TwoBytes, IsLabel, ArgsWidth;
    var w := ArgsWidth(args, j);
    ArgsPrefix(table, args, j + 1, |args|, address);
    ArgsWidths(table, args, j, address);
    LabelArgBytes(table, args[j], address + w);
    var front, b := ArgsBytes(table, args, j, address), ArgBytes(table, args[j], address + w);
    assert (front + b)[w..w + 2] == b;
    PrefixSlice(front + b, ArgsBytes(table, args, |args|, address), w, w + 2);
  }

  /** The two bytes of a digit-free label operand, in the instruction that holds it. */
  lemma LabelBytes(table: Table, line: Line, address: int, j: nat)
    requires ValidLine(line) && j < |line.arguments|
    requires IsLabel(line.arguments[j]) && At(line.arguments[j], 1) == ':'
    ensures var args := line.arguments;
            var at := (if |args| > 1 then 2 else 1) + ArgsWidth(args, j);
            && at + 2 <= |LineBytes(table, line, address)|
            && LineBytes(table, line, address)[at..at + 2] ==
                 TwoBytes(Lookup(table, Drop(args[j], 2)) - (PastOpcode(address) + at - 1))
  {
    hide Code, Lookup, Descriptor, TwoBytes, IsLabel, ArgsBytes, ArgBytes, LoneBytes;
    var args, whole := line.arguments, LineBytes(table, line, address);
    if |args| > 1 {
      var b, w := ArgsBytes(table, args, |args|, PastOpcode(address) + 1), ArgsWidth(args, j);
      LabelInArgs(table, args, PastOpcode(address) + 1, j);
      assert whole[2..|whole|] == b;
      SubSlice(whole, 2, |whole|, w, w + 2);
    } else {
      LabelArgBytes(table, args[0], PastOpcode(address));
    }
  }

  lemma LabelArgBytes(table: Table, arg: string, address: int)
    requires IsLabel(arg) && At(arg, 1) == ':'
    ensures ArgBytes(table, arg, address) == LoneBytes(table, arg, address)
            == TwoBytes(Lookup(table, Drop(arg, 2)) - address)
  {
  }

  lemma {:induction false} ArgsPrefix(table: Table, args: seq<string>, j: nat, n: nat, address: int)
    requires j <= n <= |args|
    ensures ArgsBytes(table, args, j, address) <= ArgsBytes(table, args, n, address)
    decreases n
  {
    hide ArgBytes;
    if j < n { ArgsPrefix(table, args, j, n - 1, address); }
  }

  lemma {:induction false} BytesPrefix(table: Table, program: seq<Line>, i: nat, n: nat)
    requires AllValid(program) && i <= n <= |program|
    ensures ProgramBytes(table, program, i) <= ProgramBytes(table, program, n)
    decreases n
  {
    hide LineBytes, AddressAfter, ValidLine;
    if i < n { BytesPrefix(table, program, i, n - 1); }
  }

  /** Two-pass law. Every digit-free label operand is written as the low sixteen bits of:
      where the label's line ends up in the output, plus the drift there, minus where the
      operand itself is, plus one for the first instruction with an operand and for each
      before it. A label that is not found counts as -1. */
  lemma LabelDisplacement(lines: seq<string>, i: nat, j: nat)
    requires Terminates(lines)
    requires var program := FirstPass(lines, |lines|).program;
             && AllValid(program) && i < |program| && j < |program[i].arguments|
             && IsLabel(program[i].arguments[j]) && At(program[i].arguments[j], 1) == ':'
    ensures var (table, program) := (FirstPass(lines, |lines|).table, FirstPass(lines, |lines|).program);
            var name, at := Drop(program[i].arguments[j], 2), OperandOffset(table, program, i, j);
            var output := ProgramBytes(table, program, |program|);
            var uncounted := FirstOperand(program) + 1;
            && at + 2 <= |output|
            && match LastMatch(lines, |lines|, name)
               case None => output[at..at + 2] == TwoBytes(-1 - at + uncounted)
               case Some(k) =>
                 && AllValid(FirstPass(lines, k).program)
                 && output[at..at + 2] ==
                    TwoBytes(Emitted(table, lines, k) + TotalDrift(lines, k) + Strays(lines, UpToInstruction(lines, k))
                             - at + uncounted)
  {
    hide Parse, LineBytes, FirstPass, ProgramBytes, ProgramAddress, TwoBytes, ValidLine, IsLabel, Uncounted, LastMatch,
         TotalDrift, Strays, ArgsWidth, AllValid, Lookup, PastOpcode, FirstOperand;
    var pass := FirstPass(lines, |lines|);
    var table, program := pass.table, pass.program;
    var name, at := Drop(program[i].arguments[j], 2), OperandOffset(table, program, i, j);
    LookupFinds(lines, |lines|, name);
    OperandAddress(table, program, i);
    UncountedFrom(program, i);
    ValidAt(program, i);
    var address, base := ProgramAddress(table, program, i), ProgramBytes(table, program, i);
    LabelBytes(table, program[i], address, j);
    LineInOutput(table, program, i);
    var b, output := LineBytes(table, program[i], address), ProgramBytes(table, program, |program|);
    SubSlice(output, |base|, |base| + |b|, at - |base|, at - |base| + 2);
    match LastMatch(lines, |lines|, name)
    case None =>
    case Some(k) =>
      ProgramGrows(lines, k, |lines|);
      BytesOfPrefix(table, FirstPass(lines, k).program, program, 0);
      DriftLaw(table, lines, k);
  }

  lemma ValidAt(program: seq<Line>, i: nat)
    requires AllValid(program) && i < |program|
    ensures ValidLine(program[i])
  {
  }

  lemma LineInOutput(table: Table, program: seq<Line>, i: nat)
    requires AllValid(program) && i < |program|
    ensures ValidLine(program[i])
    ensures var base := ProgramBytes(table, program, i);
            var b := LineBytes(table, program[i], ProgramAddress(table, program, i));
            var output := ProgramBytes(table, program, |program|);
            |base| + |b| <= |output| && output[|base|..|base| + |b|] == b
  {
    hide LineBytes, AddressAfter, ValidLine;
    BytesPrefix(table, program, i + 1, |program|);
    var base, b := ProgramBytes(table, program, i), LineBytes(table, program[i], ProgramAddress(table, program, i));
    assert ProgramBytes(table, program, i + 1) == base + b;
    assert (base + b)[|base|..] == b;
  }

  // ---------------------------------------------------------------- ordinary sources

  /** Lines of source as `fgets` delivers them. */
  predicate Ordinary(sts: seq<Statement>)
  {
    forall i | 0 <= i < |sts| :: WellFormed(sts[i]) && OneLine(Render(sts[i]))
  }

  function Lines(sts: seq<Statement>): (r: seq<string>)
    ensures |r| == |sts| && forall i | 0 <= i < |r| :: r[i] == Render(sts[i])
  {
    seq(|sts|, i requires 0 <= i < |sts| => Render(sts[i]))
  }

  /** The instructions of the first `n` lines. */
  function Instructions(sts: seq<Statement>, n: nat): seq<Line>
    requires n <= |sts|
  {
    if n == 0 then []
    else
      var st := sts[n - 1];
      Instructions(sts, n - 1) + if st.mnemonic == "" then [] else [Line(st.mnemonic, Arguments(st))]
  }

  /** The drift of the first `n` lines, from the shapes of their operands alone. */
  function SourceDrift(sts: seq<Statement>, n: nat): int
    requires n <= |sts|
  {
    if n == 0 then 0 else SourceDrift(sts, n - 1) + StatementDrift(sts[n - 1])
  }

  /** The last of the first `n` lines whose label, with its colon, starts with the query. */
  function LastNamed(sts: seq<Statement>, n: nat, query: string): (r: Option<nat>)
    requires n <= |sts|
    ensures r.Some? ==> r.value < n
  {
    if n == 0 then None
    else
      var name := sts[n - 1].name;
      if name != "" && Matches(name + ":", query) then Some(n - 1) else LastNamed(sts, n - 1, query)
  }

  lemma OrdinaryReturns(sts: seq<Statement>)
    requires Ordinary(sts)
    ensures Terminates(Lines(sts))
    ensures forall i | 0 <= i < |sts| ::
              Parse(Lines(sts)[i]).value.0 == Parsed(sts[i])
              && (HasInstruction(Lines(sts), i) <==> sts[i].mnemonic != "")
  {
    hide Parse, WellFormed, OneLine, Render, Parsed, Sizes;
    forall i | 0 <= i < |sts|
      ensures Parse(Lines(sts)[i]).Some? && Parse(Lines(sts)[i]).value.0 == Parsed(sts[i])
    {
      PrintThenParse(sts[i]);
    }
    forall i | 0 <= i < |sts| ensures HasInstruction(Lines(sts), i) <==> sts[i].mnemonic != "" {
      ParsedInstruction(sts[i]);
    }
  }

  /** Every ordinary source is assembled, with nothing stray, and the drift is the count over
      the shapes of its operands. */
  lemma {:induction false} OrdinarySource(sts: seq<Statement>, n: nat, query: string)
    requires Ordinary(sts) && n <= |sts|
    ensures Terminates(Lines(sts))
    ensures FirstPass(Lines(sts), n).program == Instructions(sts, n)
    ensures TotalDrift(Lines(sts), n) == SourceDrift(sts, n) && Strays(Lines(sts), n) == 0
    ensures LastMatch(Lines(sts), n, query) == LastNamed(sts, n, query)
    decreases n
  {
    hide Parse, WellFormed, OneLine, Render, Parsed, LineDrift, LineTokens, StatementDrift, Arguments, HasInstruction,
         FirstPass, TotalDrift, Strays, LastMatch, Nominals, Matches, Terminates, UpToInstruction;
    OrdinaryReturns(sts);
    if n == 0 {
      OrdinaryStart(Lines(sts), query);
    } else {
      OrdinarySource(sts, n - 1, query);
      var st := sts[n - 1];
      PassStep(Lines(sts), n);
      SumsStep(Lines(sts), n);
      LastMatchStep(Lines(sts), n, query);
      ParsedInstruction(st);
      ParsedType(Lines(sts), n - 1);
      if st.mnemonic != "" {
        StatementDriftIs(st);
      } else {
        PrintThenParse(st);
        ParsedFrom(Render(st));
        NoDrift(st);
      }
    }
  }

  lemma OrdinaryStart(lines: seq<string>, query: string)
    requires Terminates(lines)
    ensures FirstPass(lines, 0).program == [] && TotalDrift(lines, 0) == 0 && Strays(lines, 0) == 0
    ensures LastMatch(lines, 0, query) == None
  {
  }

  lemma NoDrift(st: Statement)
    requires st.mnemonic == ""
    ensures StatementDrift(st) == 0
  {
  }

  /** Two-pass law for ordinary sources: in the output, a digit-free label operand is the low
      sixteen bits of the offset of its label's line, plus the drift of the lines before it,
      minus the operand's own offset, plus one for the first instruction with an operand and
      for each before it. */
  lemma SourceDisplacement(sts: seq<Statement>, i: nat, j: nat)
    requires Ordinary(sts)
    requires var program := Instructions(sts, |sts|);
             && AllValid(program) && i < |program| && j < |program[i].arguments|
             && IsLabel(program[i].arguments[j]) && At(program[i].arguments[j], 1) == ':'
    ensures Terminates(Lines(sts)) && FirstPass(Lines(sts), |sts|).program == Instructions(sts, |sts|)
    ensures var (table, program) := (FirstPass(Lines(sts), |sts|).table, Instructions(sts, |sts|));
            var name, at := Drop(program[i].arguments[j], 2), OperandOffset(table, program, i, j);
            var output := ProgramBytes(table, program, |program|);
            && at + 2 <= |output|
            && match LastNamed(sts, |sts|, name)
               case None => output[at..at + 2] == TwoBytes(-1 - at + FirstOperand(program) + 1)
               case Some(k) =>
                 var before := Instructions(sts, k);
                 && AllValid(before)
                 && output[at..at + 2] ==
                    TwoBytes(|ProgramBytes(table, before, |before|)| + SourceDrift(sts, k) - at
                             + FirstOperand(program) + 1)
  {
    hide Parse, Ordinary, LineBytes, FirstPass, ProgramBytes, TwoBytes, ValidLine, IsLabel, TotalDrift, Strays,
         AllValid, FirstOperand, Instructions, SourceDrift, LastMatch, LastNamed, OperandOffset, Terminates;
    var name := Drop(Instructions(sts, |sts|)[i].arguments[j], 2);
    OrdinarySource(sts, |sts|, name);
    LabelDisplacement(Lines(sts), i, j);
    match LastNamed(sts, |sts|, name)
    case None =>
    case Some(k) =>
      OrdinarySource(sts, k, name);
      OrdinarySource(sts, UpToInstruction(Lines(sts), k), name);
  }
}
