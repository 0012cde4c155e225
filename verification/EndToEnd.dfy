/** From source instructions to executed instructions. */
module EndToEnd {
  import opened Bytes
  import opened OpTable
  import opened Encoder
  import opened Decoder
  import opened RoundTrip
  import opened Machine
  import opened Game
  import opened Independence
  import opened Setup
  import opened Schedule
  import Parser
  import opened SourceNumbers

  function CostOf(line: Line): nat
    requires ValidLine(line)
  {
    CodeIsOpcode(line.opcode);
    Cost(Code(line.opcode))
  }

  /** The visit at which a process that cycles through the program executes its `k`-th
      instruction: the sum of the costs of the earlier ones. */
  function VisitOfStep(lines: seq<Line>, k: nat): nat
    requires |lines| > 0 && AllValid(lines)
  {
    if k == 0 then 0 else VisitOfStep(lines, k - 1) + CostOf(lines[(k - 1) % |lines|])
  }

  /** The first `k` instructions the machine executes: the program, over and over. */
  function Cycle(mem: seq<byte>, base: int, table: Table, lines: seq<Line>, k: nat): (r: seq<Decoded>)
    requires |lines| > 0 && AllValid(lines)
    ensures |r| == k
    ensures forall i | 0 <= i < k :: r[i] == Seen(mem, base, table, lines, i % |lines|)
  {
    if k == 0 then [] else Cycle(mem, base, table, lines, k - 1) + [Seen(mem, base, table, lines, (k - 1) % |lines|)]
  }

  /** One executed instruction and the waiting that follows it. The process goes on where the
      instruction ends, which is counted from the start of the code when it is behind its
      end. */
  lemma {:induction false} OneStep(mem: seq<byte>, base: int, size: nat, v: nat, at: int, i: nat)
    requires size > 0 && 0 <= at < size
    requires var t := Solo(mem, base, size, 0, v); t.cycles == 0 && Wrap(t.counter, size) == at
    requires IsOpcode(Cell(mem, base + at))
    requires 1 <= i <= Cost(Cell(mem, base + at))
    ensures var t, u, d := Solo(mem, base, size, 0, v), Solo(mem, base, size, 0, v + i), Decode(mem, base + at);
            && u.cycles == Cost(d.opcode) - i
            && u.log == t.log + [d]
            && (u.counter == d.next - base || u.counter == Wrap(d.next - base, size))
            && Wrap(u.counter, size) == Wrap(d.next - base, size)
    decreases i
  {
    hide Decode, Wrap;
    var d := Decode(mem, base + at);
    WrapIs(d.next - base, size, 0);
    if i > 1 {
      OneStep(mem, base, size, v, at, i - 1);
      assert Solo(mem, base, size, 0, v + i) == SoloVisit(mem, base, size, Solo(mem, base, size, 0, v + i - 1));
    } else {
      assert Solo(mem, base, size, 0, v + 1) == SoloVisit(mem, base, size, Solo(mem, base, size, 0, v));
    }
  }

  lemma OffsetsGrow(mem: seq<byte>, base: int, table: Table, lines: seq<Line>, k: nat)
    requires AllValid(lines) && k < |lines|
    requires Stored(mem, base, ProgramBytes(table, lines, |lines|))
    ensures 0 <= Offset(table, lines, k) < Offset(table, lines, k + 1) <= Offset(table, lines, |lines|)
    ensures Wrap(Offset(table, lines, k + 1), Offset(table, lines, |lines|)) ==
            if k + 1 == |lines| then 0 else Offset(table, lines, k + 1)
  {
    hide Stored, ProgramBytes, ValidLine;
    StoredPrefix(mem, base, table, lines, k + 1, |lines|);
    StoredPrefix(mem, base, table, lines, k, k + 1);
  }

  lemma NextIndex(k: nat, m: nat)
    requires m > 0
    ensures (k + 1) % m == if k % m + 1 == m then 0 else k % m + 1
  {
    var q, r := k / m, k % m;
    if r + 1 == m { ModUnique(k + 1, m, q + 1, 0); } else { ModUnique(k + 1, m, q, r + 1); }
  }

  /** What the table says the instruction costs is what the decoded instruction costs. */
  lemma StepCost(mem: seq<byte>, base: int, table: Table, lines: seq<Line>, j: nat)
    requires AllValid(lines) && j < |lines|
    requires Stored(mem, base, ProgramBytes(table, lines, |lines|))
    ensures var a := base + Offset(table, lines, j);
            IsOpcode(Cell(mem, a)) && Cost(Cell(mem, a)) == CostOf(lines[j]) >= 2
    ensures Seen(mem, base, table, lines, j).next == base + Offset(table, lines, j + 1)
  {
    hide Stored, ProgramBytes;
    StoredLine(mem, base, table, lines, j);
    assert ValidLine(lines[j]);
    CodeIsOpcode(lines[j].opcode);
    ArityAndCostBounds(Code(lines[j].opcode));
  }

  /** After `v` visits the process stands before its `k`-th instruction, ready to execute it,
      and has executed the `k` instructions before it. */
  ghost predicate Standing(mem: seq<byte>, base: int, table: Table, lines: seq<Line>, k: nat, v: nat)
    requires |lines| > 0 && AllValid(lines)
  {
    var size := Offset(table, lines, |lines|);
    var t := Solo(mem, base, size, 0, v);
    && t.cycles == 0 && t.log == Cycle(mem, base, table, lines, k)
    && Wrap(t.counter, size) == Offset(table, lines, k % |lines|)
  }

  lemma StandingStart(mem: seq<byte>, base: int, table: Table, lines: seq<Line>)
    requires |lines| > 0 && AllValid(lines)
    ensures Standing(mem, base, table, lines, 0, VisitOfStep(lines, 0)) && VisitOfStep(lines, 0) == 0
    ensures Offset(table, lines, 0) == 0
  {
  }

  lemma CycleStep(mem: seq<byte>, base: int, table: Table, lines: seq<Line>, k: nat)
    requires |lines| > 0 && AllValid(lines)
    ensures Cycle(mem, base, table, lines, k + 1) ==
            Cycle(mem, base, table, lines, k) + [Seen(mem, base, table, lines, k % |lines|)]
    ensures VisitOfStep(lines, k + 1) == VisitOfStep(lines, k) + CostOf(lines[k % |lines|])
  {
  }

  /** The next instruction is executed on the next visit, and nothing during the rest of its
      cost. */
  lemma StandingStep(mem: seq<byte>, base: int, table: Table, lines: seq<Line>, k: nat, v: nat)
    requires |lines| > 0 && WellFramedProgram(table, lines)
    requires Stored(mem, base, ProgramBytes(table, lines, |lines|))
    requires Standing(mem, base, table, lines, k, v)
    ensures var size, c := Offset(table, lines, |lines|), CostOf(lines[k % |lines|]);
            && Standing(mem, base, table, lines, k + 1, v + c)
            && forall u | v < u <= v + c :: Solo(mem, base, size, 0, u).log == Cycle(mem, base, table, lines, k + 1)
  {
    hide Stored, WellFramed, ProgramBytes, Decode, Solo, Seen, Wrap, ValidLine, Code, CostOf, Cost, Cycle,
         ProgramAddress;
    var size, j := Offset(table, lines, |lines|), k % |lines|;
    StreamRoundTrip(mem, base, table, lines, j);
    OffsetsGrow(mem, base, table, lines, j);
    OffsetsGrow(mem, base, table, lines, |lines| - 1);
    NextIndex(k, |lines|);
    StepCost(mem, base, table, lines, j);
    CycleStep(mem, base, table, lines, k);
    StandingStart(mem, base, table, lines);
    forall u | v < u <= v + CostOf(lines[j])
      ensures Solo(mem, base, size, 0, u).log == Cycle(mem, base, table, lines, k + 1)
    {
      OneStep(mem, base, size, v, Offset(table, lines, j), u - v);
    }
    OneStep(mem, base, size, v, Offset(table, lines, j), CostOf(lines[j]));
  }

  lemma ProgramValid(table: Table, lines: seq<Line>)
    requires WellFramedProgram(table, lines)
    ensures AllValid(lines)
  {
  }

  /** A process alone on a well-framed program executes it over and over, each instruction at
      the visit given by the costs of the earlier ones, and no other. */
  lemma {:induction false} SoloRuns(mem: seq<byte>, base: int, table: Table, lines: seq<Line>, k: nat)
    requires |lines| > 0 && WellFramedProgram(table, lines)
    requires Stored(mem, base, ProgramBytes(table, lines, |lines|))
    ensures Standing(mem, base, table, lines, k, VisitOfStep(lines, k))
    ensures forall v | k > 0 && VisitOfStep(lines, k - 1) < v <= VisitOfStep(lines, k) ::
              Solo(mem, base, Offset(table, lines, |lines|), 0, v).log == Cycle(mem, base, table, lines, k)
    decreases k
  {
    hide *;
    ProgramValid(table, lines);
    if k == 0 {
      StandingStart(mem, base, table, lines);
    } else {
      var v0 := VisitOfStep(lines, k - 1);
      SoloRuns(mem, base, table, lines, k - 1);
      StandingStep(mem, base, table, lines, k - 1, v0);
      CycleStep(mem, base, table, lines, k - 1);
    }
  }

  lemma VisitsGrow(lines: seq<Line>, k: nat)
    requires |lines| > 0 && AllValid(lines)
    ensures VisitOfStep(lines, k) + 2 <= VisitOfStep(lines, k + 1) && VisitOfStep(lines, 0) == 0
  {
    var line := lines[k % |lines|];
    assert ValidLine(line);
    CodeIsOpcode(line.opcode);
    ArityAndCostBounds(Code(line.opcode));
  }

  /** Every visit lies in the cost of exactly one step. */
  lemma StepOfVisit(lines: seq<Line>, v: nat) returns (k: nat)
    requires |lines| > 0 && AllValid(lines)
    ensures if k == 0 then v == 0 else VisitOfStep(lines, k - 1) < v <= VisitOfStep(lines, k)
  {
    hide VisitOfStep, AllValid;
    VisitsGrow(lines, 0);
    k := 0;
    while VisitOfStep(lines, k) < v
      invariant k == 0 || VisitOfStep(lines, k - 1) < v
      invariant k <= VisitOfStep(lines, k)
      decreases v - k
    {
      VisitsGrow(lines, k);
      k := k + 1;
    }
  }

  /** What the machine executes for line `i`: its opcode, with the numbers of its text wherever
      these come back. */
  ghost predicate ExecutesLine(d: Decoded, mem: seq<byte>, base: int, table: Table, lines: seq<Line>, i: nat)
    requires i < |lines| && AllValid(lines)
  {
    ValidLine(lines[i]) &&
    Executes(d, table, lines[i], ProgramAddress(table, lines, i), Follow(mem, base, table, lines, i))
  }

  /** A history that executes the program's lines in order, over and over. */
  ghost predicate ExecutesSource(log: seq<Decoded>, mem: seq<byte>, base: int, table: Table, lines: seq<Line>)
    requires |lines| > 0 && AllValid(lines)
  {
    forall e | 0 <= e < |log| :: ExecutesLine(log[e], mem, base, table, lines, e % |lines|)
  }

  lemma SeenExecutesLine(mem: seq<byte>, base: int, table: Table, lines: seq<Line>, i: nat)
    requires WellFramedProgram(table, lines) && i < |lines|
    ensures AllValid(lines) && ExecutesLine(Seen(mem, base, table, lines, i), mem, base, table, lines, i)
  {
    hide Executes, WellFramed, SeenOperands, Code, Follow, ValidLine, Offset, ProgramBytes, LineBytes, AddressAfter;
    ProgramValid(table, lines);
    var address := ProgramAddress(table, lines, i);
    assert WellFramed(table, lines[i], address) && ValidLine(lines[i]);
    SeenExecutes(table, lines[i], address, Follow(mem, base, table, lines, i), base + Offset(table, lines, i + 1));
  }

  lemma CycleExecutes(mem: seq<byte>, base: int, table: Table, lines: seq<Line>, k: nat)
    requires |lines| > 0 && WellFramedProgram(table, lines)
    ensures AllValid(lines) && ExecutesSource(Cycle(mem, base, table, lines, k), mem, base, table, lines)
  {
    hide ExecutesLine, WellFramedProgram, Seen, AllValid, Cycle;
    ProgramValid(table, lines);
    forall e | 0 <= e < k
      ensures ExecutesLine(Cycle(mem, base, table, lines, k)[e], mem, base, table, lines, e % |lines|)
    {
      SeenExecutesLine(mem, base, table, lines, e % |lines|);
    }
  }

  lemma ProcAt(s: State, p: nat)
    requires |s.champs| == 4 && s.count <= 4 && Autonomous(s) && p < |s.procs|
    ensures s.procs[p].log ==
            Solo(s.mem, s.procs[p].index, s.champs[Owner(s, p)].size, s.procs[p].birth, s.procs[p].visits).log
  {
    assert ProcAlone(s, p);
  }

  /** End to end: in every state of every game, also in the middle of a sweep, the process of
      a champion whose segment holds an assembled well-framed program has executed that
      program's instructions in order, over and over, and nothing else, with the numbers of
      the source text wherever these come back; how many is fixed by the number of visits and
      the instructions' costs. The first process is visited in every sweep, and until the
      first fork each process is, exactly once. */
  lemma ProgramRuns(s: State, alu: Alu, n: nat, j: nat, i: nat, table: Table, lines: seq<Line>)
    returns (k: nat)
    requires Inv(s) && |s.champs| == 4 && s.count <= 4 && Autonomous(s)
    requires Entry(s, alu, n).Some?
    requires i < s.count <= |s.procs| && s.procs[i].birth == 0
    requires |lines| > 0 && WellFramedProgram(table, lines)
    requires Stored(s.mem, s.procs[i].index, ProgramBytes(table, lines, |lines|))
    requires s.champs[i].size == Offset(table, lines, |lines|)
    ensures AllValid(lines) && i < |Midway(s, alu, n, j).0.procs|
    ensures var q := Midway(s, alu, n, j).0.procs[i];
            && q.log == Cycle(s.mem, s.procs[i].index, table, lines, k)
            && ExecutesSource(q.log, s.mem, s.procs[i].index, table, lines)
            && (i == 0 ==> q.visits >= s.procs[0].visits + n + if j > 0 then 1 else 0)
            && (s.links == Ring(s.count) && |s.procs| == s.count == |Midway(s, alu, n, j).0.procs| && j <= s.count ==>
                  q.visits == s.procs[i].visits + n + if i < j then 1 else 0)
            && if k == 0 then q.visits == 0
               else VisitOfStep(lines, k - 1) < q.visits <= VisitOfStep(lines, k)
  {
    hide Inv, Entry, Midway, Autonomous, Standing, Stored, ProgramBytes, WellFramedProgram, AllValid,
         VisitOfStep, Solo, Cycle, Offset, Linked, ExecutesSource;
    ProgramValid(table, lines);
    var t := Midway(s, alu, n, j).0;
    NonInterference(s, alu, n, j);
    ProcAt(t, i);
    k := StepOfVisit(lines, t.procs[i].visits);
    SoloRuns(s.mem, s.procs[i].index, table, lines, k);
    CycleExecutes(s.mem, s.procs[i].index, table, lines, k);
    VisitsMade(s, alu, n, j);
    if s.links == Ring(s.count) && |s.procs| == s.count == |t.procs| && j <= s.count {
      VisitedOncePerSweep(s, alu, n, j, i);
    }
    if k == 0 { StandingZero(s.mem, s.procs[i].index, table, lines); }
  }

  lemma StandingZero(mem: seq<byte>, base: int, table: Table, lines: seq<Line>)
    requires |lines| > 0 && AllValid(lines)
    ensures Solo(mem, base, Offset(table, lines, |lines|), 0, 0).log == Cycle(mem, base, table, lines, 0)
  {
  }

  /** The whole way: champion `i` entered with an assembled well-framed program, loaded
      beside any others, executes that program, each operand with the number of its text if
      and only if that number comes back. */
  lemma AssembledProgramRuns(mem: seq<byte>, champs: seq<Champ>, codes: seq<seq<byte>>,
                             alu: Alu, n: nat, j: nat, i: nat, table: Table, lines: seq<Line>)
    returns (k: nat)
    requires |mem| == MEM_SIZE && Entrants(champs, codes) && i < |codes|
    requires WellFramedProgram(table, lines) && codes[i] == ProgramBytes(table, lines, |lines|)
    ensures Inv(Initial(mem, champs, codes)) && |lines| > 0 && AllValid(lines)
    ensures Entry(Initial(mem, champs, codes), alu, n).Some? ==>
              var s := Initial(mem, champs, codes);
              i < |Midway(s, alu, n, j).0.procs|
              && var q := Midway(s, alu, n, j).0.procs[i];
                 && q.log == Cycle(s.mem, Segment(|codes|) * i, table, lines, k)
                 && ExecutesSource(q.log, s.mem, Segment(|codes|) * i, table, lines)
                 && (i == 0 ==> q.visits >= n + if j > 0 then 1 else 0)
                 && (|Midway(s, alu, n, j).0.procs| == |codes| && j <= |codes| ==>
                       q.visits == n + if i < j then 1 else 0)
                 && if k == 0 then q.visits == 0
                    else VisitOfStep(lines, k - 1) < q.visits <= VisitOfStep(lines, k)
  {
    hide Inv, Entry, Midway, Autonomous, WellFramedProgram, ProgramBytes, Loaded, Cycle, VisitOfStep, AllValid,
         Segment, DistinctIds, ExecutesSource;
    var s := Initial(mem, champs, codes);
    InitialOk(mem, champs, codes);
    ProgramValid(table, lines);
    OffsetZero(table, lines);
    k := 0;
    if Entry(s, alu, n).Some? {
      InvBasics(s);
      assert s.procs[i].index == Segment(|codes|) * i && s.procs[i].birth == 0;
      forall b | 0 <= b < |codes[i]| ensures Cell(s.mem, Segment(|codes|) * i + b) == codes[i][b] {
        LoadedByte(mem, codes, i, b);
      }
      k := ProgramRuns(s, alu, n, j, i, table, lines);
    }
  }

  lemma OffsetZero(table: Table, lines: seq<Line>)
    requires AllValid(lines)
    ensures |lines| == 0 ==> ProgramBytes(table, lines, |lines|) == []
  {
  }

  /** From the source text on, whatever its lines are: the first pass finds instructions and a
      table, the second pass writes the champion's program with that table, and in every state
      of every game the champion's process has executed those instructions, over and over. */
  lemma SourceTextRuns(mem: seq<byte>, champs: seq<Champ>, codes: seq<seq<byte>>,
                       alu: Alu, n: nat, j: nat, i: nat, lines: seq<string>)
    returns (k: nat)
    requires |mem| == MEM_SIZE && Entrants(champs, codes) && i < |codes|
    requires Parser.Terminates(lines)
    requires var pass := Parser.FirstPass(lines, |lines|);
             && WellFramedProgram(pass.table, pass.program)
             && codes[i] == ProgramBytes(pass.table, pass.program, |pass.program|)
    ensures Inv(Initial(mem, champs, codes))
    ensures var (table, program) := (Parser.FirstPass(lines, |lines|).table, Parser.FirstPass(lines, |lines|).program);
            && |program| > 0 && AllValid(program)
            && (Entry(Initial(mem, champs, codes), alu, n).Some? ==>
                  var s := Initial(mem, champs, codes);
                  i < |Midway(s, alu, n, j).0.procs|
                  && var q := Midway(s, alu, n, j).0.procs[i];
                     && ExecutesSource(q.log, s.mem, Segment(|codes|) * i, table, program)
                     && |q.log| == k
                     && (i == 0 ==> q.visits >= n + if j > 0 then 1 else 0)
                     && (|Midway(s, alu, n, j).0.procs| == |codes| && j <= |codes| ==>
                           q.visits == n + if i < j then 1 else 0)
                     && if k == 0 then q.visits == 0
                        else VisitOfStep(program, k - 1) < q.visits <= VisitOfStep(program, k))
  {
    hide *;
    var pass := Parser.FirstPass(lines, |lines|);
    k := AssembledProgramRuns(mem, champs, codes, alu, n, j, i, pass.table, pass.program);
  }
}
