/** A concrete game that meets every assumption of the theorems about runs. */
module Sample {
  import opened Bytes
  import opened OpTable
  import opened Wrappers
  import opened Encoder
  import opened RoundTrip
  import opened Machine
  import opened Decoder
  import opened Links
  import opened Game
  import opened Forks
  import opened Setup
  import opened Drift
  import opened EndToEnd

  /** Says it is alive, and would jump. */
  function Program(): seq<Line>
  {
    [Line("live", ["%1"]), Line("zjmp", ["%5"])]
  }

  function Code(): seq<byte>
    requires AllValid(Program())
  {
    ProgramBytes([], Program(), 2)
  }

  /** Two entrants and two unused slots. */
  function Entered(): seq<Champ>
  {
    [Champ(1, 10, 0, false, 0, false), Champ(2, 10, 0, false, 0, false),
     Champ(0, 1, 0, false, 0, false), Champ(0, 1, 0, false, 0, false)]
  }

  lemma CodeSize()
    ensures WellFramedProgram([], Program()) && AllValid(Program())
    ensures |Code()| == 10
  {
    LiveReadsNextOpcode();
    var program := Program();
    assert program == [Line("live", ["%1"]), Line("zjmp", ["%5"])];
    assert ValidLine(program[0]) && ValidLine(program[1]);
    LineWidths([], program[0], ProgramAddress([], program, 0));
    LineWidths([], program[1], ProgramAddress([], program, 1));
    assert |ProgramBytes([], program, 0)| == 0;
    assert |ProgramBytes([], program, 1)| == 5;
  }

  /** The game is admitted and starts, and in each of its states both champions' processes
      have executed `live` with operand 9, `zjmp` with the byte behind the program, `live`
      again, and so on, as many as their visits pay for; one has been executed as soon as the
      first step is made. */
  lemma SampleGame(mem: seq<byte>, alu: Alu, n: nat, j: nat, i: nat) returns (k: nat)
    requires |mem| == MEM_SIZE && i < 2
    ensures AllValid(Program()) && Entrants(Entered(), [Code(), Code()])
    ensures var s := Initial(mem, Entered(), [Code(), Code()]);
            && Inv(s) && Entry(s, alu, 0) == Some(s)
            && (Entry(s, alu, n).Some? ==>
                  i < |Midway(s, alu, n, j).0.procs|
                  && var q := Midway(s, alu, n, j).0.procs[i];
                     && q.log == Cycle(s.mem, 3072 * i, [], Program(), k)
                     && (if k == 0 then q.visits == 0
                         else VisitOfStep(Program(), k - 1) < q.visits <= VisitOfStep(Program(), k))
                     && (i == 0 && n + j > 0 ==> k > 0))
  {
    hide Code, Program, Inv, Entry, Midway, Cycle, Loaded, WellFramedProgram, ProgramBytes, VisitOfStep, AllValid,
         ExecutesSource;
    CodeSize();
    EnteredOk(Code());
    ProgramLength();
    InitialOk(mem, Entered(), [Code(), Code()]);
    var s := Initial(mem, Entered(), [Code(), Code()]);
    EntryZero(s, alu);
    CodeIs();
    k := AssembledProgramRuns(mem, Entered(), [Code(), Code()], alu, n, j, i, [], Program());
  }

  lemma CodeIs()
    requires AllValid(Program())
    ensures Code() == ProgramBytes([], Program(), |Program()|)
  {
  }

  lemma ProgramLength()
    ensures |Program()| == 2
  {
  }

  lemma EnteredOk(code: seq<byte>)
    requires |code| == 10
    ensures Entrants(Entered(), [code, code])
  {
  }

  // ---------------------------------------------------------------- a fork that drops a process

  /** `fork %1`. */
  const FORKING: seq<byte> := [12, 0, 0, 0, 1]

  function Three(): seq<Champ>
  {
    [Champ(1, 5, 0, false, 0, false), Champ(2, 5, 0, false, 0, false),
     Champ(3, 5, 0, false, 0, false), Champ(0, 1, 0, false, 0, false)]
  }

  /** Of three processes the second forks, and the third is dropped. */
  lemma SecondDropsThird(mem: seq<byte>, flag: bool)
    requires |mem| == MEM_SIZE
    ensures Entrants(Three(), [FORKING, FORKING, FORKING])
    ensures var s := Initial(mem, Three(), [FORKING, FORKING, FORKING]);
            && Inv(s) && Linked(s) && 2 in Orbit(s.links)
            && Linked(Visit(s, 1, flag)) && Dropped(Visit(s, 1, flag), 2)
  {
    hide Inv, Loaded, Visit, Orbit, Decode;
    var codes := [FORKING, FORKING, FORKING];
    InitialOk(mem, Three(), codes);
    var s := Initial(mem, Three(), codes);
    InvBasics(s);
    RingOrbit(3);
    var path: seq<nat> := seq(3, i => i);
    assert path[1] == 1 && path[2] == 2;
    LoadedByte(mem, codes, 1, 0);
    assert Later(path, 1, 2);
    VisitDrops(s, 1, flag, 2);
  }
}
