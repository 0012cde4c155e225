/** Non-interference: nothing the other processes do changes what a process executes. */
module Independence {
  import opened Bytes
  import opened OpTable
  import opened Decoder
  import opened Links
  import opened Machine
  import opened Game

  /** What one process amounts to on its own. */
  datatype Thread = Thread(counter: int, cycles: int, log: seq<Decoded>)

  function SoloVisit(mem: seq<byte>, index: int, size: nat, t: Thread): Thread
  {
    var at := Wrap(t.counter, size);
    if t.cycles > 0 || !IsOpcode(Cell(mem, index + at)) then Thread(at, t.cycles - 1, t.log)
    else
      var d := Decode(mem, index + at);
      Thread(d.next - index, Cost(d.opcode) - 1, t.log + [d])
  }

  /** A thread that starts at counter `birth`, after `v` visits. */
  function Solo(mem: seq<byte>, index: int, size: nat, birth: int, v: nat): Thread
  {
    if v == 0 then Thread(birth, 0, [])
    else SoloVisit(mem, index, size, Solo(mem, index, size, birth, v - 1))
  }

  function ThreadOf(q: Proc): Thread
  {
    Thread(q.counter, q.cycles, q.log)
  }

  ghost predicate ProcAlone(s: State, p: nat)
    requires |s.champs| == 4 && s.count <= 4 && p < |s.procs|
  {
    var q := s.procs[p];
    ThreadOf(q) == Solo(s.mem, q.index, s.champs[Owner(s, p)].size, q.birth, q.visits)
  }

  /** Every process is where it would be had it been alone in the machine. */
  ghost predicate Autonomous(s: State)
    requires |s.champs| == 4 && s.count <= 4
  {
    forall p | 0 <= p < |s.procs| :: ProcAlone(s, p)
  }

  lemma EffectProcs(s: State, c: nat, op: int, v: int, flag: bool)
    requires Linked(s) && c < |s.champs|
    ensures var t := Effect(s, c, op, v, flag);
            && |s.procs| <= |t.procs| && t.procs[..|s.procs|] == s.procs
            && forall q | |s.procs| <= q < |t.procs| ::
                 t.procs[q].cycles == 0 && t.procs[q].visits == 0 && t.procs[q].log == []
                 && t.procs[q].counter == t.procs[q].birth
  {
  }

  /** `t` differs from `s` in process `p`, which has made one step, and in newborn ones. */
  ghost predicate Stepped(s: State, t: State, p: nat)
    requires p < |s.procs| && Owner(s, p) < |s.champs|
  {
    && |s.procs| <= |t.procs|
    && t.procs[p].visits == s.procs[p].visits + 1
    && t.procs[p].birth == s.procs[p].birth && t.procs[p].index == s.procs[p].index
    && ThreadOf(t.procs[p]) == SoloVisit(s.mem, s.procs[p].index, s.champs[Owner(s, p)].size, ThreadOf(s.procs[p]))
    && (forall i | 0 <= i < |s.procs| && i != p :: t.procs[i] == s.procs[i])
    && (forall i | |s.procs| <= i < |t.procs| ::
         t.procs[i].cycles == 0 && t.procs[i].visits == 0 && t.procs[i].log == []
         && t.procs[i].counter == t.procs[i].birth)
  }

  predicate Waiting(s: State, p: nat)
    requires p < |s.procs| && Owner(s, p) < |s.champs|
  {
    var q := s.procs[p];
    q.cycles > 0 || !IsOpcode(Cell(s.mem, q.index + Wrap(q.counter, s.champs[Owner(s, p)].size)))
  }

  lemma WaitingVisit(s: State, p: nat, flag: bool)
    requires Linked(s) && p < |s.procs| && FindChampion(s.champs, s.procs[p].player) == Owner(s, p) < |s.champs|
    requires Waiting(s, p)
    ensures Stepped(s, Visit(s, p, flag), p)
  {
    hide Effect, Decode, FindChampion, Closed, Wrap;
  }

  lemma PerformingVisit(s: State, p: nat, flag: bool)
    requires Linked(s) && p < |s.procs| && FindChampion(s.champs, s.procs[p].player) == Owner(s, p) < |s.champs|
    requires !Waiting(s, p)
    ensures Stepped(s, Visit(s, p, flag), p)
  {
    hide Effect, Decode, FindChampion, Closed, Wrap, Execute, VmOp;
    var q, c := s.procs[p], Owner(s, p);
    var at := Wrap(q.counter, s.champs[c].size);
    var d := Decode(s.mem, q.index + at);
    ExecuteProcs(s, c, d, flag);
    assert Visit(s, p, flag) == SetProc(Execute(s, c, d, flag), p, d.next - q.index, Cost(d.opcode) - 1, q.log + [d]);
  }

  lemma ExecuteProcs(s: State, c: nat, d: Decoded, flag: bool)
    requires Linked(s) && c < |s.champs| && IsOpcode(d.opcode) && |d.operands| == Arity(d.opcode)
    ensures var t := Execute(s, c, d, flag);
            && |s.procs| <= |t.procs|
            && (forall i | 0 <= i < |s.procs| :: t.procs[i] == s.procs[i])
            && forall q | |s.procs| <= q < |t.procs| ::
                 t.procs[q].cycles == 0 && t.procs[q].visits == 0 && t.procs[q].log == []
                 && t.procs[q].counter == t.procs[q].birth
  {
    hide Effect, VmOp, Closed;
    var t := Execute(s, c, d, flag);
    ArityAndCostBounds(d.opcode);
    EffectProcs(Charge(s, Cost(d.opcode)), c, d.opcode, d.operands[0].Or(0), flag);
    assert forall i | 0 <= i < |s.procs| :: t.procs[i] == t.procs[..|s.procs|][i];
  }

  /** A visit steps the visited process by `SoloVisit`, leaves all others alone, and adds at
      most newborn ones. */
  lemma VisitProcs(s: State, p: nat, flag: bool)
    requires Inv(s) && p < |s.procs|
    ensures Owner(s, p) < |s.champs| && Linked(s) && Stepped(s, Visit(s, p, flag), p)
  {
    hide Inv, FindChampion, Closed, Waiting, Stepped, Visit;
    InvBasics(s);
    FindsOwner(s, p);
    if Waiting(s, p) { WaitingVisit(s, p, flag); } else { PerformingVisit(s, p, flag); }
  }

  lemma VisitAutonomous(s: State, p: nat, flag: bool)
    requires Inv(s) && p in Orbit(s.links) && |s.champs| == 4 && s.count <= 4 && Autonomous(s)
    ensures p < |s.procs|
    ensures var t := Visit(s, p, flag); Inv(t) && |t.champs| == 4 && t.count <= 4 && Autonomous(t)
  {
    hide Inv, Visit, SoloVisit, Closed;
    InvBasics(s);
    VisitKeepsInv(s, p, flag);
    VisitProcs(s, p, flag);
    var t := Visit(s, p, flag);
    InvBasics(t);
    assert ProcAlone(s, p);
    forall i | 0 <= i < |t.procs| ensures ProcAlone(t, i) {
      if i < |s.procs| { assert ProcAlone(s, i); }
    }
  }

  lemma {:induction false} StageAutonomous(s: State, n: nat, alu: Alu)
    requires Inv(s) && |s.champs| == 4 && s.count <= 4 && Autonomous(s)
    ensures var t := Stage(s, n, alu).0; |t.champs| == 4 && t.count <= 4 && Autonomous(t)
    decreases n
  {
    hide *;
    if n == 0 {
      StageZero(s, alu);
    } else {
      StageAutonomous(s, n - 1, alu);
      StageStep(s, n, alu);
      var (t, cur) := Stage(s, n - 1, alu);
      VisitAutonomous(t, cur, alu(s.sweeps, n - 1));
    }
  }

  /** Changing scalars, and the champions apart from their sizes, changes no process. */
  lemma AutonomousFrom(s: State, t: State)
    requires Extends(s, t) && t.procs == s.procs && |s.champs| == 4 && s.count <= 4 && Autonomous(s)
    ensures Autonomous(t)
  {
    forall p | 0 <= p < |t.procs| ensures ProcAlone(t, p) { assert ProcAlone(s, p); }
  }

  lemma GameOnAutonomous(s: State)
    requires Inv(s) && |s.champs| == 4 && 0 < s.count <= 4 && Autonomous(s)
    ensures var t := GameOn(s).0; |t.champs| == 4 && t.count <= 4 && Autonomous(t)
  {
    hide Inv, ProcAlone, Closed;
    GameOnKeepsInv(s);
    AutonomousFrom(s, GameOn(s).0);
  }

  lemma ChargeAutonomous(s: State, n: nat)
    requires |s.champs| == 4 && s.count <= 4 && Autonomous(s)
    ensures Autonomous(Charge(s, n)) && Autonomous(Tick(s))
  {
    AutonomousFrom(s, Charge(s, n));
    AutonomousFrom(s, Tick(s));
  }

  lemma SweepAutonomous(s: State, alu: Alu)
    requires Inv(s) && |s.champs| == 4 && s.count <= 4 && Autonomous(s)
    ensures var t := Sweep(s, alu); |t.champs| == 4 && t.count <= 4 && Autonomous(t)
  {
    hide Inv, Stage, Autonomous, Closed;
    ChargeKeepsInv(s, 1);
    ChargeAutonomous(s, 1);
    StageAutonomous(Charge(s, 1), s.count, alu);
    ChargeAutonomous(Stage(Charge(s, 1), s.count, alu).0, 0);
  }

  lemma {:induction false} EntryAutonomous(s: State, alu: Alu, n: nat)
    requires Inv(s) && |s.champs| == 4 && s.count <= 4 && Autonomous(s)
    requires Entry(s, alu, n).Some?
    ensures var t := Entry(s, alu, n).value; |t.champs| == 4 && 0 < t.count <= 4 && Autonomous(t)
    decreases n
  {
    hide *;
    InvBasics(s);
    if n == 0 {
      EntryZero(s, alu);
    } else {
      EntryStep(s, alu, n);
      EntryAutonomous(s, alu, n - 1);
      var p := Entry(s, alu, n - 1).value;
      GameOnAutonomous(p);
      SweepAutonomous(GameOn(p).0, alu);
      InvBasics(Entry(s, alu, n).value);
    }
  }

  /** Non-interference, in every state of every run, also in the middle of a sweep: each
      process has the counter, the waiting time and the history it would have alone after as
      many visits. */
  lemma NonInterference(s: State, alu: Alu, n: nat, j: nat)
    requires Inv(s) && |s.champs| == 4 && s.count <= 4 && Autonomous(s)
    requires Entry(s, alu, n).Some?
    ensures var t := Midway(s, alu, n, j).0; |t.champs| == 4 && t.count <= 4 && Autonomous(t)
  {
    hide Inv, Entry, Stage, Autonomous, GameOn, Closed, Extends;
    EntryAutonomous(s, alu, n);
    var t := Entry(s, alu, n).value;
    InvBasics(t);
    GameOnAutonomous(t);
    GameOnKeepsInv(t);
    ChargeKeepsInv(GameOn(t).0, 1);
    ChargeAutonomous(GameOn(t).0, 1);
    StageAutonomous(Charge(GameOn(t).0, 1), j, alu);
  }

  // ---------------------------------------------------------------- the window read

  /** The memories agree on a code segment and the thirteen cells behind it. */
  ghost predicate SameWindow(a: seq<byte>, b: seq<byte>, index: int, size: nat)
  {
    forall i | index <= i < index + size + 13 :: Cell(a, i) == Cell(b, i)
  }

  lemma OperandWindow(a: seq<byte>, b: seq<byte>, u: int, field: nat)
    requires forall i | u <= i < u + 4 :: Cell(a, i) == Cell(b, i)
    ensures OperandAt(a, u, field) == OperandAt(b, u, field)
  {
    hide Cell;
    assert Cell(a, u) == Cell(b, u) && Cell(a, u + 1) == Cell(b, u + 1);
    SumWindow(a, b, 2, u);
    SumWindow(a, b, 4, u);
  }

  lemma {:induction false} OperandsWindow(a: seq<byte>, b: seq<byte>, t: int, desc: nat, n: nat)
    requires n <= 3 && forall i | t <= i < t + 4 * n :: Cell(a, i) == Cell(b, i)
    ensures OperandsAt(a, t, desc, n) == OperandsAt(b, t, desc, n)
  {
    hide Cell, OperandAt, Field;
    if n > 0 {
      OperandsWindow(a, b, t, desc, n - 1);
      OperandWindow(a, b, OperandsAt(a, t, desc, n - 1).1, Field(desc, n - 1));
    }
  }

  lemma {:induction false} SumWindow(a: seq<byte>, b: seq<byte>, n: nat, u: int)
    requires forall i | u <= i < u + 4 :: Cell(a, i) == Cell(b, i)
    requires n <= 4
    ensures ByteSum(a, n, u) == ByteSum(b, n, u)
  {
    if n > 0 { SumWindow(a, b, n - 1, u); }
  }

  lemma DecodeWindow(a: seq<byte>, b: seq<byte>, at: int)
    requires forall i | at <= i < at + 14 :: Cell(a, i) == Cell(b, i)
    requires IsOpcode(Cell(a, at))
    ensures Decode(a, at) == Decode(b, at)
  {
    OperandsWindow(a, b, at + 2, Cell(a, at + 1), Arity(Cell(a, at)));
  }

  lemma VisitWindow(a: seq<byte>, b: seq<byte>, index: int, size: nat, t: Thread)
    requires size > 0 && SameWindow(a, b, index, size) && 0 <= t.counter
    ensures SoloVisit(a, index, size, t) == SoloVisit(b, index, size, t)
    ensures 0 <= SoloVisit(a, index, size, t).counter
  {
    hide Decode;
    var at := index + Wrap(t.counter, size);
    assert index <= at < index + size;
    if IsOpcode(Cell(a, at)) { DecodeWindow(a, b, at); }
  }

  /** A process depends on nothing but those cells. */
  lemma {:induction false} SoloWindow(a: seq<byte>, b: seq<byte>, index: int, size: nat, birth: nat, v: nat)
    requires size > 0 && SameWindow(a, b, index, size)
    ensures Solo(a, index, size, birth, v) == Solo(b, index, size, birth, v)
    ensures 0 <= Solo(a, index, size, birth, v).counter
  {
    hide SoloVisit, SameWindow;
    if v > 0 {
      SoloWindow(a, b, index, size, birth, v - 1);
      VisitWindow(a, b, index, size, Solo(a, index, size, birth, v - 1));
    }
  }
}
