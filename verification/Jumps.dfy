/** Where forks land: a life check puts every champion's counter back to zero, and only an
    executed `zjmp` moves it again. */
module Jumps {
  import opened OpTable
  import opened Links
  import opened Machine
  import opened Game
  import opened Forks
  import opened Schedule
  import opened Lives

  function Jumped(s: State, i: nat): nat
  {
    Executed(s, i, OP_ZJMP)
  }

  /** The champion's counter is zero, or it has jumped since it had jumped `k` times. */
  ghost predicate AtRest(s: State, i: nat, k: nat)
  {
    i < |s.champs| && k <= Jumped(s, i) && (s.champs[i].counter == 0 || k < Jumped(s, i))
  }

  lemma VisitAtRest(s: State, p: nat, flag: bool, i: nat, k: nat)
    requires Inv(s) && p < |s.procs| && AtRest(s, i, k)
    ensures Linked(s) && AtRest(Visit(s, p, flag), i, k)
  {
    hide Inv, Visit, Performs, CountBy;
    InvBasics(s);
    VisitOnChampions(s, p, flag, i);
    VisitExecuted(s, p, flag, i, OP_ZJMP);
  }

  lemma {:induction false} StageAtRest(s: State, n: nat, alu: Alu, i: nat, k: nat)
    requires Inv(s) && AtRest(s, i, k)
    ensures AtRest(Stage(s, n, alu).0, i, k)
    decreases n
  {
    hide *;
    if n == 0 {
      StageZero(s, alu);
    } else {
      StageAtRest(s, n - 1, alu, i, k);
      StageStep(s, n, alu);
      ReachableProc(Stage(s, n - 1, alu).0, Stage(s, n - 1, alu).1);
      VisitAtRest(Stage(s, n - 1, alu).0, Stage(s, n - 1, alu).1, alu(s.sweeps, n - 1), i, k);
    }
  }

  lemma ReachableProc(s: State, p: nat)
    requires Inv(s) && p in Orbit(s.links)
    ensures p < |s.procs|
  {
  }

  lemma ScalarsAtRest(s: State, t: State, i: nat, k: nat)
    requires AtRest(s, i, k) && t.champs == s.champs && t.procs == s.procs && t.count == s.count
    ensures AtRest(t, i, k)
  {
    CountSame(s, t, i, |s.procs|, OP_ZJMP);
  }

  lemma SweepAtRest(s: State, alu: Alu, i: nat, k: nat)
    requires Inv(s) && AtRest(s, i, k)
    ensures AtRest(Sweep(s, alu), i, k)
  {
    hide Inv, Stage, AtRest;
    ChargeKeepsInv(s, 1);
    ScalarsAtRest(s, Charge(s, 1), i, k);
    StageAtRest(Charge(s, 1), s.count, alu, i, k);
    ScalarsAtRest(Stage(Charge(s, 1), s.count, alu).0, Sweep(s, alu), i, k);
  }

  lemma GameOnAtRest(s: State, i: nat, k: nat)
    requires i < s.count <= |s.champs| && k <= Jumped(s, i)
    requires s.lives >= 40 || s.cycles >= s.cycleToDie || AtRest(s, i, k)
    ensures AtRest(GameOn(s).0, i, k)
  {
    hide GameOn, CountBy;
    CheckExact(s);
    CheckExecuted(s, i, OP_ZJMP);
  }

  lemma {:induction false} EntryAtRest(s: State, alu: Alu, a: nat, n: nat, i: nat, k: nat)
    requires Inv(s) && i < s.count && a <= n && Entry(s, alu, a).Some? && Entry(s, alu, n).Some?
    requires var t := Entry(s, alu, a).value;
             k <= Jumped(t, i) && (t.lives >= 40 || t.cycles >= t.cycleToDie || AtRest(t, i, k))
    ensures var t := Entry(s, alu, n).value;
            && i < t.count <= |t.champs| && |GameOn(t).0.champs| == |t.champs|
            && AtRest(GameOn(t).0, i, k)
    decreases n
  {
    hide Inv, Entry, AtRest, GameOn, Sweep, Jumped;
    var t := Entry(s, alu, n).value;
    InvBasics(t);
    Schedule.SameCount(s, alu, n);
    if n > a {
      EntryStep(s, alu, n);
      EntryAtRest(s, alu, a, n - 1, i, k);
      SweepAtRest(GameOn(Entry(s, alu, n - 1).value).0, alu, i, k);
      RestCounts(t, i, k);
    }
    GameOnAtRest(t, i, k);
    CheckExact(t);
  }

  lemma RestCounts(s: State, i: nat, k: nat)
    requires AtRest(s, i, k)
    ensures k <= Jumped(s, i)
  {
  }

  /** From a life check on, or from the start of a game, a champion's counter is zero until one
      of its processes executes `zjmp`. */
  lemma CounterZeroUntilJump(s: State, alu: Alu, a: nat, n: nat, j: nat, i: nat)
    requires Inv(s) && i < s.count && a <= n && Entry(s, alu, a).Some? && Entry(s, alu, n).Some?
    requires var t := Entry(s, alu, a).value;
             i < |t.champs| && (t.lives >= 40 || t.cycles >= t.cycleToDie || t.champs[i].counter == 0)
    ensures var t, u := Entry(s, alu, a).value, Midway(s, alu, n, j).0;
            i < |u.champs| && (Jumped(u, i) == Jumped(t, i) ==> u.champs[i].counter == 0)
  {
    hide Inv, Entry, GameOn, Stage, Jumped;
    var k := Jumped(Entry(s, alu, a).value, i);
    EntryAtRest(s, alu, a, n, i, k);
    var g := GameOn(Entry(s, alu, n).value).0;
    GameOnKeepsInv(Entry(s, alu, n).value);
    ChargeKeepsInv(g, 1);
    ScalarsAtRest(g, Charge(g, 1), i, k);
    StageAtRest(Charge(g, 1), j, alu, i, k);
  }

  /** So until then its `fork` puts the clone at the operand modulo 512, and its `lfork` at the
      operand itself. */
  lemma ForkLandsAtOperand(s: State, alu: Alu, a: nat, n: nat, j: nat, p: nat, flag: bool)
    requires Inv(s) && a <= n && Entry(s, alu, a).Some? && Entry(s, alu, n).Some?
    requires p < |Midway(s, alu, n, j).0.procs| && Owner(Midway(s, alu, n, j).0, p) < s.count
    requires var t, i := Entry(s, alu, a).value, Owner(Midway(s, alu, n, j).0, p);
             && i < |t.champs| && (t.lives >= 40 || t.cycles >= t.cycleToDie || t.champs[i].counter == 0)
             && Jumped(Midway(s, alu, n, j).0, i) == Jumped(t, i)
    ensures var u := Midway(s, alu, n, j).0;
            && Linked(u) && Owner(u, p) < |u.champs|
            && var d, v := Performs(u, p), Visit(u, p, flag);
               && (d.Some? && d.value.opcode == OP_FORK ==>
                     |v.procs| == |u.procs| + 1 && v.procs[|u.procs|].index == d.value.operands[0].Or(0) % 512)
               && (d.Some? && d.value.opcode == OP_LFORK ==>
                     |v.procs| == |u.procs| + 1 && v.procs[|u.procs|].index == d.value.operands[0].Or(0))
  {
    hide Inv, Entry, GameOn, Midway, Visit, Performs, Jumped;
    var u := Midway(s, alu, n, j).0;
    InvBasics(u);
    CounterZeroUntilJump(s, alu, a, n, j, Owner(u, p));
    VisitClones(u, p, flag);
  }
}
