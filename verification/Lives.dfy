/** Where lives come from: every life on a champion's account is a `live` executed by one of
    its processes. */
module Lives {
  import opened OpTable
  import opened Decoder
  import opened Links
  import opened Machine
  import opened Game
  import opened Runs
  import opened Independence
  import opened Forks
  import opened Schedule

  /** How many instructions with an opcode a history holds. */
  function CountIn(log: seq<Decoded>, op: int): nat
  {
    if log == [] then 0 else CountIn(log[..|log| - 1], op) + if log[|log| - 1].opcode == op then 1 else 0
  }

  /** The same for the first `n` processes, as far as they belong to champion `c`. */
  function CountBy(s: State, c: nat, n: nat, op: int): nat
    requires n <= |s.procs|
  {
    if n == 0 then 0
    else CountBy(s, c, n - 1, op) + if Owner(s, n - 1) == c then CountIn(s.procs[n - 1].log, op) else 0
  }

  /** How often champion `c`'s processes have executed an opcode. */
  function Executed(s: State, c: nat, op: int): nat
  {
    CountBy(s, c, |s.procs|, op)
  }

  lemma CountOneMore(log: seq<Decoded>, d: Decoded, op: int)
    ensures CountIn(log + [d], op) == CountIn(log, op) + if d.opcode == op then 1 else 0
  {
    assert (log + [d])[..|log|] == log;
  }

  lemma {:induction false} CountSame(s: State, t: State, c: nat, n: nat, op: int)
    requires n <= |s.procs| && n <= |t.procs| && t.count == s.count
    requires forall i | 0 <= i < n :: t.procs[i].log == s.procs[i].log
    ensures CountBy(t, c, n, op) == CountBy(s, c, n, op)
    decreases n
  {
    if n > 0 { CountSame(s, t, c, n - 1, op); }
  }

  /** One history changes, and newborn processes have none. */
  lemma {:induction false} CountStep(s: State, t: State, c: nat, p: nat, n: nat, op: int)
    requires p < |s.procs| <= |t.procs| && n <= |t.procs| && t.count == s.count
    requires forall i | 0 <= i < |s.procs| && i != p :: t.procs[i].log == s.procs[i].log
    requires forall i | |s.procs| <= i < |t.procs| :: t.procs[i].log == []
    ensures CountBy(t, c, n, op) == CountBy(s, c, if n <= |s.procs| then n else |s.procs|, op)
            + if p < n && Owner(s, p) == c then CountIn(t.procs[p].log, op) - CountIn(s.procs[p].log, op) else 0
    decreases n
  {
    hide CountIn;
    if n > 0 {
      CountStep(s, t, c, p, n - 1, op);
      NoneIn(op);
    }
  }

  lemma NoneIn(op: int)
    ensures CountIn([], op) == 0
  {
  }

  /** A visit that executes an instruction counts it for the owner of the process, and for
      nobody else. */
  lemma VisitExecuted(s: State, p: nat, flag: bool, i: nat, op: int)
    requires Inv(s) && p < |s.procs|
    ensures Linked(s) && Owner(s, p) < |s.champs|
    ensures var d := Performs(s, p);
            Executed(Visit(s, p, flag), i, op) == Executed(s, i, op)
              + if d.Some? && d.value.opcode == op && Owner(s, p) == i then 1 else 0
  {
    hide Inv, Visit, Decode, Closed, CountIn, CountBy;
    InvBasics(s);
    VisitFrame(s, p, flag);
    VisitProcs(s, p, flag);
    CountStep(s, Visit(s, p, flag), i, p, |Visit(s, p, flag).procs|, op);
    var d := Performs(s, p);
    if d.Some? { CountOneMore(s.procs[p].log, d.value, op); }
  }

  /** A visit credits a life to the owner of the process exactly when it adds a `live` to the
      process's history, and to nobody else. */
  lemma VisitLives(s: State, p: nat, flag: bool, i: nat)
    requires Inv(s) && p < |s.procs| && i < s.count
    ensures var t := Visit(s, p, flag);
            && |t.champs| == |s.champs| == 4 && s.count <= 4 && t.count == s.count
            && t.champs[i].lives - s.champs[i].lives == Executed(t, i, OP_LIVE) - Executed(s, i, OP_LIVE)
  {
    hide Inv, Visit, Performs, Closed, CountIn, CountBy;
    InvBasics(s);
    VisitFrame(s, p, flag);
    VisitOnChampions(s, p, flag, i);
    VisitExecuted(s, p, flag, i, OP_LIVE);
  }

  lemma {:induction false} StageLives(s: State, n: nat, alu: Alu, i: nat)
    requires Inv(s) && i < s.count
    ensures var t := Stage(s, n, alu).0;
            && |t.champs| == |s.champs| == 4 && i < 4
            && t.champs[i].lives - s.champs[i].lives == Executed(t, i, OP_LIVE) - Executed(s, i, OP_LIVE)
    decreases n
  {
    hide *;
    InvBasics(s);
    if n == 0 {
      StageZero(s, alu);
    } else {
      StageLives(s, n - 1, alu, i);
      StageStep(s, n, alu);
      var (t, cur) := Stage(s, n - 1, alu);
      SameCount(s, n - 1, alu);
      VisitLives(t, cur, alu(s.sweeps, n - 1), i);
    }
  }

  lemma SameCount(s: State, n: nat, alu: Alu)
    requires Inv(s)
    ensures Stage(s, n, alu).0.count == s.count
  {
  }

  lemma SweepLives(s: State, alu: Alu, i: nat)
    requires Inv(s) && i < s.count
    ensures var t := Sweep(s, alu);
            && |t.champs| == |s.champs| == 4 && i < 4 && t.count == s.count
            && t.champs[i].lives - s.champs[i].lives == Executed(t, i, OP_LIVE) - Executed(s, i, OP_LIVE)
  {
    hide Inv, Stage, CountBy, Closed;
    ChargeKeepsInv(s, 1);
    StageLives(Charge(s, 1), s.count, alu, i);
    ChargeExecuted(s, i, OP_LIVE);
    TickExecuted(Stage(Charge(s, 1), s.count, alu).0, i, OP_LIVE);
    SameCount(Charge(s, 1), s.count, alu);
  }

  lemma ChargeExecuted(s: State, i: nat, op: int)
    ensures Executed(Charge(s, 1), i, op) == Executed(s, i, op)
  {
    CountSame(s, Charge(s, 1), i, |s.procs|, op);
  }

  lemma TickExecuted(s: State, i: nat, op: int)
    ensures Executed(Tick(s), i, op) == Executed(s, i, op)
  {
    CountSame(s, Tick(s), i, |s.procs|, op);
  }

  lemma CheckExecuted(s: State, i: nat, op: int)
    requires 0 < s.count <= |s.champs|
    ensures Executed(GameOn(s).0, i, op) == Executed(s, i, op)
  {
    CountSame(s, GameOn(s).0, i, |s.procs|, op);
  }

  lemma CheckSkipped(s: State)
    requires 0 < s.count <= |s.champs| && !Due(s)
    ensures GameOn(s).0 == s
  {
  }

  /** In every run: what a champion has on its account is what it had after the last life
      check, which is nothing for those then alive, plus the `live` instructions its processes
      have executed since. */
  lemma {:induction false} LivesAreExecuted(s: State, alu: Alu, n: nat, i: nat)
    requires Inv(s) && i < s.count && Entry(s, alu, n).Some?
    ensures var t, base := Entry(s, alu, n).value, LastCheck(s, alu, n);
            && |t.champs| == 4 && |base.champs| == 4 && i < 4
            && t.champs[i].lives - base.champs[i].lives == Executed(t, i, OP_LIVE) - Executed(base, i, OP_LIVE)
    decreases n
  {
    hide *;
    InvBasics(s);
    if n == 0 {
      EntryZero(s, alu);
      LastCheckZero(s, alu);
    } else {
      EntryStep(s, alu, n);
      LastCheckStep(s, alu, n);
      LivesAreExecuted(s, alu, n - 1, i);
      var p := Entry(s, alu, n - 1).value;
      SameCountOn(p);
      SweepLives(GameOn(p).0, alu, i);
      if !Due(p) { CheckSkipped(p); }
    }
  }

  lemma SameCountOn(s: State)
    requires 0 < s.count <= |s.champs|
    ensures GameOn(s).0.count == s.count
  {
  }

  lemma LastCheckZero(s: State, alu: Alu)
    requires Inv(s)
    ensures LastCheck(s, alu, 0) == s
  {
  }

  lemma {:induction false} OnlyOwnHistory(s: State, t: State, i: nat, n: nat)
    requires 0 < i < s.count == t.count && n <= |s.procs| && i < |s.procs| <= |t.procs|
    requires t.procs[i].log == s.procs[i].log
    ensures CountBy(s, i, n, OP_LIVE) == if i < n then CountIn(s.procs[i].log, OP_LIVE) else 0
    decreases n
  {
    hide CountIn;
    if n > 0 { OnlyOwnHistory(s, t, i, n - 1); }
  }

  /** A champion other than the first has one process, and once that is out of reach, dropped
      or pushed back by forks of others, the champion never executes `live` again. */
  lemma StarvedGainsNoLives(s: State, alu: Alu, m: nat, n: nat, i: nat)
    requires Inv(s) && m <= n && Entry(s, alu, n).Some? && Entry(s, alu, m).Some? && 0 < i < s.count
    requires Linked(Entry(s, alu, m).value) && OutOfReach(Entry(s, alu, m).value, i)
    ensures Executed(Entry(s, alu, n).value, i, OP_LIVE) == Executed(Entry(s, alu, m).value, i, OP_LIVE)
  {
    hide Inv, Entry, OutOfReach, CountIn, CountBy, Linked;
    var t, u := Entry(s, alu, m).value, Entry(s, alu, n).value;
    OutOfReachForever(s, alu, m, n, i);
    OnlyOwnHistory(t, u, i, |t.procs|);
    OnlyOwnHistory(u, u, i, |u.procs|);
  }

  /** After a check a champion is dead or has no lives; without lives before, it is dead
      unless spared. */
  lemma CheckSettles(s: State, i: nat)
    requires i < s.count <= |s.champs| && Due(s)
    ensures var c := GameOn(s).0.champs[i];
            && (c.dead || c.lives == 0)
            && (s.champs[i].dead || s.champs[i].lives == 0 ==> c.dead || Spared(Rewound(s.champs, s.count), s.count, i))
  {
    Survivors(Rewound(s.champs, s.count), s.count, i);
  }

  /** From the first check after its process got out of reach on, a champion has no lives. */
  lemma {:induction false} StarvedHasNone(s: State, alu: Alu, m: nat, a: nat, n: nat, i: nat)
    requires Inv(s) && m <= a < n && Entry(s, alu, n).Some? && Entry(s, alu, a).Some? && Entry(s, alu, m).Some?
    requires 0 < i < s.count && Linked(Entry(s, alu, m).value) && OutOfReach(Entry(s, alu, m).value, i)
    requires Due(Entry(s, alu, a).value)
    ensures var t := Entry(s, alu, n).value; i < |t.champs| && (t.champs[i].dead || t.champs[i].lives == 0)
    decreases n
  {
    hide Inv, Entry, OutOfReach, CountIn, CountBy, Linked, Sweep, Judged, Rewound, Alive, Due;
    InvBasics(s);
    EntryStep(s, alu, n);
    var p := Entry(s, alu, n - 1).value;
    var g := GameOn(p).0;
    InvBasics(g);
    InvBasics(p);
    SameCountOn(p);
    StarvedGainsNoLives(s, alu, m, n - 1, i);
    StarvedGainsNoLives(s, alu, m, n, i);
    CheckExecuted(p, i, OP_LIVE);
    SweepLives(g, alu, i);
    SweepDebt(g, alu);
    if n - 1 > a { StarvedHasNone(s, alu, m, a, n - 1, i); }
    if Due(p) { CheckSettles(p, i); } else { CheckSkipped(p); }
  }

  /** A champion other than the first whose process is out of reach is dead after the second
      life check that follows, unless that check spares it. */
  lemma StarvedDies(s: State, alu: Alu, m: nat, a: nat, b: nat, i: nat)
    requires Inv(s) && m <= a < b && Entry(s, alu, b).Some? && Entry(s, alu, a).Some? && Entry(s, alu, m).Some?
    requires 0 < i < s.count && Linked(Entry(s, alu, m).value) && OutOfReach(Entry(s, alu, m).value, i)
    requires Due(Entry(s, alu, a).value) && Due(Entry(s, alu, b).value)
    ensures var t := Entry(s, alu, b).value;
            && i < t.count <= |t.champs|
            && (GameOn(t).0.champs[i].dead || Spared(Rewound(t.champs, t.count), t.count, i))
  {
    hide Inv, Entry, OutOfReach, Linked, Due, Judged, Rewound;
    InvBasics(s);
    InvBasics(Entry(s, alu, b).value);
    StarvedHasNone(s, alu, m, a, b, i);
    CheckSettles(Entry(s, alu, b).value, i);
  }
}
