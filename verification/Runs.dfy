/** Whole games: they end within fixed bounds, and what the live counters say meanwhile. */
module Runs {
  import opened OpTable
  import opened Wrappers
  import opened Decoder
  import opened Links
  import opened Machine
  import opened Game

  // ---------------------------------------------------------------- live accounting

  function TotalLives(champs: seq<Champ>, n: nat): int
    requires n <= |champs|
  {
    if n == 0 then 0 else TotalLives(champs, n - 1) + champs[n - 1].lives
  }

  lemma {:induction false} TotalLivesOf(a: seq<Champ>, b: seq<Champ>, n: nat)
    requires n <= |a| && n <= |b| && forall i | 0 <= i < n :: a[i].lives == b[i].lives
    ensures TotalLives(a, n) == TotalLives(b, n)
  {
    if n > 0 { TotalLivesOf(a, b, n - 1); }
  }

  lemma {:induction false} AddLifeTotal(champs: seq<Champ>, count: nat, k: nat, n: nat)
    requires |champs| == 4 && k < count <= 4 && DistinctIds(champs, count) && n <= count
    ensures TotalLives(AddLife(champs, champs[k].id), n) == TotalLives(champs, n) + if k < n then 1 else 0
  {
    if n > 0 { AddLifeTotal(champs, count, k, n - 1); }
  }

  /** Lives on the champions' accounts that the machine's counter does not show. */
  function Debt(s: State): int
    requires s.count <= |s.champs|
  {
    TotalLives(s.champs, s.count) - s.lives
  }

  lemma EffectDebt(s: State, c: nat, op: int, v: int, flag: bool)
    requires Linked(s) && |s.champs| == 4 && c < s.count <= 4 && DistinctIds(s.champs, s.count)
    ensures var t := Effect(s, c, op, v, flag);
            && t.count == s.count && |t.champs| == 4 && Debt(t) == Debt(s)
            && forall i | 0 <= i < 4 :: t.champs[i].dead == s.champs[i].dead
  {
    var t := Effect(s, c, op, v, flag);
    if op == OP_LIVE {
      AddLifeTotal(s.champs, s.count, c, s.count);
    } else {
      TotalLivesOf(s.champs, t.champs, s.count);
    }
  }

  /** A visit credits as many lives to the champions as to the machine, and kills nobody. */
  lemma VisitDebt(s: State, p: nat, flag: bool)
    requires Inv(s) && p < |s.procs|
    ensures var t := Visit(s, p, flag);
            && t.count == s.count && |t.champs| == 4 && Debt(t) == Debt(s)
            && forall i | 0 <= i < 4 :: t.champs[i].dead == s.champs[i].dead
  {
    hide Inv, Effect, Decode, FindChampion, Closed;
    InvBasics(s);
    FindsOwner(s, p);
    var q, c := s.procs[p], Owner(s, p);
    var at := q.index + Wrap(q.counter, s.champs[c].size);
    if q.cycles <= 0 && IsOpcode(Cell(s.mem, at)) {
      var d := Decode(s.mem, at);
      EffectDebt(Charge(s, Cost(d.opcode)), c, d.opcode, d.operands[0].Or(0), flag);
    }
  }

  lemma {:induction false} StageDebt(s: State, n: nat, alu: Alu)
    requires Inv(s)
    ensures var t := Stage(s, n, alu).0;
            && Debt(t) == Debt(s)
            && s.lives <= t.lives <= s.lives + n
            && s.cycles <= t.cycles <= s.cycles + 1000 * n
            && forall i | 0 <= i < 4 :: t.champs[i].dead == s.champs[i].dead
    decreases n
  {
    hide *;
    InvBasics(s);
    if n == 0 {
      StageZero(s, alu);
    } else {
      StageStep(s, n, alu);
      StageDebt(s, n - 1, alu);
      var (t, cur) := Stage(s, n - 1, alu);
      VisitDebt(t, cur, alu(s.sweeps, n - 1));
      VisitFrame(t, cur, alu(s.sweeps, n - 1));
    }
  }

  lemma SweepDebt(s: State, alu: Alu)
    requires Inv(s)
    ensures var t := Sweep(s, alu);
            && Debt(t) == Debt(s)
            && s.lives <= t.lives <= s.lives + s.count
            && s.cycles < t.cycles <= s.cycles + 1 + 1000 * s.count
            && forall i | 0 <= i < 4 :: t.champs[i].dead == s.champs[i].dead
  {
    ChargeKeepsInv(s, 1);
    StageDebt(Charge(s, 1), s.count, alu);
  }

  /** The state after the last life check before entry `n`, or the first state. */
  ghost function LastCheck(s: State, alu: Alu, n: nat): (r: State)
    requires Inv(s)
    ensures r.count == s.count && |r.champs| == 4
    decreases n
  {
    if n == 0 then s
    else
      match Entry(s, alu, n - 1)
      case None => s
      case Some(t) => if Due(t) then GameOn(t).0 else LastCheck(s, alu, n - 1)
  }

  lemma FreshStart(s: State)
    requires 0 < s.count <= |s.champs| && Due(s)
    ensures var t := GameOn(s).0;
            t.lives == 0 && forall i | 0 <= i < s.count :: !t.champs[i].dead ==> t.champs[i].lives == 0
  {
    forall i | 0 <= i < s.count ensures !GameOn(s).0.champs[i].dead ==> GameOn(s).0.champs[i].lives == 0 {
      Survivors(Rewound(s.champs, s.count), s.count, i);
    }
  }

  /** The machine's counter is exactly the number of lives the champions gained since
      `base`, those of dead champions included; survivors started from zero; and nobody has
      died since. */
  ghost predicate Accounted(base: State, t: State)
  {
    && t.count == base.count <= |base.champs| == |t.champs|
    && t.lives == TotalLives(t.champs, t.count) - TotalLives(base.champs, t.count)
    && base.lives == 0
    && (forall i | 0 <= i < t.count :: !base.champs[i].dead ==> base.champs[i].lives == 0)
    && (forall i | 0 <= i < t.count :: t.champs[i].dead == base.champs[i].dead)
  }

  lemma AccountedStep(base: State, s: State, alu: Alu)
    requires Inv(s) && Accounted(base, s) && !GameOn(s).1
    ensures Inv(GameOn(s).0)
    ensures var u := GameOn(s).0;
            && Accounted(if Due(s) then u else base, Sweep(u, alu))
            && Sweep(u, alu).lives <= 39 + s.count
  {
    GameOnKeepsInv(s);
    hide Inv, Sweep;
    InvBasics(s);
    SweepDebt(GameOn(s).0, alu);
    if Due(s) { FreshStart(s); }
  }

  lemma LastCheckStep(s: State, alu: Alu, n: nat)
    requires Inv(s) && n > 0 && Entry(s, alu, n - 1).Some?
    ensures var p := Entry(s, alu, n - 1).value;
            && 0 < p.count == s.count <= |p.champs|
            && LastCheck(s, alu, n) == if Due(p) then GameOn(p).0 else LastCheck(s, alu, n - 1)
  {
    hide GameOn, Inv;
    InvBasics(Entry(s, alu, n - 1).value);
  }

  lemma AccountedStart(s: State, alu: Alu)
    requires Inv(s) && s.lives == 0 && forall i | 0 <= i < s.count :: s.champs[i].lives == 0
    ensures Entry(s, alu, 0) == Some(s) && Accounted(LastCheck(s, alu, 0), s) && NBR_LIVE == 40
  {
  }

  /** Between life checks the machine's counter and the champions' counters agree in this
      sense, and the machine's never exceeds its threshold by as much as the number of
      champions. */
  lemma {:induction false} LiveAccounting(s: State, alu: Alu, n: nat)
    requires Inv(s) && s.lives == 0 && forall i | 0 <= i < s.count :: s.champs[i].lives == 0
    requires Entry(s, alu, n).Some?
    ensures var t := Entry(s, alu, n).value;
            Accounted(LastCheck(s, alu, n), t) && t.lives <= 39 + s.count
    decreases n
  {
    hide *;
    if n == 0 {
      AccountedStart(s, alu);
    } else {
      EntryStep(s, alu, n);
      LastCheckStep(s, alu, n);
      LiveAccounting(s, alu, n - 1);
      AccountedStep(LastCheck(s, alu, n - 1), Entry(s, alu, n - 1).value, alu);
    }
  }

  /** A check is made on entry `n` if and only if the champions have gained 40 lives since the
      last one, or the cycles since then have reached the time to die. */
  lemma ChecksWhenDue(s: State, alu: Alu, n: nat)
    requires Inv(s) && s.lives == 0 && forall i | 0 <= i < s.count :: s.champs[i].lives == 0
    requires Entry(s, alu, n).Some? && Entry(s, alu, n + 1).Some?
    ensures var t, u, base := Entry(s, alu, n).value, Entry(s, alu, n + 1).value, LastCheck(s, alu, n);
            && |t.champs| == |base.champs| == 4 && t.count <= 4
            && var gained := TotalLives(t.champs, t.count) - TotalLives(base.champs, t.count);
               u.cycleToDie == t.cycleToDie - if gained >= 40 || t.cycles >= t.cycleToDie then 5 else 0
  {
    hide Inv, Entry, Sweep, GameOn, LastCheck;
    var t := Entry(s, alu, n).value;
    LiveAccounting(s, alu, n);
    EntryStep(s, alu, n + 1);
    CheckExact(t);
  }

  // ---------------------------------------------------------------- termination

  function MaxSweeps(d: int): nat
    decreases if d > 0 then d else 0
  {
    if d <= 0 then 0 else d + MaxSweeps(d - CYCLE_DELTA)
  }

  lemma {:induction false} MaxSweepsClosed(q: nat)
    ensures MaxSweeps(5 * q + 1) == (5 * q * (q + 1)) / 2 + q + 1
  {
    if q > 0 {
      MaxSweepsClosed(q - 1);
      assert 5 * q * (q + 1) == 5 * (q - 1) * q + 10 * q;
    } else {
      assert MaxSweeps(-4) == 0;
    }
  }

  /** Sweeps a game in state `s` can still make. */
  function Fuel(s: State): nat
  {
    (if s.cycles < s.cycleToDie then s.cycleToDie - s.cycles else 0) + MaxSweeps(s.cycleToDie - CYCLE_DELTA)
  }

  datatype Outcome = Outcome(final: State, checks: nat, sweeps: nat)

  /** `run_game`: the final state, the number of life checks and of sweeps. */
  ghost function Play(s: State, alu: Alu): Outcome
    requires Inv(s)
    decreases if s.cycleToDie > 0 then s.cycleToDie else 0,
              if s.cycles < s.cycleToDie then s.cycleToDie - s.cycles else 0
  {
    var (t, over) := GameOn(s);
    var c := if Due(s) then 1 else 0;
    if over then Outcome(t, c, 0)
    else
      GameOnKeepsInv(s);
      SweepDebt(t, alu);
      var r := Play(Sweep(t, alu), alu);
      Outcome(r.final, r.checks + c, r.sweeps + 1)
  }

  function Positive(x: int): nat
  {
    if x > 0 then x else 0
  }

  lemma {:induction false} PlayBounds(s: State, alu: Alu)
    requires Inv(s)
    ensures var r := Play(s, alu);
            && r.sweeps <= Fuel(s)
            && 1 <= r.checks
            && r.final.cycleToDie == s.cycleToDie - CYCLE_DELTA * r.checks
            && (r.checks > 1 ==> r.final.cycleToDie > -CYCLE_DELTA)
            && r.final.count == s.count && |r.final.champs| == 4
            && (Alive(r.final.champs, s.count) == 1 || r.final.cycleToDie <= 0)
    decreases Positive(s.cycleToDie), Positive(s.cycleToDie - s.cycles)
  {
    hide Inv, Sweep;
    InvBasics(s);
    var (t, over) := GameOn(s);
    GameOnKeepsInv(s);
    if !over {
      SweepDebt(t, alu);
      PlayBounds(Sweep(t, alu), alu);
    }
  }

  lemma {:induction false} AliveSame(a: seq<Champ>, b: seq<Champ>, n: nat)
    requires n <= |a| && n <= |b| && forall i | 0 <= i < n :: a[i].dead == b[i].dead
    ensures Alive(a, n) == Alive(b, n)
  {
    if n > 0 { AliveSame(a, b, n - 1); }
  }

  lemma NobodyAfterCheck(s: State)
    requires 0 < s.count <= |s.champs| && Alive(s.champs, s.count) == 0
    ensures Alive(GameOn(s).0.champs, s.count) == 0
  {
    var t := GameOn(s).0;
    AliveBounds(s.champs, s.count);
    forall i | 0 <= i < s.count ensures t.champs[i].dead {
      if Due(s) { Survivors(Rewound(s.champs, s.count), s.count, i); }
    }
    AliveBounds(t.champs, s.count);
  }

  /** Once nobody is left the game goes on until the time to die is used up. */
  lemma {:induction false} NobodyStays(s: State, alu: Alu)
    requires Inv(s) && s.count <= |s.champs| && Alive(s.champs, s.count) == 0
    ensures var r := Play(s, alu);
            r.final.cycleToDie <= 0 && |r.final.champs| == 4 && s.count <= 4 && Alive(r.final.champs, s.count) == 0
    decreases Positive(s.cycleToDie), Positive(s.cycleToDie - s.cycles)
  {
    hide Inv, Sweep, Alive, Judged, Rewound;
    InvBasics(s);
    var (t, over) := GameOn(s);
    GameOnKeepsInv(s);
    InvBasics(t);
    NobodyAfterCheck(s);
    if !over {
      SweepDebt(t, alu);
      var u := Sweep(t, alu);
      InvBasics(u);
      AliveSame(t.champs, u.champs, s.count);
      NobodyStays(u, alu);
    }
  }

  lemma {:induction false} EntryBefore(s: State, alu: Alu, m: nat, n: nat)
    requires Inv(s) && m <= n && Entry(s, alu, n).Some?
    ensures Entry(s, alu, m).Some?
    decreases n
  {
    hide *;
    if m < n {
      EntryStep(s, alu, n);
      EntryBefore(s, alu, m, n - 1);
    }
  }

  /** No sweep is made with exactly one champion left, unless the game began so. */
  lemma {:induction false} NeverOneLeft(s: State, alu: Alu, n: nat)
    requires Inv(s) && |s.champs| == 4 && s.count <= 4 && Alive(s.champs, s.count) != 1
    requires Entry(s, alu, n).Some?
    ensures var t := Entry(s, alu, n).value;
            |t.champs| == 4 && t.count == s.count && Alive(t.champs, s.count) != 1
    decreases n
  {
    hide Inv, Entry, Sweep, GameOn, Alive;
    InvBasics(s);
    if n == 0 {
      EntryZero(s, alu);
    } else {
      EntryStep(s, alu, n);
      NeverOneLeft(s, alu, n - 1);
      var p := Entry(s, alu, n - 1).value;
      var t := GameOn(p).0;
      CheckExact(p);
      InvBasics(t);
      OverWhen(p);
      SweepDebt(t, alu);
      InvBasics(Sweep(t, alu));
      AliveSame(t.champs, Sweep(t, alu).champs, s.count);
    }
  }

  lemma OverWhen(s: State)
    requires 0 < s.count <= |s.champs|
    ensures GameOn(s).0.count == s.count
  {
  }

  /** The game ends with the first check that leaves exactly one champion: on no entry before
      is there exactly one, and the last entry is that of the outcome. */
  lemma EndsAtFirstSurvivor(s: State, alu: Alu, n: nat)
    requires Inv(s) && |s.champs| == 4 && s.count <= 4 && Alive(s.champs, s.count) != 1
    requires n <= Play(s, alu).sweeps
    ensures Entry(s, alu, n).Some? && Entry(s, alu, Play(s, alu).sweeps + 1) == None
    ensures var t, r := Entry(s, alu, n).value, Play(s, alu);
            && |t.champs| == 4 && Alive(t.champs, s.count) != 1
            && |r.final.champs| == 4 && (Alive(r.final.champs, s.count) == 1 || r.final.cycleToDie <= 0)
  {
    hide *;
    PlayIsRun(s, alu);
    EntryBefore(s, alu, n, Play(s, alu).sweeps);
    NeverOneLeft(s, alu, n);
    PlayBounds(s, alu);
  }

  /** Every game ends: within 308 life checks and 236698 sweeps, with one survivor, whom the
      announcement names, or, after exactly 308 checks, with the time to die used up; then too
      a living champion is announced if and only if there is one. */
  lemma GameEnds(s: State, alu: Alu)
    requires Inv(s) && s.cycles == 0 && s.cycleToDie == CYCLE_TO_DIE
    ensures var r := Play(s, alu);
            && r.final.count == s.count && |r.final.champs| == 4
            && r.checks <= 308 && r.sweeps <= 236698
            && r.final.cycleToDie == 1536 - 5 * r.checks
            && (r.checks == 308 <==> r.final.cycleToDie <= 0)
            && (r.checks < 308 ==>
                  && Alive(r.final.champs, s.count) == 1
                  && var w := FindWinner(r.final.champs, 0);
                     w < s.count && !r.final.champs[w].dead
                     && forall j | 0 <= j < s.count && j != w :: r.final.champs[j].dead)
            && (Alive(r.final.champs, s.count) == 0 ==> r.checks == 308)
            && var w := FindWinner(r.final.champs, 0);
               w < s.count && !r.final.champs[w].dead <==> Alive(r.final.champs, s.count) > 0
  {
    hide Inv, Play, GameOn;
    InvBasics(s);
    var r := Play(s, alu);
    PlayBounds(s, alu);
    MaxSweepsClosed(306);
    if r.checks < 308 { WinnerIsSurvivor(r.final.champs, s.count); }
    AnnouncedIsAlive(r.final.champs, s.count);
  }

  lemma {:induction false} EntryShift(s: State, alu: Alu, n: nat)
    requires Inv(s) && !GameOn(s).1
    ensures Inv(GameOn(s).0)
    ensures Entry(s, alu, n + 1) == Entry(Sweep(GameOn(s).0, alu), alu, n)
    decreases n
  {
    hide *;
    GameOnKeepsInv(s);
    InvBasics(s);
    var u := Sweep(GameOn(s).0, alu);
    NextEntry(s, alu, n);
    if n > 0 {
      EntryShift(s, alu, n - 1);
      NextEntry(u, alu, n - 1);
    } else {
      EntryZero(s, alu);
      EntryZero(u, alu);
    }
  }

  lemma NextEntry(s: State, alu: Alu, n: nat)
    requires Inv(s)
    ensures match Entry(s, alu, n)
            case None => Entry(s, alu, n + 1) == None
            case Some(t) =>
              && 0 < t.count <= |t.champs| && Inv(GameOn(t).0)
              && Entry(s, alu, n + 1) == if GameOn(t).1 then None else Some(Sweep(GameOn(t).0, alu))
  {
    hide GameOn, Sweep;
    match Entry(s, alu, n)
    case None =>
    case Some(t) => GameOnKeepsInv(t);
  }

  /** `Play` is the iteration of the loop body: after its number of sweeps, and not before,
      `game_on` says that the game is over. */
  lemma {:induction false} PlayIsRun(s: State, alu: Alu)
    requires Inv(s)
    ensures var r := Play(s, alu);
            && Entry(s, alu, r.sweeps).Some?
            && GameOn(Entry(s, alu, r.sweeps).value) == (r.final, true)
            && Entry(s, alu, r.sweeps + 1) == None
    decreases Positive(s.cycleToDie), Positive(s.cycleToDie - s.cycles)
  {
    hide Inv, Sweep, Extends;
    InvBasics(s);
    var (t, over) := GameOn(s);
    GameOnKeepsInv(s);
    if !over {
      SweepDebt(t, alu);
      var u := Sweep(t, alu);
      PlayIsRun(u, alu);
      EntryShift(s, alu, Play(u, alu).sweeps);
      EntryShift(s, alu, Play(u, alu).sweeps + 1);
    } else {
      assert Entry(s, alu, 0) == Some(s);
    }
  }

  lemma PlayStop(s: State, alu: Alu)
    requires Inv(s) && 0 < s.count <= |s.champs| && GameOn(s).1
    ensures Play(s, alu).final == GameOn(s).0 && Play(s, alu).sweeps == 0
  {
  }

  lemma PlayStep(s: State, alu: Alu)
    requires Inv(s) && 0 < s.count <= |s.champs| && !GameOn(s).1
    ensures Inv(GameOn(s).0)
    ensures var u := Sweep(GameOn(s).0, alu);
            && Play(s, alu).final == Play(u, alu).final
            && Play(s, alu).sweeps == Play(u, alu).sweeps + 1
            && (Positive(u.cycleToDie) < Positive(s.cycleToDie) ||
                (u.cycleToDie == s.cycleToDie && Positive(u.cycleToDie - u.cycles) < Positive(s.cycleToDie - s.cycles)))
    ensures Inv(Charge(GameOn(s).0, 1))
    ensures Sweep(GameOn(s).0, alu) == Tick(Stage(Charge(GameOn(s).0, 1), GameOn(s).0.count, alu).0)
  {
    GameOnKeepsInv(s);
    SweepDebt(GameOn(s).0, alu);
    ChargeKeepsInv(GameOn(s).0, 1);
  }

  /** The machine's scalars stay far from the limits of a C int. */
  lemma {:induction false} ScalarsBounded(s: State, alu: Alu, n: nat)
    requires Inv(s) && s.cycles == 0 && s.cycleToDie == CYCLE_TO_DIE && Entry(s, alu, n).Some?
    ensures var t := Entry(s, alu, n).value;
            0 <= t.cycles <= CYCLE_TO_DIE + 4000 && 0 < t.cycleToDie <= CYCLE_TO_DIE
    decreases n
  {
    hide Inv, Entry, Sweep, Judged, Alive, Rewound;
    InvBasics(s);
    if n == 0 {
      EntryZero(s, alu);
    } else {
      EntryStep(s, alu, n);
      ScalarsBounded(s, alu, n - 1);
      SweepDebt(GameOn(Entry(s, alu, n - 1).value).0, alu);
      InvBasics(GameOn(Entry(s, alu, n - 1).value).0);
    }
  }
}
