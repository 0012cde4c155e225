/** The scheduler's sweep, the life check and the game loop. */
module Game {
  import opened OpTable
  import opened Wrappers
  import opened Decoder
  import opened Links
  import opened Machine

  // ---------------------------------------------------------------- sweeps

  lemma ExtendsTrans(s: State, t: State, u: State)
    requires Extends(s, t) && Extends(t, u)
    ensures Extends(s, u)
  {
  }

  lemma EffectFrame(s: State, c: nat, op: int, v: int, flag: bool)
    requires Linked(s) && c < |s.champs|
    ensures var t := Effect(s, c, op, v, flag);
            && t.sweeps == s.sweeps && t.cycleToDie == s.cycleToDie && t.count == s.count && t.cycles == s.cycles
            && s.lives <= t.lives <= s.lives + 1
  {
  }

  /** What a visit leaves alone, and that cycles and lives only grow. */
  lemma VisitFrame(s: State, p: nat, flag: bool)
    requires Linked(s) && p < |s.procs|
    ensures var t := Visit(s, p, flag);
            && t.sweeps == s.sweeps && t.cycleToDie == s.cycleToDie && t.count == s.count
            && s.cycles <= t.cycles <= s.cycles + 1000
            && s.lives <= t.lives <= s.lives + 1
  {
    hide Decode;
    var q := s.procs[p];
    var c := FindChampion(s.champs, q.player);
    var at := q.index + Wrap(q.counter, s.champs[c].size);
    if IsOpcode(Cell(s.mem, at)) {
      var d := Decode(s.mem, at);
      EffectFrame(Charge(s, Cost(d.opcode)), c, d.opcode, d.operands[0].Or(0), flag);
    }
  }

  /** The state after `n` steps of a sweep, and the process whose turn it is. */
  ghost function Stage(s: State, n: nat, alu: Alu): (r: (State, nat))
    requires Inv(s)
    ensures Inv(r.0) && Extends(s, r.0) && r.1 in Orbit(r.0.links)
    ensures r.0.sweeps == s.sweeps && r.0.cycleToDie == s.cycleToDie && r.0.count == s.count
    decreases n
  {
    if n == 0 then
      assert Orbit(s.links)[0] == 0;
      (s, 0)
    else
      var (t, cur) := Stage(s, n - 1, alu);
      VisitKeepsInv(t, cur, alu(s.sweeps, n - 1));
      VisitFrame(t, cur, alu(s.sweeps, n - 1));
      var u := Visit(t, cur, alu(s.sweeps, n - 1));
      ExtendsTrans(s, t, u);
      (u, u.links[cur])
  }

  lemma StageZero(s: State, alu: Alu)
    requires Inv(s)
    ensures Stage(s, 0, alu) == (s, 0)
  {
  }

  lemma StageStep(s: State, n: nat, alu: Alu)
    requires Inv(s) && n > 0
    ensures var (t, cur) := Stage(s, n - 1, alu);
            && Linked(t) && cur < |t.procs|
            && var u := Visit(t, cur, alu(s.sweeps, n - 1)); Stage(s, n, alu) == (u, u.links[cur])
  {
    hide Visit;
    InvBasics(Stage(s, n - 1, alu).0);
  }

  function Tick(s: State): State
  {
    s.(sweeps := s.sweeps + 1)
  }

  lemma TickKeepsInv(s: State)
    requires Inv(s)
    ensures Inv(Tick(s)) && Extends(s, Tick(s))
  {
    ProcsOk(s);
    InvFrom(s, Tick(s));
  }

  /** `run_instructions`: exactly as many steps as there are champions, from the head. */
  ghost function Sweep(s: State, alu: Alu): (t: State)
    requires Inv(s)
    ensures Inv(t) && Extends(s, t) && t.cycleToDie == s.cycleToDie
  {
    ChargeKeepsInv(s, 1);
    var t := Stage(Charge(s, 1), s.count, alu).0;
    ExtendsTrans(s, Charge(s, 1), t);
    TickKeepsInv(t);
    Tick(t)
  }

  // ---------------------------------------------------------------- the life check

  predicate NoHope(champs: seq<Champ>, n: nat)
    requires n <= |champs|
  {
    forall j | 0 <= j < n :: champs[j].dead || champs[j].lives == 0
  }

  /** The early return of `check_champion_lives` spares the last champion, when everybody
      before it is dead. */
  predicate Spared(champs: seq<Champ>, count: nat, i: nat)
    requires i < count <= |champs|
  {
    i == count - 1 && NoHope(champs, i)
  }

  /** The early return is taken. */
  predicate SparesLast(champs: seq<Champ>, count: nat)
    requires 0 < count <= |champs|
  {
    !champs[count - 1].dead && champs[count - 1].lives == 0 && Spared(champs, count, count - 1)
  }

  function Judge(champs: seq<Champ>, count: nat, i: nat): Champ
    requires i < count <= |champs|
  {
    var c := champs[i];
    if c.dead then c
    else c.(lives := 0, dead := c.lives == 0 && !Spared(champs, count, i))
  }

  /** `check_champion_lives` on the champion table, without its loop. */
  function Judged(champs: seq<Champ>, count: nat): (r: seq<Champ>)
    requires count <= |champs|
    ensures |r| == |champs|
  {
    seq(|champs|, i requires 0 <= i < |champs| => if i < count then Judge(champs, count, i) else champs[i])
  }

  function Alive(champs: seq<Champ>, n: nat): nat
    requires n <= |champs|
  {
    if n == 0 then 0 else Alive(champs, n - 1) + if champs[n - 1].dead then 0 else 1
  }

  lemma {:induction false} AliveBounds(champs: seq<Champ>, n: nat)
    requires n <= |champs|
    ensures Alive(champs, n) <= n
    ensures Alive(champs, n) == 0 <==> forall i | 0 <= i < n :: champs[i].dead
    ensures Alive(champs, n) == n <==> forall i | 0 <= i < n :: !champs[i].dead
  {
    if n > 0 { AliveBounds(champs, n - 1); }
  }

  lemma {:induction false} AliveOne(champs: seq<Champ>, n: nat) returns (i: nat)
    requires n <= |champs| && Alive(champs, n) == 1
    ensures i < n && !champs[i].dead && forall j | 0 <= j < n && j != i :: champs[j].dead
  {
    AliveBounds(champs, n - 1);
    if champs[n - 1].dead { i := AliveOne(champs, n - 1); } else { i := n - 1; }
  }

  lemma AliveStart(champs: seq<Champ>)
    ensures Alive(champs, 0) == 0
  {
  }

  lemma JudgedRest(champs: seq<Champ>, count: nat)
    requires count <= |champs|
    ensures forall k | count <= k < |champs| :: Judged(champs, count)[k] == champs[k]
  {
  }

  lemma SparedIsLast(champs: seq<Champ>, count: nat, i: nat)
    requires i < count <= |champs|
    ensures Spared(champs, count, i) ==> i == count - 1
  {
  }

  lemma JudgedAt(champs: seq<Champ>, count: nat, i: nat)
    requires i < count <= |champs|
    ensures Judged(champs, count)[i] == Judge(champs, count, i)
    ensures Alive(Judged(champs, count), i + 1) ==
            Alive(Judged(champs, count), i) + if Judge(champs, count, i).dead then 0 else 1
  {
  }

  /** The loop's running count has come down to one at a living champion exactly when that
      champion is the last and everybody before it is dead: the early return can fire
      nowhere else. */
  lemma EarlyReturnOnlyAtLast(champs: seq<Champ>, count: nat, i: nat)
    requires i < count <= |champs|
    ensures count - i + Alive(Judged(champs, count), i) == 1 <==> Spared(champs, count, i)
  {
    var after := Judged(champs, count);
    AliveBounds(after, i);
    forall j | 0 <= j < i ensures after[j].dead <==> champs[j].dead || champs[j].lives == 0 {
      JudgedAt(champs, count, j);
    }
  }

  /** The check leaves nobody alive exactly when the last champion was already dead and no
      living champion had executed `live`. */
  lemma NobodyLeft(champs: seq<Champ>, count: nat)
    requires 0 < count <= |champs|
    ensures Alive(Judged(champs, count), count) == 0 <==>
            champs[count - 1].dead && NoHope(champs, count - 1)
  {
    var after := Judged(champs, count);
    AliveBounds(after, count);
    assert after[count - 1] == Judge(champs, count, count - 1);
    assert forall i | 0 <= i < count - 1 :: after[i] == Judge(champs, count, i) && !Spared(champs, count, i);
    if !NoHope(champs, count - 1) {
      var j :| 0 <= j < count - 1 && !(champs[j].dead || champs[j].lives == 0);
      assert !after[j].dead;
    }
  }

  /** Who survives: a living champion that executed `live`, or the spared last one. The dead
      stay dead and keep their count; every survivor starts again from zero. */
  lemma Survivors(champs: seq<Champ>, count: nat, i: nat)
    requires i < count <= |champs|
    ensures var c, d := champs[i], Judged(champs, count)[i];
            && (!d.dead <==> !c.dead && (c.lives != 0 || Spared(champs, count, i)))
            && (!d.dead ==> d.lives == 0)
            && (c.dead ==> d == c)
            && (Spared(champs, count, i) && !d.dead ==> Alive(Judged(champs, count), count) == 1)
  {
    if Spared(champs, count, i) && !Judged(champs, count)[i].dead {
      var after := Judged(champs, count);
      assert forall j | 0 <= j < i :: after[j] == Judge(champs, count, j);
      AliveBounds(after, i);
    }
  }

  /** `find_winner`: the first champion slot that is not dead. */
  function FindWinner(champs: seq<Champ>, i: nat): (r: nat)
    ensures champs != [] ==> r < |champs|
    decreases |champs| - i
  {
    if i >= |champs| then 0 else if !champs[i].dead then i else FindWinner(champs, i + 1)
  }

  lemma {:induction false} FindWinnerFinds(champs: seq<Champ>, i: nat, k: nat)
    requires i <= k < |champs| && !champs[k].dead && forall j | i <= j < k :: champs[j].dead
    ensures FindWinner(champs, i) == k
    decreases k - i
  {
    if i < k { FindWinnerFinds(champs, i + 1, k); }
  }

  /** Whenever one champion is left, the announced winner is that champion, whatever the
      unused slots hold. */
  lemma WinnerIsSurvivor(champs: seq<Champ>, count: nat)
    requires count <= |champs| && Alive(champs, count) == 1
    ensures var w := FindWinner(champs, 0);
            w < count && !champs[w].dead && forall j | 0 <= j < count && j != w :: champs[j].dead
  {
    var k := AliveOne(champs, count);
    FindWinnerFinds(champs, 0, k);
  }

  lemma {:induction false} FindWinnerFrom(champs: seq<Champ>, count: nat, i: nat)
    requires i <= count <= |champs| && forall j | 0 <= j < i :: champs[j].dead
    ensures var w := FindWinner(champs, i);
            if Alive(champs, count) > 0 then w < count && !champs[w].dead && forall j | 0 <= j < w :: champs[j].dead
            else w < count ==> champs[w].dead
    decreases count - i
  {
    AliveBounds(champs, count);
    if i < count && champs[i].dead { FindWinnerFrom(champs, count, i + 1); }
  }

  /** The announced slot is that of a living champion, the first, if and only if somebody is
      alive. With nobody left the first unused slot is announced, if there is one that is not
      dead, and slot 0, whose champion is dead, if there is no unused slot. */
  lemma AnnouncedIsAlive(champs: seq<Champ>, count: nat)
    requires count <= |champs|
    ensures var w := FindWinner(champs, 0);
            && (w < count && !champs[w].dead <==> Alive(champs, count) > 0)
            && (Alive(champs, count) > 0 ==> forall j | 0 <= j < w :: champs[j].dead)
            && (Alive(champs, count) == 0 && count < |champs| && !champs[count].dead ==> w == count)
            && (Alive(champs, count) == 0 && count == |champs| ==> w == 0)
  {
    FindWinnerFrom(champs, count, 0);
    AliveBounds(champs, count);
    if Alive(champs, count) == 0 && count < |champs| && !champs[count].dead { FindWinnerFinds(champs, 0, count); }
    if Alive(champs, count) == 0 && count == |champs| { FindWinnerNone(champs, 0); }
  }

  lemma {:induction false} FindWinnerNone(champs: seq<Champ>, i: nat)
    requires forall j | 0 <= j < |champs| :: champs[j].dead
    ensures FindWinner(champs, i) == 0
    decreases |champs| - i
  {
    if i < |champs| { FindWinnerNone(champs, i + 1); }
  }

  /** For instance three champions, the last of them dead already, of whom nobody has lives:
      the check leaves nobody alive, and the unused slot 3 is announced. */
  lemma NobodyWins()
    ensures var c := Champ(1, 5, 0, false, 0, false);
            var champs := [c, c.(id := 2), c.(id := 3, dead := true), c.(id := 0)];
            Alive(Judged(champs, 3), 3) == 0 && FindWinner(Judged(champs, 3), 0) == 3
  {
    var c := Champ(1, 5, 0, false, 0, false);
    var champs := [c, c.(id := 2), c.(id := 3, dead := true), c.(id := 0)];
    NobodyLeft(champs, 3);
    AnnouncedIsAlive(Judged(champs, 3), 3);
  }

  // ---------------------------------------------------------------- the game loop

  function Rewound(champs: seq<Champ>, count: nat): (r: seq<Champ>)
    requires count <= |champs|
    ensures |r| == |champs|
  {
    seq(|champs|, i requires 0 <= i < |champs| => if i < count then champs[i].(counter := 0) else champs[i])
  }

  predicate Due(s: State)
  {
    s.lives >= NBR_LIVE || s.cycles >= s.cycleToDie
  }

  /** The state after the life check in `game_on`. */
  function Checked(s: State): State
    requires 0 < s.count <= |s.champs|
  {
    var champs := Rewound(s.champs, s.count);
    s.(cycleToDie := s.cycleToDie - CYCLE_DELTA, cycles := 0, lives := 0,
       winner := if SparesLast(champs, s.count) then champs[s.count - 1].id else 0,
       champs := Judged(champs, s.count))
  }

  /** `game_on`: the new state, and whether the game is over. */
  function GameOn(s: State): (r: (State, bool))
    requires 0 < s.count <= |s.champs|
  {
    if Due(s) then
      var t := Checked(s);
      (t, Alive(t.champs, t.count) == 1 || t.cycleToDie <= 0)
    else (s, false)
  }

  /** When a life check is made, and everything it does: with 40 lives or once the cycles are
      used up, and then the time to die shrinks by five, cycles, lives and the champions'
      counters start again from zero, the game is over with one champion left or no time to
      die, and the champion that was spared is the winner so far. */
  lemma CheckExact(s: State)
    requires 0 < s.count <= |s.champs|
    ensures var (t, over) := GameOn(s);
            && |t.champs| == |s.champs| && t.count == s.count
            && t.mem == s.mem && t.procs == s.procs && t.links == s.links && t.sweeps == s.sweeps
            && if s.lives < 40 && s.cycles < s.cycleToDie then t == s && !over
               else
                 && t.cycleToDie == s.cycleToDie - 5 && t.cycles == 0 && t.lives == 0
                 && (over <==> Alive(t.champs, s.count) == 1 || t.cycleToDie <= 0)
                 && (forall i | 0 <= i < s.count ::
                       t.champs[i].counter == 0 && t.champs[i].id == s.champs[i].id
                       && t.champs[i].size == s.champs[i].size && t.champs[i].carry == s.champs[i].carry)
                 && (forall i | s.count <= i < |s.champs| :: t.champs[i] == s.champs[i])
                 && var last := s.champs[s.count - 1];
                    t.winner == if !last.dead && last.lives == 0 && NoHope(s.champs, s.count - 1) then last.id else 0
  {
    hide Alive;
    var champs := Rewound(s.champs, s.count);
    assert NoHope(champs, s.count - 1) <==> NoHope(s.champs, s.count - 1) by {
      assert forall j | 0 <= j < s.count :: champs[j] == s.champs[j].(counter := 0);
    }
  }

  lemma CheckedFields(s: State)
    requires 0 < s.count <= |s.champs|
    ensures var t, champs := Checked(s), Rewound(s.champs, s.count);
            && t == s.(cycleToDie := t.cycleToDie, cycles := 0, lives := 0, winner := t.winner, champs := t.champs)
            && t.cycleToDie == s.cycleToDie - CYCLE_DELTA
            && t.champs == Judged(champs, s.count)
            && t.winner == if SparesLast(champs, s.count) then champs[s.count - 1].id else 0
  {
  }

  lemma CheckedKeepsInv(s: State)
    requires Inv(s)
    ensures Inv(Checked(s)) && Extends(s, Checked(s))
  {
    ProcsOk(s);
    InvFrom(s, Checked(s));
  }

  lemma GameOnKeepsInv(s: State)
    requires Inv(s)
    ensures Inv(GameOn(s).0) && Extends(s, GameOn(s).0)
  {
    ProcsOk(s);
    InvFrom(s, GameOn(s).0);
  }

  /** The state on the `n`-th entry of `game_on`; none when the game is over before. */
  ghost function Entry(s: State, alu: Alu, n: nat): (r: Option<State>)
    requires Inv(s)
    ensures r.Some? ==> Inv(r.value) && Extends(s, r.value)
    decreases n
  {
    if n == 0 then Some(s)
    else
      match Entry(s, alu, n - 1)
      case None => None
      case Some(t) =>
        GameOnKeepsInv(t);
        var (u, over) := GameOn(t);
        if over then None
        else
          ExtendsTrans(s, t, u);
          ExtendsTrans(s, u, Sweep(u, alu));
          Some(Sweep(u, alu))
  }

  lemma EntryZero(s: State, alu: Alu)
    requires Inv(s)
    ensures Entry(s, alu, 0) == Some(s)
  {
  }

  lemma EntryStep(s: State, alu: Alu, n: nat)
    requires Inv(s) && n > 0 && Entry(s, alu, n).Some?
    ensures Entry(s, alu, n - 1).Some?
    ensures var p := Entry(s, alu, n - 1).value;
            && |p.champs| == 4 && 0 < p.count <= 4 && !GameOn(p).1
            && Inv(GameOn(p).0)
            && Entry(s, alu, n).value == Sweep(GameOn(p).0, alu)
  {
    GameOnKeepsInv(Entry(s, alu, n - 1).value);
  }

  /** The state after `j` steps of the sweep that follows entry `n`, and the process whose
      turn it is. */
  ghost function Midway(s: State, alu: Alu, n: nat, j: nat): (r: (State, nat))
    requires Inv(s) && Entry(s, alu, n).Some?
    ensures Inv(r.0) && Extends(s, r.0) && r.1 in Orbit(r.0.links)
  {
    var t := Entry(s, alu, n).value;
    GameOnKeepsInv(t);
    var u := GameOn(t).0;
    ChargeKeepsInv(u, 1);
    ExtendsTrans(s, t, u);
    ExtendsTrans(s, u, Charge(u, 1));
    ExtendsTrans(s, Charge(u, 1), Stage(Charge(u, 1), j, alu).0);
    Stage(Charge(u, 1), j, alu)
  }

  /** The process list of one state: from the head, a finite lasso without duplicates; every
      clone belongs to the head's player and every other player owns at most one process; so
      looking for the player of any reachable process ends at a process of that player. */
  ghost predicate WellLinked(s: State)
    requires Linked(s)
  {
    var path := Orbit(s.links);
    && IsOrbit(s.links, path)
    && (forall p | s.count <= p < |s.procs| :: s.procs[p].player == s.procs[0].player)
    && (forall i, j | 0 <= i < j < |path| && s.procs[path[i]].player == s.procs[path[j]].player ::
          s.procs[path[i]].player == s.procs[0].player)
    && (forall x | x in path ::
          x < |s.procs| && var f := FindProcess(s, s.procs[x].player);
          f in path && s.procs[f].player == s.procs[x].player)
  }

  lemma InvWellLinked(s: State)
    requires Inv(s)
    ensures Linked(s) && WellLinked(s)
  {
    hide IsOrbit;
    var path := Orbit(s.links);
    OrbitShape(s.links);
    assert path[0] == 0;
    forall p | 0 <= p < |s.procs| ensures s.procs[p].player == s.champs[Owner(s, p)].id { assert ProcOk(s, p); }
    OrbitDistinct(s.links);
    forall x | x in path
      ensures x < |s.procs| && var f := FindProcess(s, s.procs[x].player);
              f in path && s.procs[f].player == s.procs[x].player
    {
      FindsSelf(s, x);
    }
  }

  /** In every reachable state, also in the middle of a sweep, the list is well linked and
      the process whose turn it is lies on it. */
  lemma SchedulerSafe(s: State, alu: Alu, n: nat, j: nat)
    requires Inv(s) && Entry(s, alu, n).Some?
    ensures var (t, cur) := Midway(s, alu, n, j);
            Linked(t) && WellLinked(t) && cur in Orbit(t.links)
  {
    hide Inv, Midway, Entry, WellLinked, Linked, Closed;
    InvWellLinked(Midway(s, alu, n, j).0);
  }

  /** In every reachable state the champions' counters are below 512, no clone starts behind
      cell 1531, and whatever instruction any process, reachable or not, points at, all cells
      it can touch are in memory. */
  lemma AddressBounds(s: State, alu: Alu, n: nat, j: nat, p: nat)
    requires Inv(s) && Entry(s, alu, n).Some?
    requires p < |Midway(s, alu, n, j).0.procs|
    ensures var t := Midway(s, alu, n, j).0;
            && Owner(t, p) < |t.champs|
            && (forall i | 0 <= i < t.count <= |t.champs| :: 0 <= t.champs[i].counter < IDX_MOD)
            && (p >= t.count ==> 0 <= t.procs[p].index <= 1531)
            && var at := t.procs[p].index + Wrap(t.procs[p].counter, t.champs[Owner(t, p)].size);
               0 <= at && at + 13 < |t.mem| == MEM_SIZE
  {
    hide Midway, Entry;
    var t := Midway(s, alu, n, j).0;
    assert ProcOk(t, p);
    WrapOk(t, p);
    forall i | 0 <= i < t.count ensures 0 <= t.champs[i].counter < IDX_MOD { assert ChampOk(t.champs[i]); }
  }
}
