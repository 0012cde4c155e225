/** Who is visited how often: a sweep makes one step per champion from the head, however long
    the list has become. */
module Schedule {
  import opened OpTable
  import opened Decoder
  import opened Links
  import opened Machine
  import opened Game
  import opened Independence
  import opened Forks
  import opened Setup

  // ---------------------------------------------------------------- all visits together

  function Visits(s: State, n: nat): nat
    requires n <= |s.procs|
  {
    if n == 0 then 0 else Visits(s, n - 1) + s.procs[n - 1].visits
  }

  function AllVisits(s: State): nat
  {
    Visits(s, |s.procs|)
  }

  lemma {:induction false} VisitsSame(s: State, t: State, n: nat)
    requires n <= |s.procs| && n <= |t.procs| && forall i | 0 <= i < n :: t.procs[i].visits == s.procs[i].visits
    ensures Visits(t, n) == Visits(s, n)
  {
    if n > 0 { VisitsSame(s, t, n - 1); }
  }

  lemma {:induction false} VisitsStep(s: State, t: State, p: nat, n: nat)
    requires p < |s.procs| <= |t.procs| && n <= |t.procs|
    requires t.procs[p].visits == s.procs[p].visits + 1
    requires forall i | 0 <= i < |s.procs| && i != p :: t.procs[i].visits == s.procs[i].visits
    requires forall i | |s.procs| <= i < |t.procs| :: t.procs[i].visits == 0
    ensures Visits(t, n) == Visits(s, if n <= |s.procs| then n else |s.procs|) + if p < n then 1 else 0
    decreases n
  {
    if n > 0 { VisitsStep(s, t, p, n - 1); }
  }

  /** A visit is counted for the visited process only. */
  lemma VisitCounts(s: State, p: nat, flag: bool)
    requires Inv(s) && p < |s.procs|
    ensures Linked(s)
    ensures var t := Visit(s, p, flag);
            && AllVisits(t) == AllVisits(s) + 1 && |s.procs| <= |t.procs|
            && forall i | 0 <= i < |s.procs| :: t.procs[i].visits == s.procs[i].visits + if i == p then 1 else 0
  {
    hide Inv, Visit, SoloVisit;
    VisitProcs(s, p, flag);
    VisitsStep(s, Visit(s, p, flag), p, |Visit(s, p, flag).procs|);
  }

  lemma {:induction false} StageCounts(s: State, n: nat, alu: Alu)
    requires Inv(s)
    ensures Linked(s)
    ensures var t := Stage(s, n, alu).0;
            && AllVisits(t) == AllVisits(s) + n && 0 < |s.procs| <= |t.procs|
            && (forall i | 0 <= i < |s.procs| :: t.procs[i].visits >= s.procs[i].visits)
            && (n > 0 ==> t.procs[0].visits >= s.procs[0].visits + 1)
    decreases n
  {
    hide *;
    InvBasics(s);
    if n == 0 {
      StageZero(s, alu);
    } else {
      StageCounts(s, n - 1, alu);
      StageStep(s, n, alu);
      if n == 1 { StageZero(s, alu); }
      var (t, cur) := Stage(s, n - 1, alu);
      VisitCounts(t, cur, alu(s.sweeps, n - 1));
    }
  }

  lemma ChargeVisits(s: State, n: nat)
    ensures AllVisits(Charge(s, n)) == AllVisits(s) == AllVisits(Tick(s))
  {
    VisitsSame(s, Charge(s, n), |s.procs|);
    VisitsSame(s, Tick(s), |s.procs|);
  }

  lemma GameOnVisits(s: State)
    requires 0 < s.count <= |s.champs|
    ensures AllVisits(GameOn(s).0) == AllVisits(s) && GameOn(s).0.procs == s.procs
    ensures GameOn(s).0.links == s.links && GameOn(s).0.count == s.count
  {
    VisitsSame(s, GameOn(s).0, |s.procs|);
  }

  lemma SweepCounts(s: State, alu: Alu)
    requires Inv(s)
    ensures Linked(s)
    ensures var t := Sweep(s, alu);
            && AllVisits(t) == AllVisits(s) + s.count && 0 < |s.procs| <= |t.procs|
            && t.procs[0].visits >= s.procs[0].visits + 1
  {
    hide Inv, Stage, Visits;
    InvBasics(s);
    ChargeKeepsInv(s, 1);
    ChargeVisits(s, 1);
    StageCounts(Charge(s, 1), s.count, alu);
    ChargeVisits(Stage(Charge(s, 1), s.count, alu).0, 0);
  }

  lemma {:induction false} EntryCounts(s: State, alu: Alu, n: nat)
    requires Inv(s) && Entry(s, alu, n).Some?
    ensures Linked(s)
    ensures var t := Entry(s, alu, n).value;
            && AllVisits(t) == AllVisits(s) + s.count * n && t.count == s.count && 0 < |s.procs| <= |t.procs|
            && t.sweeps == s.sweeps + n
            && t.procs[0].visits >= s.procs[0].visits + n
    decreases n
  {
    hide *;
    InvBasics(s);
    if n == 0 {
      EntryZero(s, alu);
    } else {
      EntryStep(s, alu, n);
      EntryCounts(s, alu, n - 1);
      var p := Entry(s, alu, n - 1).value;
      GameOnVisits(p);
      SweepCounts(GameOn(p).0, alu);
      SameCount(s, alu, n);
      SweepTicks(p, alu);
      assert s.count * n == s.count * (n - 1) + s.count;
    }
  }

  lemma SweepTicks(s: State, alu: Alu)
    requires Inv(s) && 0 < s.count <= |s.champs| && Inv(GameOn(s).0)
    ensures Sweep(GameOn(s).0, alu).sweeps == s.sweeps + 1
  {
    hide Inv, Stage;
    ChargeKeepsInv(GameOn(s).0, 1);
  }

  lemma SameCount(s: State, alu: Alu, n: nat)
    requires Inv(s) && Entry(s, alu, n).Some?
    ensures Entry(s, alu, n).value.count == s.count
  {
    hide Entry;
  }

  /** After `n` sweeps and `j` steps of the next there have been as many visits as steps, one
      per champion in every sweep, and the head has been visited in each. */
  lemma VisitsMade(s: State, alu: Alu, n: nat, j: nat)
    requires Inv(s) && Entry(s, alu, n).Some?
    ensures Linked(s)
    ensures var t := Midway(s, alu, n, j).0;
            && AllVisits(t) == AllVisits(s) + s.count * n + j && 0 < |s.procs| <= |t.procs|
            && t.procs[0].visits >= s.procs[0].visits + n + (if j > 0 then 1 else 0)
            && t.sweeps == s.sweeps + n
  {
    hide Inv, Entry, Stage, Visits, GameOn;
    EntryCounts(s, alu, n);
    var t := Entry(s, alu, n).value;
    InvBasics(t);
    GameOnKeepsInv(t);
    GameOnVisits(t);
    CheckExact(t);
    ChargeKeepsInv(GameOn(t).0, 1);
    ChargeVisits(GameOn(t).0, 1);
    StageCounts(Charge(GameOn(t).0, 1), j, alu);
  }

  // ---------------------------------------------------------------- cycles

  /** What a visit to process `p` costs: the executed instruction's price, ten for a zero. */
  function Price(s: State, p: nat): nat
    requires p < |s.procs| && Owner(s, p) < |s.champs|
  {
    var d := Performs(s, p);
    if d.Some? then Cost(d.value.opcode) else if SkipsZero(s, p) then 10 else 0
  }

  /** The price of the process whose turn it is after `j` steps of the sweep behind entry `n`. */
  ghost function PriceAt(s: State, alu: Alu, n: nat, j: nat): nat
    requires Inv(s) && Entry(s, alu, n).Some?
  {
    var (t, cur) := Midway(s, alu, n, j);
    InvBasics(t);
    OnList(t, cur);
    Price(t, cur)
  }

  lemma OnList(s: State, p: nat)
    requires Inv(s) && p in Orbit(s.links)
    ensures p < |s.procs| && Owner(s, p) < |s.champs|
  {
  }

  ghost function Prices(s: State, alu: Alu, n: nat, j: nat): nat
    requires Inv(s) && Entry(s, alu, n).Some?
  {
    if j == 0 then 0 else Prices(s, alu, n, j - 1) + PriceAt(s, alu, n, j - 1)
  }

  lemma VisitPrice(s: State, p: nat, flag: bool)
    requires Inv(s) && p in Orbit(s.links)
    ensures Linked(s) && p < |s.procs| && Owner(s, p) < |s.champs|
    ensures Visit(s, p, flag).cycles == s.cycles + Price(s, p)
  {
    hide Inv, Visit, Performs, SkipsZero, Orbit;
    InvBasics(s);
    OnList(s, p);
    VisitOnChampions(s, p, flag, 0);
  }

  lemma MidwayIs(s: State, alu: Alu, n: nat, j: nat)
    requires Inv(s) && Entry(s, alu, n).Some?
    ensures var t := Entry(s, alu, n).value;
            && 0 < t.count <= |t.champs| && Inv(GameOn(t).0) && Inv(Charge(GameOn(t).0, 1))
            && Midway(s, alu, n, j) == Stage(Charge(GameOn(t).0, 1), j, alu)
  {
    hide Inv, Entry, Stage, GameOn;
    var t := Entry(s, alu, n).value;
    InvBasics(t);
    GameOnKeepsInv(t);
    ChargeKeepsInv(GameOn(t).0, 1);
  }

  /** Conservation of cycles: during a sweep the machine's counter grows by one for the sweep
      and by the price of every visit made in it. */
  lemma {:induction false} CyclesAreSpent(s: State, alu: Alu, n: nat, j: nat)
    requires Inv(s) && Entry(s, alu, n).Some?
    ensures var t := Entry(s, alu, n).value;
            && 0 < t.count <= |t.champs|
            && Midway(s, alu, n, j).0.cycles == GameOn(t).0.cycles + 1 + Prices(s, alu, n, j)
    ensures Entry(s, alu, n + 1).Some? && j == s.count ==>
              Entry(s, alu, n + 1).value.cycles == Midway(s, alu, n, j).0.cycles
    decreases j
  {
    hide *;
    MidwayIs(s, alu, n, j);
    var g := GameOn(Entry(s, alu, n).value).0;
    var u := Charge(g, 1);
    Charged(g);
    if j == 0 {
      StageZero(u, alu);
      NoPrices(s, alu, n);
    } else {
      CyclesAreSpent(s, alu, n, j - 1);
      MidwayIs(s, alu, n, j - 1);
      StageStep(u, j, alu);
      var (t, cur) := Stage(u, j - 1, alu);
      VisitPrice(t, cur, alu(u.sweeps, j - 1));
      OnePrice(s, alu, n, j);
    }
    if Entry(s, alu, n + 1).Some? && j == s.count {
      EntryStep(s, alu, n + 1);
      SameCount(s, alu, n);
      GameOnVisits(Entry(s, alu, n).value);
      SweepEnds(g, alu);
    }
  }

  lemma Charged(s: State)
    ensures Charge(s, 1).cycles == s.cycles + 1
  {
  }

  lemma NoPrices(s: State, alu: Alu, n: nat)
    requires Inv(s) && Entry(s, alu, n).Some?
    ensures Prices(s, alu, n, 0) == 0
  {
  }

  lemma OnePrice(s: State, alu: Alu, n: nat, j: nat)
    requires Inv(s) && Entry(s, alu, n).Some? && j > 0
    ensures var (t, cur) := Midway(s, alu, n, j - 1);
            && cur < |t.procs| && Owner(t, cur) < |t.champs|
            && Prices(s, alu, n, j) == Prices(s, alu, n, j - 1) + Price(t, cur)
  {
    hide Inv, Entry, Midway, Price;
    var (t, cur) := Midway(s, alu, n, j - 1);
    OnList(t, cur);
  }

  lemma SweepEnds(s: State, alu: Alu)
    requires Inv(s)
    ensures Inv(Charge(s, 1)) && Sweep(s, alu).cycles == Stage(Charge(s, 1), s.count, alu).0.cycles
  {
    hide Inv, Stage;
    ChargeKeepsInv(s, 1);
  }

  // ---------------------------------------------------------------- without forks

  /** How often the first `n` steps from the head meet node `x`. */
  ghost function Passes(links: seq<nat>, n: nat, x: nat): nat
    requires Closed(links)
  {
    if n == 0 then 0 else Passes(links, n - 1, x) + if Nth(links, n - 1) == x then 1 else 0
  }

  /** The list after a visit: unchanged, or with a new node after the head when the process is
      of the head's player, and otherwise after the process itself. */
  lemma VisitLinks(s: State, p: nat, flag: bool)
    requires Inv(s) && p in Orbit(s.links)
    ensures Linked(s) && p < |s.procs|
    ensures var t := Visit(s, p, flag);
            || (|t.procs| == |s.procs| && t.links == s.links)
            || (|t.procs| == |s.procs| + 1 && t.links == Splice(s.links, if Owner(s, p) == 0 then 0 else p))
    ensures var d := Performs(s, p);
            |Visit(s, p, flag).procs| == |s.procs| + 1 <==> d.Some? && d.value.opcode in {OP_FORK, OP_LFORK}
  {
    hide Inv, Effect, Decode, Closed, Machine.FindChampion, Machine.FindProcess, Orbit;
    InvBasics(s);
    RunnerOwns(s, p);
    FindsOwner(s, p);
    FindsSelf(s, p);
    VisitClones(s, p, flag);
    var d := Performs(s, p);
    if d.Some? {
      var u := Charge(s, Cost(d.value.opcode));
      EffectLinks(u, Owner(s, p), d.value.opcode, d.value.operands[0].Or(0), flag);
      FindSame(s, u, p);
    }
  }

  lemma FindSame(s: State, u: State, p: nat)
    requires Linked(s) && p < |s.procs| && u == s.(cycles := u.cycles)
    ensures Linked(u) && Machine.FindProcess(u, s.procs[p].player) == Machine.FindProcess(s, s.procs[p].player)
  {
  }

  lemma EffectLinks(s: State, c: nat, op: int, v: int, flag: bool)
    requires Linked(s) && c < |s.champs|
    ensures Effect(s, c, op, v, flag).links ==
            if op == OP_FORK || op == OP_LFORK then Splice(s.links, Machine.FindProcess(s, s.champs[c].id)) else s.links
  {
  }

  /** As long as nothing forks, the steps of a sweep follow the list from the head. */
  lemma {:induction false} QuietStage(s: State, n: nat, alu: Alu)
    requires Inv(s)
    ensures Linked(s)
    ensures var (t, cur) := Stage(s, n, alu);
            && |s.procs| <= |t.procs|
            && (|t.procs| == |s.procs| ==>
                  && t.links == s.links && cur == Nth(s.links, n)
                  && forall i | 0 <= i < |s.procs| ::
                       t.procs[i].visits == s.procs[i].visits + Passes(s.links, n, i))
    decreases n
  {
    hide *;
    InvBasics(s);
    if n == 0 {
      StageZero(s, alu);
      NoPasses(s.links);
    } else {
      QuietStage(s, n - 1, alu);
      StageStep(s, n, alu);
      var (t, cur) := Stage(s, n - 1, alu);
      VisitCounts(t, cur, alu(s.sweeps, n - 1));
      VisitLinks(t, cur, alu(s.sweeps, n - 1));
      OnePass(s.links, n);
    }
  }

  lemma NoPasses(links: seq<nat>)
    requires Closed(links)
    ensures Nth(links, 0) == 0 && forall x :: Passes(links, 0, x) == 0
  {
  }

  lemma OnePass(links: seq<nat>, n: nat)
    requires Closed(links) && n > 0
    ensures Nth(links, n - 1) < |links| && Nth(links, n) == links[Nth(links, n - 1)]
    ensures forall x :: Passes(links, n, x) == Passes(links, n - 1, x) + if Nth(links, n - 1) == x then 1 else 0
  {
  }

  lemma {:induction false} PassesOnce(links: seq<nat>, n: nat, x: nat)
    requires Closed(links) && n <= |Orbit(links)|
    ensures Passes(links, n, x) == if x in Orbit(links)[..n] then 1 else 0
    decreases n
  {
    hide Orbit;
    var path := Orbit(links);
    if n > 0 {
      PassesOnce(links, n - 1, x);
      NthPrefix(links, n - 1);
      OrbitDistinct(links);
      assert path[..n] == path[..n - 1] + [path[n - 1]];
    }
  }

  /** A sweep in which nothing forks visits exactly the first processes of the list, as many
      as there are champions, once each. */
  lemma QuietSweep(s: State, alu: Alu, i: nat)
    requires Inv(s) && i < |s.procs| && |Sweep(s, alu).procs| == |s.procs|
    ensures Linked(s)
    ensures s.count <= |Orbit(s.links)| ==>
              Sweep(s, alu).procs[i].visits == s.procs[i].visits + if i in Orbit(s.links)[..s.count] then 1 else 0
  {
    hide Inv, Stage, Passes, Orbit, Nth;
    InvBasics(s);
    ChargeKeepsInv(s, 1);
    QuietStage(Charge(s, 1), s.count, alu);
    if s.count <= |Orbit(s.links)| { PassesOnce(s.links, s.count, i); }
  }

  lemma {:induction false} QuietEntry(s: State, alu: Alu, n: nat)
    requires Inv(s) && Entry(s, alu, n).Some? && s.links == Ring(s.count) && |s.procs| == s.count
    ensures var t := Entry(s, alu, n).value;
            && s.count <= |t.procs|
            && (|t.procs| == s.count ==>
                  && t.links == s.links
                  && forall i | 0 <= i < s.count :: t.procs[i].visits == s.procs[i].visits + n)
    decreases n
  {
    hide *;
    InvBasics(s);
    if n == 0 {
      EntryZero(s, alu);
    } else {
      EntryStep(s, alu, n);
      QuietEntry(s, alu, n - 1);
      var p := Entry(s, alu, n - 1).value;
      SameCount(s, alu, n - 1);
      GameOnVisits(p);
      var g := GameOn(p).0;
      SweepCounts(g, alu);
      if |Entry(s, alu, n).value.procs| == s.count {
        RingSweep(g, alu);
      }
    }
  }

  lemma RingSweep(s: State, alu: Alu)
    requires Inv(s) && s.links == Ring(s.count) && |s.procs| == s.count == |Sweep(s, alu).procs|
    ensures var t := Sweep(s, alu);
            t.links == s.links && forall i | 0 <= i < s.count :: t.procs[i].visits == s.procs[i].visits + 1
  {
    hide Inv, Stage, Passes, Orbit, Nth, Ring;
    InvBasics(s);
    ChargeKeepsInv(s, 1);
    QuietStage(Charge(s, 1), s.count, alu);
    forall i | 0 <= i < s.count ensures Passes(s.links, s.count, i) == 1 { RingPasses(s.count, s.count, i); }
  }

  lemma RingPasses(count: nat, n: nat, i: nat)
    requires 1 <= count <= 4 && n <= count && i < count
    ensures Closed(Ring(count)) && Passes(Ring(count), n, i) == if i < n then 1 else 0
  {
    hide Passes, Orbit;
    RingOrbit(count);
    PassesOnce(Ring(count), n, i);
    var path: seq<nat> := seq(count, k => k);
    if i < n { assert path[..n][i] == i; }
  }

  /** Until the first fork every process is visited once in each sweep. */
  lemma VisitedOncePerSweep(s: State, alu: Alu, n: nat, j: nat, i: nat)
    requires Inv(s) && Entry(s, alu, n).Some? && s.links == Ring(s.count) && |s.procs| == s.count
    requires i < s.count && j <= s.count && |Midway(s, alu, n, j).0.procs| == s.count
    ensures Midway(s, alu, n, j).0.procs[i].visits == s.procs[i].visits + n + if i < j then 1 else 0
  {
    hide Inv, Entry, Stage, Passes, GameOn, Ring, Orbit;
    InvBasics(s);
    QuietEntry(s, alu, n);
    var t := Entry(s, alu, n).value;
    SameCount(s, alu, n);
    GameOnKeepsInv(t);
    GameOnVisits(t);
    ChargeKeepsInv(GameOn(t).0, 1);
    QuietStage(Charge(GameOn(t).0, 1), j, alu);
    RingPasses(s.count, j, i);
  }

  // ---------------------------------------------------------------- out of reach

  /** `x` is not among the first `m` nodes. */
  ghost predicate Absent(path: seq<nat>, x: nat, m: nat)
  {
    forall i | 0 <= i < |path| && i < m :: path[i] != x
  }

  lemma SameStep(links: seq<nat>, k: nat, r: nat, x: nat) returns (next: nat)
    requires Closed(links) && k < |Orbit(links)| && r >= 1 && Absent(Orbit(links), x, k + r)
    ensures next < |Orbit(links)| && Orbit(links)[next] == links[Orbit(links)[k]]
    ensures Absent(Orbit(links), x, next + r - 1)
  {
    hide Orbit;
    var path := Orbit(links);
    OrbitShape(links);
    if k + 1 < |path| {
      next := k + 1;
    } else {
      OrbitClosed(links, path[k]);
      next :| 0 <= next < |path| && path[next] == links[path[k]];
    }
  }

  lemma HeadStep(links: seq<nat>, k: nat, r: nat, x: nat) returns (next: nat)
    requires Closed(links) && x < |links| && k < |Orbit(links)| && r >= 1 && Absent(Orbit(links), x, k + r)
    ensures var after := Splice(links, 0);
            && Closed(after) && next < |Orbit(after)| && Orbit(after)[next] == after[Orbit(links)[k]]
            && Absent(Orbit(after), x, next + r - 1)
  {
    hide Orbit, Closed;
    var path, after, n := Orbit(links), Splice(links, 0), |links|;
    SpliceAtHead(links);
    OrbitShape(links);
    var path' := Orbit(after);
    assert forall i | 2 <= i < |path'| :: path'[i] == path[i - 1];
    if k == 0 {
      next := 1;
    } else {
      var q := SameStep(links, k, r, x);
      assert path[k] != path[0];
      next := if q == 0 then 0 else q + 1;
      assert k + 1 < |path| ==> q == k + 1 by { if k + 1 < |path| { SamePlace(path, q, k + 1); } }
    }
  }

  lemma SamePlace(path: seq<nat>, i: nat, j: nat)
    requires Distinct(path) && i < |path| && j < |path| && path[i] == path[j]
    ensures i == j
  {
  }

  lemma HeadKeeps(links: seq<nat>, m: nat, x: nat)
    requires Closed(links) && x < |links| && Absent(Orbit(links), x, m)
    ensures Closed(Splice(links, 0)) && Absent(Orbit(Splice(links, 0)), x, m)
    ensures x != 0 && m >= 1 ==> Absent(Orbit(Splice(links, 0)), x, m + 1)
  {
    hide Orbit, Closed;
    SpliceAtHead(links);
    var path, path' := Orbit(links), Orbit(Splice(links, 0));
    assert forall i | 2 <= i < |path'| :: path'[i] == path[i - 1];
  }

  lemma FurtherStep(links: seq<nat>, k: nat, r: nat, x: nat, m: nat)
    requires Closed(links) && x < |links| && 0 < k < |Orbit(links)| && r >= 1 && Absent(Orbit(links), x, k + r)
    ensures var after := Splice(links, Orbit(links)[k]);
            && Closed(after) && k + 1 < |Orbit(after)| && Orbit(after)[k + 1] == after[Orbit(links)[k]]
            && Absent(Orbit(after), x, m)
  {
    hide Orbit, Closed;
    SpliceFurther(links, k);
    OrbitShape(links);
  }

  /** Process `x` is on none of the first `m` places of the list. */
  ghost predicate Beyond(s: State, x: nat, m: nat)
    requires Linked(s)
  {
    x < |s.procs| && Absent(Orbit(s.links), x, m)
  }

  /** Too far back for a sweep to get there, or not on the list at all. */
  ghost predicate OutOfReach(s: State, x: nat)
    requires Linked(s)
  {
    Beyond(s, x, s.count)
  }

  lemma DroppedOutOfReach(s: State, x: nat)
    requires Linked(s) && Dropped(s, x)
    ensures OutOfReach(s, x)
  {
  }

  /** With `r` steps to go from place `k`, a process on none of the next `r` places is not
      met by the next step, and afterwards is on none of the `r - 1` places from there. */
  lemma VisitBeyond(s: State, k: nat, r: nat, flag: bool, x: nat, m: nat) returns (next: nat)
    requires Inv(s) && k < |Orbit(s.links)| && r >= 1
    requires Linked(s) && Beyond(s, x, k + r) && Beyond(s, x, m)
    ensures Orbit(s.links)[k] < |s.procs|
    ensures var p := Orbit(s.links)[k];
            var t := Visit(s, p, flag);
            && Linked(t) && next < |Orbit(t.links)| && Orbit(t.links)[next] == t.links[p]
            && Beyond(t, x, next + r - 1) && Beyond(t, x, m) && t.procs[x] == s.procs[x]
  {
    hide Inv, Visit, Orbit, Closed, SoloVisit, Splice, Performs;
    var p := Orbit(s.links)[k];
    assert p in Orbit(s.links);
    VisitKeepsInv(s, p, flag);
    var t := Visit(s, p, flag);
    InvBasics(t);
    VisitLinks(s, p, flag);
    VisitProcs(s, p, flag);
    HeadIsFirst(s.links);
    if |t.procs| == |s.procs| {
      next := SameStep(s.links, k, r, x);
    } else if Owner(s, p) == 0 {
      next := HeadStep(s.links, k, r, x);
      HeadKeeps(s.links, m, x);
    } else {
      FurtherStep(s.links, k, r, x, m);
      FurtherStep(s.links, k, r, x, k + r);
      next := k + 1;
    }
  }

  lemma HeadIsFirst(links: seq<nat>)
    requires Closed(links)
    ensures Orbit(links)[0] == 0
  {
  }

  lemma {:induction false} StageBeyond(s: State, n: nat, alu: Alu, x: nat) returns (k: nat)
    requires Inv(s) && n <= s.count && Linked(s) && OutOfReach(s, x)
    ensures var (t, cur) := Stage(s, n, alu);
            && Linked(t) && k < |Orbit(t.links)| && Orbit(t.links)[k] == cur
            && Beyond(t, x, k + (s.count - n)) && Beyond(t, x, s.count)
            && x < |s.procs| <= |t.procs| && t.procs[x] == s.procs[x]
    decreases n
  {
    hide *;
    OutOfReachIs(s, x);
    if n == 0 {
      StageZero(s, alu);
      HeadIsFirst(s.links);
      k := 0;
    } else {
      k := StageBeyond(s, n - 1, alu, x);
      StageStep(s, n, alu);
      var (t, cur) := Stage(s, n - 1, alu);
      var r := s.count - (n - 1);
      var flag := alu(s.sweeps, n - 1);
      VisitCounts(t, cur, flag);
      k := VisitBeyond(t, k, r, flag, x, s.count);
    }
  }

  lemma OutOfReachIs(s: State, x: nat)
    requires Linked(s)
    ensures OutOfReach(s, x) == Beyond(s, x, s.count)
    ensures Beyond(s, x, s.count) ==> x < |s.procs|
    ensures Closed(s.links) && |Orbit(s.links)| > 0
  {
  }

  lemma SweepBeyond(s: State, alu: Alu, x: nat)
    requires Inv(s) && Linked(s) && OutOfReach(s, x)
    ensures var t := Sweep(s, alu);
            Linked(t) && OutOfReach(t, x) && x < |s.procs| <= |t.procs| && t.procs[x] == s.procs[x]
  {
    hide Inv, Stage, Closed, Orbit, Absent;
    ChargeKeepsInv(s, 1);
    var k := StageBeyond(Charge(s, 1), s.count, alu, x);
    InvBasics(Sweep(s, alu));
    StageCountSame(Charge(s, 1), s.count, alu);
  }

  lemma StageCountSame(s: State, n: nat, alu: Alu)
    requires Inv(s)
    ensures Stage(s, n, alu).0.count == s.count
  {
  }

  lemma ReachByLinks(s: State, t: State, x: nat)
    requires Linked(s) && Linked(t) && t.links == s.links && t.count == s.count && |t.procs| == |s.procs|
    ensures OutOfReach(s, x) == OutOfReach(t, x)
  {
  }

  /** A process that is out of reach at the start of a sweep is never run again: in every
      later sweep it is still out of reach and exactly as it was. */
  lemma {:induction false} OutOfReachForever(s: State, alu: Alu, m: nat, n: nat, x: nat)
    requires Inv(s) && m <= n && Entry(s, alu, n).Some? && Entry(s, alu, m).Some?
    requires Linked(Entry(s, alu, m).value) && OutOfReach(Entry(s, alu, m).value, x)
    ensures var t, u := Entry(s, alu, m).value, Entry(s, alu, n).value;
            Linked(u) && OutOfReach(u, x) && x < |t.procs| <= |u.procs| && u.procs[x] == t.procs[x]
    decreases n
  {
    hide *;
    OutOfReachIs(Entry(s, alu, m).value, x);
    if m < n {
      EntryStep(s, alu, n);
      OutOfReachForever(s, alu, m, n - 1, x);
      var p := Entry(s, alu, n - 1).value;
      GameOnVisits(p);
      InvBasics(GameOn(p).0);
      ReachByLinks(p, GameOn(p).0, x);
      SweepBeyond(GameOn(p).0, alu, x);
    }
  }

  /** An executed fork of the head's player pushes every process but the head one place back. */
  lemma ForkPushesBack(s: State, p: nat, flag: bool, x: nat, m: nat)
    requires Inv(s) && p in Orbit(s.links) && Linked(s) && p < |s.procs| && Owner(s, p) == 0
    requires Performs(s, p).Some? && Performs(s, p).value.opcode in {OP_FORK, OP_LFORK}
    requires Beyond(s, x, m) && x != 0 && m >= 1
    ensures Linked(Visit(s, p, flag)) && Beyond(Visit(s, p, flag), x, m + 1)
  {
    hide Inv, Visit, Orbit, Closed, Splice, Performs, Absent;
    VisitKeepsInv(s, p, flag);
    InvBasics(Visit(s, p, flag));
    VisitLinks(s, p, flag);
    HeadKeeps(s.links, m, x);
  }

  lemma VisitKeepsBeyond(s: State, p: nat, flag: bool, x: nat, m: nat)
    requires Inv(s) && Linked(s) && p in Orbit(s.links) && Beyond(s, x, m)
    ensures p < |s.procs| && Linked(Visit(s, p, flag)) && Beyond(Visit(s, p, flag), x, m)
  {
    hide Inv, Visit, Orbit, Closed, Splice, Performs, Absent;
    VisitKeepsInv(s, p, flag);
    InvBasics(Visit(s, p, flag));
    VisitLinks(s, p, flag);
    HeadIsFirst(s.links);
    if |Visit(s, p, flag).procs| != |s.procs| {
      if Owner(s, p) == 0 { HeadKeeps(s.links, m, x); } else { FurtherKeeps(s.links, p, m, x); }
    }
  }

  lemma FurtherKeeps(links: seq<nat>, p: nat, m: nat, x: nat)
    requires Closed(links) && x < |links| && p in Orbit(links) && p != 0 && Absent(Orbit(links), x, m)
    ensures p < |links| && Closed(Splice(links, p)) && Absent(Orbit(Splice(links, p)), x, m)
  {
    hide Orbit, Closed;
    var k :| 0 <= k < |Orbit(links)| && Orbit(links)[k] == p;
    HeadIsFirst(links);
    SpliceFurther(links, k);
  }

  lemma {:induction false} StageKeepsBeyond(s: State, j: nat, n: nat, alu: Alu, x: nat, m: nat)
    requires Inv(s) && j <= n && Linked(Stage(s, j, alu).0) && Beyond(Stage(s, j, alu).0, x, m)
    ensures Linked(Stage(s, n, alu).0) && Beyond(Stage(s, n, alu).0, x, m)
    decreases n
  {
    hide *;
    if j < n {
      StageKeepsBeyond(s, j, n - 1, alu, x, m);
      StageStep(s, n, alu);
      var (t, cur) := Stage(s, n - 1, alu);
      VisitKeepsBeyond(t, cur, alu(s.sweeps, n - 1), x, m);
    }
  }

  lemma RingLast(s: State)
    requires Inv(s) && s.links == Ring(s.count) && |s.procs| == s.count >= 2
    ensures Linked(s) && 0 in Orbit(s.links) && Owner(s, 0) == 0 && Beyond(s, s.count - 1, s.count - 1)
  {
    hide Orbit;
    RingOrbit(s.count);
    HeadIsFirst(s.links);
  }

  /** So the first fork of a game, when the first champion makes it, puts the last champion's
      process out of reach: it will not be visited in any later sweep. */
  lemma FirstForkStarvesLast(s: State, alu: Alu, n: nat)
    requires Inv(s) && s.links == Ring(s.count) && |s.procs| == s.count >= 2
    requires Entry(s, alu, n).Some? && Entry(s, alu, n + 1).Some?
    requires var t := Midway(s, alu, n, 0).0;
             && |t.procs| == s.count && Owner(t, 0) < |t.champs| && Performs(t, 0).Some?
             && Performs(t, 0).value.opcode in {OP_FORK, OP_LFORK}
    ensures Linked(Entry(s, alu, n + 1).value) && OutOfReach(Entry(s, alu, n + 1).value, s.count - 1)
  {
    hide Inv, Entry, GameOn, Stage, Visit, Performs, Orbit, Ring, Closed, Absent;
    var p, x := Entry(s, alu, n).value, s.count - 1;
    EntryStep(s, alu, n + 1);
    SameCount(s, alu, n);
    SameCount(s, alu, n + 1);
    QuietEntry(s, alu, n);
    GameOnVisits(p);
    var u := Charge(GameOn(p).0, 1);
    ChargeKeepsInv(GameOn(p).0, 1);
    StageZero(u, alu);
    assert Midway(s, alu, n, 0) == Stage(u, 0, alu) == (u, 0);
    RingLast(u);
    StageStep(u, 1, alu);
    ForkPushesBack(u, 0, alu(u.sweeps, 0), x, x);
    StageKeepsBeyond(u, 1, s.count, alu, x, s.count);
    SweepReach(GameOn(p).0, alu, x);
  }

  lemma SweepReach(s: State, alu: Alu, x: nat)
    requires Inv(s) && Inv(Charge(s, 1)) && Linked(Stage(Charge(s, 1), s.count, alu).0)
    requires Beyond(Stage(Charge(s, 1), s.count, alu).0, x, s.count)
    ensures Linked(Sweep(s, alu)) && OutOfReach(Sweep(s, alu), x)
  {
    hide Inv, Stage, Orbit, Absent;
    StageCountSame(Charge(s, 1), s.count, alu);
  }
}
