/** What forks do to processes over a whole run. */
module Forks {
  import opened OpTable
  import opened Wrappers
  import opened Decoder
  import opened Links
  import opened Machine
  import opened Game
  import opened Independence

  /** Process `x` is no longer met from the head. */
  ghost predicate Dropped(s: State, x: nat)
    requires Linked(s)
  {
    x < |s.procs| && x !in Orbit(s.links)
  }

  lemma AttachKeepsDropped(s: State, p: nat, index: int, counter: int, x: nat)
    requires Inv(s) && p in Orbit(s.links) && Dropped(s, x)
    ensures p < |s.procs|
    ensures var t := Attach(s, s.procs[p].player, index, counter); Linked(t) && Dropped(t, x)
  {
    AttachShape(s, p, index, counter);
    var path, t := Orbit(s.links), Attach(s, s.procs[p].player, index, counter);
    if Owner(s, p) == 0 {
      assert Orbit(t.links) == [0, |s.procs|] + path[1..];
      assert path[0] in path;
      forall y | y in path[1..] ensures y in path {}
    } else {
      var k :| 0 < k < |path| && path[k] == p && Orbit(t.links) == path[..k + 1] + [|s.procs|];
      forall y | y in path[..k + 1] ensures y in path {}
    }
  }

  /** Process `x` comes after process `p` on the list. */
  ghost predicate Behind(s: State, p: nat, x: nat)
    requires Linked(s)
  {
    Later(Orbit(s.links), p, x)
  }

  /** `x` follows `p` on the path. */
  ghost predicate Later(path: seq<nat>, p: nat, x: nat)
  {
    exists k, m :: 0 <= k < m < |path| && path[k] == p && path[m] == x
  }

  /** A fork by a process of the head's player drops nobody; a fork by any other process drops
      exactly the processes behind it. */
  lemma AttachDrops(s: State, p: nat, index: int, counter: int, x: nat)
    requires Inv(s) && p in Orbit(s.links) && x in Orbit(s.links)
    ensures p < |s.procs| && x < |s.procs|
    ensures var t := Attach(s, s.procs[p].player, index, counter);
            Linked(t) && (Dropped(t, x) <==> Owner(s, p) != 0 && Behind(s, p, x))
  {
    hide Inv, Attach, Orbit, Closing, Closed, Later, Distinct, Linked;
    InvBasics(s);
    AttachShape(s, p, index, counter);
    ReachableIsProc(s, x);
    OrbitDistinct(s.links);
    OrbitShape(s.links);
    AttachLinked(s, p, index, counter);
    var path, t := Orbit(s.links), Attach(s, s.procs[p].player, index, counter);
    var m :| 0 <= m < |path| && path[m] == x;
    if Owner(s, p) == 0 {
      assert ([0, |s.procs|] + path[1..])[if m == 0 then 0 else m + 1] == x;
    } else {
      var k :| 0 < k < |path| && path[k] == p && Orbit(t.links) == path[..k + 1] + [|s.procs|];
      PrefixMembers(path, k, |s.procs|, m);
    }
  }

  lemma AttachLinked(s: State, p: nat, index: int, counter: int)
    requires Linked(s) && p < |s.procs|
    requires Closed(Attach(s, s.procs[p].player, index, counter).links)
    ensures Linked(Attach(s, s.procs[p].player, index, counter))
    ensures |Attach(s, s.procs[p].player, index, counter).procs| == |s.procs| + 1
  {
  }

  lemma PrefixMembers(path: seq<nat>, k: nat, n: nat, m: nat)
    requires k < |path| && m < |path| && Distinct(path) && path[m] != n
    ensures path[m] in path[..k + 1] + [n] <==> m <= k
    ensures Later(path, path[k], path[m]) <==> k < m
  {
    if m <= k {
      assert (path[..k + 1] + [n])[m] == path[m];
    }
    LaterIs(path, path[k], path[m], k, m);
  }

  lemma LaterIs(path: seq<nat>, p: nat, x: nat, k: nat, m: nat)
    requires k < |path| && m < |path| && Distinct(path) && path[k] == p && path[m] == x
    ensures Later(path, p, x) <==> k < m
  {
    if Later(path, p, x) {
      var i, j :| 0 <= i < j < |path| && path[i] == p && path[j] == x;
      SameIndex(path, i, k);
      SameIndex(path, j, m);
    }
  }

  lemma SameIndex(path: seq<nat>, i: nat, k: nat)
    requires i < |path| && k < |path| && Distinct(path) && path[i] == path[k]
    ensures i == k
  {
  }

  lemma EffectKeepsDropped(s: State, p: nat, op: int, v: int, flag: bool, x: nat)
    requires Inv(s) && p in Orbit(s.links) && Dropped(s, x)
    ensures Owner(s, p) < |s.champs|
    ensures var t := Effect(s, Owner(s, p), op, v, flag); Linked(t) && Dropped(t, x)
  {
    hide Orbit, Attach, Inv;
    InvBasics(s);
    RunnerOwns(s, p);
    var c := Owner(s, p);
    if op == OP_FORK {
      AttachKeepsDropped(s, p, (s.champs[c].counter + v) % IDX_MOD, s.procs[0].counter, x);
    } else if op == OP_LFORK {
      AttachKeepsDropped(s, p, s.champs[c].counter + v, s.champs[c].counter + v, x);
    }
  }

  lemma RunnerOwns(s: State, p: nat)
    requires Inv(s) && p in Orbit(s.links)
    ensures p < |s.procs| && Owner(s, p) < |s.champs| && s.procs[p].player == s.champs[Owner(s, p)].id
  {
    OrbitShape(s.links);
    assert ProcOk(s, p);
  }

  lemma VisitKeepsDropped(s: State, p: nat, flag: bool, x: nat)
    requires Inv(s) && p in Orbit(s.links) && Dropped(s, x)
    ensures p < |s.procs|
    ensures var t := Visit(s, p, flag); Linked(t) && Dropped(t, x) && t.procs[x] == s.procs[x]
  {
    hide Inv, Effect, Decode, FindChampion, Closed, Orbit, SoloVisit;
    InvBasics(s);
    RunnerOwns(s, p);
    FindsOwner(s, p);
    VisitProcs(s, p, flag);
    ChargeKeepsInv(s, 10);
    var q := s.procs[p];
    var at := q.index + Wrap(q.counter, s.champs[Owner(s, p)].size);
    if IsOpcode(Cell(s.mem, at)) {
      var d := Decode(s.mem, at);
      ChargeKeepsInv(s, Cost(d.opcode));
      EffectKeepsDropped(Charge(s, Cost(d.opcode)), p, d.opcode, d.operands[0].Or(0), flag, x);
    }
  }

  lemma {:induction false} StageKeepsDropped(s: State, n: nat, alu: Alu, x: nat)
    requires Inv(s) && Linked(s) && Dropped(s, x)
    ensures var t := Stage(s, n, alu).0;
            Linked(t) && x < |s.procs| <= |t.procs| && Dropped(t, x) && t.procs[x] == s.procs[x]
    decreases n
  {
    hide *;
    IsProc(s, x);
    if n == 0 {
      StageZero(s, alu);
    } else {
      StageKeepsDropped(s, n - 1, alu, x);
      StageStep(s, n, alu);
      var (t, cur) := Stage(s, n - 1, alu);
      VisitKeepsDropped(t, cur, alu(s.sweeps, n - 1), x);
      VisitProcs(t, cur, alu(s.sweeps, n - 1));
    }
  }

  lemma IsProc(s: State, x: nat)
    requires Linked(s) && Dropped(s, x)
    ensures x < |s.procs|
  {
  }

  lemma SweepKeepsDropped(s: State, alu: Alu, x: nat)
    requires Inv(s) && Linked(s) && Dropped(s, x)
    ensures var t := Sweep(s, alu);
            Linked(t) && x < |s.procs| <= |t.procs| && Dropped(t, x) && t.procs[x] == s.procs[x]
  {
    hide Inv, Stage, Closed, Orbit;
    ChargeKeepsInv(s, 1);
    StageKeepsDropped(Charge(s, 1), s.count, alu, x);
  }

  lemma GameOnKeepsDropped(s: State, x: nat)
    requires Inv(s) && Linked(s) && Dropped(s, x)
    ensures 0 < s.count <= |s.champs|
    ensures var t := GameOn(s).0; Linked(t) && Dropped(t, x) && |t.procs| == |s.procs| && t.procs[x] == s.procs[x]
  {
    hide Closed, Orbit;
  }

  /** A process a fork has dropped is never run again: in every later state it is still
      unreachable and exactly as it was. */
  lemma {:induction false} DroppedForever(s: State, alu: Alu, m: nat, n: nat, x: nat)
    requires Inv(s) && m <= n && Entry(s, alu, n).Some? && Entry(s, alu, m).Some?
    requires Linked(Entry(s, alu, m).value) && Dropped(Entry(s, alu, m).value, x)
    ensures var t, u := Entry(s, alu, m).value, Entry(s, alu, n).value;
            Linked(u) && Dropped(u, x) && x < |t.procs| <= |u.procs| && u.procs[x] == t.procs[x]
    decreases n
  {
    hide *;
    IsProc(Entry(s, alu, m).value, x);
    if m < n {
      EntryStep(s, alu, n);
      DroppedForever(s, alu, m, n - 1, x);
      var p := Entry(s, alu, n - 1).value;
      GameOnKeepsDropped(p, x);
      SweepKeepsDropped(GameOn(p).0, alu, x);
    }
  }

  // ---------------------------------------------------------------- one visit, as a whole

  /** The instruction a visit to process `p` executes, if any. */
  function Performs(s: State, p: nat): Option<Decoded>
    requires p < |s.procs| && Owner(s, p) < |s.champs|
  {
    var q := s.procs[p];
    var at := q.index + Wrap(q.counter, s.champs[Owner(s, p)].size);
    if q.cycles <= 0 && IsOpcode(Cell(s.mem, at)) then Some(Decode(s.mem, at)) else None
  }

  /** The process is not waiting, and the byte it points at is zero. */
  predicate SkipsZero(s: State, p: nat)
    requires p < |s.procs| && Owner(s, p) < |s.champs|
  {
    var q := s.procs[p];
    q.cycles <= 0 && Cell(s.mem, q.index + Wrap(q.counter, s.champs[Owner(s, p)].size)) == 0
  }

  lemma EffectOnChampion(s: State, c: nat, op: int, v: int, flag: bool, i: nat)
    requires Linked(s) && |s.champs| == 4 && c < s.count <= 4 && DistinctIds(s.champs, s.count) && i < 4
    ensures var t, a := Effect(s, c, op, v, flag), s.champs[i];
            && |t.champs| == 4
            && t.champs[i] ==
                 (if i != c then a
                  else a.(counter := if op == OP_ZJMP && a.carry then (a.counter + v) % IDX_MOD else a.counter,
                          carry := if WritesCarry(op) then flag else a.carry,
                          lives := if op == OP_LIVE then a.lives + 1 else a.lives))
            && t.lives == (if op == OP_LIVE then s.lives + 1 else s.lives)
            && t.winner == (if op == OP_LIVE then s.champs[c].id else s.winner)
  {
  }

  /** What a visit does to champions and scalars: only the owner of an executing process is
      touched, its counter only by a jump with the carry set, its carry only by arithmetic,
      its lives only by `live`, which also makes it the winner so far; the cycles grow by the
      cost, or by ten when the process is not waiting and points at a zero. */
  lemma VisitOnChampions(s: State, p: nat, flag: bool, i: nat)
    requires Inv(s) && p < |s.procs| && i < 4
    ensures |s.champs| == 4 && Owner(s, p) < 4
    ensures var t, d, a := Visit(s, p, flag), Performs(s, p), s.champs[i];
            && |t.champs| == 4
            && (d == None || i != Owner(s, p) ==> t.champs[i] == a)
            && (d.Some? && i == Owner(s, p) ==>
                  var op, v := d.value.opcode, d.value.operands[0].Or(0);
                  t.champs[i] == a.(counter := if op == OP_ZJMP && a.carry then (a.counter + v) % 512
                                               else a.counter,
                                    carry := if op in {4, 5, 6, 7, 8, 10, 11, 13, 14} then flag else a.carry,
                                    lives := if op == OP_LIVE then a.lives + 1 else a.lives))
            && t.lives == s.lives + (if d.Some? && d.value.opcode == OP_LIVE then 1 else 0)
            && t.winner == (if d.Some? && d.value.opcode == OP_LIVE then s.champs[Owner(s, p)].id else s.winner)
            && t.cycles == s.cycles + if d.Some? then Cost(d.value.opcode) else if SkipsZero(s, p) then 10 else 0
  {
    hide Inv, Effect, Decode, Closed, Machine.FindChampion;
    InvBasics(s);
    FindsOwner(s, p);
    var d := Performs(s, p);
    if d.Some? {
      var u := Charge(s, Cost(d.value.opcode));
      EffectOnChampion(u, Owner(s, p), d.value.opcode, d.value.operands[0].Or(0), flag, i);
      EffectFrame(u, Owner(s, p), d.value.opcode, d.value.operands[0].Or(0), flag);
    }
  }

  lemma EffectClones(s: State, c: nat, op: int, v: int, flag: bool)
    requires Linked(s) && c < |s.champs|
    ensures var t, n := Effect(s, c, op, v, flag), |s.procs|;
            && (op != OP_FORK && op != OP_LFORK ==> t.procs == s.procs && t.links == s.links)
            && (op == OP_FORK ==>
                  t.procs == s.procs + [Newborn(s, s.procs[0].counter, (s.champs[c].counter + v) % IDX_MOD)])
            && (op == OP_LFORK ==> t.procs == s.procs + [Newborn(s, s.champs[c].counter + v, s.champs[c].counter + v)])
  {
  }

  /** A process of the head's player that has not run yet. */
  function Newborn(s: State, counter: int, index: int): Proc
    requires |s.procs| > 0
  {
    Proc(counter, s.procs[0].player, index, 0, counter, 0, [])
  }

  /** Processes are born exactly when a fork is executed, one at a time, all of them for the
      head's player: after `fork` at the champion's counter plus the operand modulo 512, with
      the head's counter; after `lfork` without the modulus, and with the index as counter. */
  lemma VisitClones(s: State, p: nat, flag: bool)
    requires Inv(s) && p < |s.procs|
    ensures |s.champs| == 4 && Owner(s, p) < 4
    ensures var t, d, n, c := Visit(s, p, flag), Performs(s, p), |s.procs|, s.champs[Owner(s, p)];
            && (|t.procs| == n + 1 <==> d.Some? && d.value.opcode in {OP_FORK, OP_LFORK})
            && (|t.procs| != n + 1 ==> |t.procs| == n && t.links == s.links)
            && (d.Some? && d.value.opcode == OP_FORK ==>
                  t.procs[n] == Newborn(s, s.procs[0].counter, (c.counter + d.value.operands[0].Or(0)) % 512))
            && (d.Some? && d.value.opcode == OP_LFORK ==>
                  var address := c.counter + d.value.operands[0].Or(0);
                  t.procs[n] == Newborn(s, address, address))
  {
    hide Inv, Effect, Decode, Closed, Machine.FindChampion;
    InvBasics(s);
    FindsOwner(s, p);
    var d := Performs(s, p);
    if d.Some? {
      EffectClones(Charge(s, Cost(d.value.opcode)), Owner(s, p), d.value.opcode, d.value.operands[0].Or(0), flag);
    }
  }

  lemma EffectDrops(s: State, p: nat, op: int, v: int, flag: bool, x: nat)
    requires Inv(s) && p in Orbit(s.links) && x in Orbit(s.links)
    ensures Owner(s, p) < |s.champs| && x < |s.procs|
    ensures var t := Effect(s, Owner(s, p), op, v, flag);
            Linked(t) && (Dropped(t, x) <==> op in {OP_FORK, OP_LFORK} && Owner(s, p) != 0 && Behind(s, p, x))
  {
    hide Orbit, Attach, Inv, Behind, Closed;
    InvBasics(s);
    RunnerOwns(s, p);
    ReachableIsProc(s, x);
    var c := Owner(s, p);
    if op == OP_FORK {
      AttachDrops(s, p, (s.champs[c].counter + v) % IDX_MOD, s.procs[0].counter, x);
    } else if op == OP_LFORK {
      AttachDrops(s, p, s.champs[c].counter + v, s.champs[c].counter + v, x);
    }
  }

  lemma DroppedByLinks(s: State, t: State, x: nat)
    requires Linked(s) && Linked(t) && t.links == s.links
    ensures Dropped(s, x) == Dropped(t, x)
  {
  }

  /** The executed fork: when a process of another player than the head's executes `fork` or
      `lfork`, exactly the processes behind it are dropped, and with `DroppedForever` for
      good; a fork of the head's player, and any other instruction, drops nobody. */
  lemma VisitDrops(s: State, p: nat, flag: bool, x: nat)
    requires Inv(s) && p in Orbit(s.links) && x in Orbit(s.links)
    ensures p < |s.procs| && Owner(s, p) < |s.champs| && Linked(s) && Linked(Visit(s, p, flag))
    ensures Dropped(Visit(s, p, flag), x) <==>
              && Performs(s, p).Some? && Performs(s, p).value.opcode in {OP_FORK, OP_LFORK}
              && Owner(s, p) != 0 && Behind(s, p, x)
  {
    hide Inv, Decode, Closed, Orbit, Effect, Machine.FindChampion, Behind, Dropped, Linked;
    InvBasics(s);
    RunnerOwns(s, p);
    FindsOwner(s, p);
    VisitKeepsInv(s, p, flag);
    var t := Visit(s, p, flag);
    InvBasics(t);
    NotDropped(s, x);
    var d := Performs(s, p);
    if d.Some? {
      var u := Charge(s, Cost(d.value.opcode));
      ChargeKeepsInv(s, Cost(d.value.opcode));
      InvBasics(u);
      BehindSame(s, u, p, x);
      EffectDrops(u, p, d.value.opcode, d.value.operands[0].Or(0), flag, x);
      DroppedByLinks(Effect(u, Owner(u, p), d.value.opcode, d.value.operands[0].Or(0), flag), t, x);
    } else {
      DroppedByLinks(s, t, x);
    }
  }

  lemma NotDropped(s: State, x: nat)
    requires Linked(s) && x in Orbit(s.links)
    ensures !Dropped(s, x)
  {
  }

  lemma ReachableIsProc(s: State, x: nat)
    requires Linked(s) && x in Orbit(s.links)
    ensures x < |s.procs|
  {
  }

  lemma BehindSame(s: State, t: State, p: nat, x: nat)
    requires Linked(s) && Linked(t) && t.links == s.links
    ensures Behind(s, p, x) == Behind(t, p, x)
  {
  }
}
