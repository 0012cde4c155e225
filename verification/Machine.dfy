/** The virtual machine as a state machine: one visit to a process, one sweep of the
    scheduler, the life check and a whole game. */
module Machine {
  import opened Bytes
  import opened OpTable
  import opened Decoder
  import opened Links

  datatype Champ = Champ(id: int, size: nat, counter: int, carry: bool, lives: int, dead: bool)

  /** `birth`, `visits` and `log` record the process's history: its first counter, how often
      the scheduler came by, and the instructions it executed. */
  datatype Proc = Proc(counter: int, player: int, index: int, cycles: int,
                       birth: int, visits: nat, log: seq<Decoded>)

  datatype State = State(mem: seq<byte>, champs: seq<Champ>, count: nat,
                         procs: seq<Proc>, links: seq<nat>,
                         cycles: int, cycleToDie: int, lives: int, winner: int, sweeps: nat)

  /** The carry an arithmetic instruction leaves depends on registers, which are not part of
      this model: it may be anything, for each sweep and each step of it. */
  type Alu = (nat, nat) -> bool

  // ---------------------------------------------------------------- invariant

  /** The champion slot a process belongs to: clones belong to the head's. */
  function Owner(s: State, p: nat): nat
  {
    if p < s.count then p else 0
  }

  function Segment(count: nat): int
    requires count > 0
  {
    MEM_SIZE / count
  }

  ghost predicate DistinctIds(champs: seq<Champ>, count: nat)
    requires |champs| == 4
  {
    forall i, j | 0 <= i < count && i < j < 4 :: champs[i].id != champs[j].id
  }

  /** One process: it belongs to its owner, and its code segment with the thirteen cells
      an instruction may extend past its first byte lies in memory. */
  ghost predicate ProcOk(s: State, p: nat)
    requires |s.champs| == 4 && s.count <= 4 && p < |s.procs|
  {
    var q, c := s.procs[p], s.champs[Owner(s, p)];
    && q.player == c.id
    && 0 <= q.counter && 0 <= q.index && q.index + c.size + 13 <= MEM_SIZE
    && (p >= s.count ==> q.index < IDX_MOD + 1020)
  }

  ghost predicate ChampOk(c: Champ)
  {
    c.size > 0 && 0 <= c.counter < IDX_MOD && 0 <= c.lives
  }

  /** There are champions, and every process has a successor. */
  ghost predicate Linked(s: State)
  {
    |s.champs| > 0 && |s.links| == |s.procs| && Closed(s.links)
  }

  /** What every reachable state satisfies. */
  ghost predicate Inv(s: State)
  {
    && |s.mem| == MEM_SIZE
    && |s.champs| == 4 && 1 <= s.count <= 4
    && DistinctIds(s.champs, s.count)
    && (forall i | 0 <= i < s.count :: ChampOk(s.champs[i]))
    && s.champs[0].size + IDX_MOD + 1020 + 13 <= MEM_SIZE + 1
    && Linked(s) && |s.procs| >= s.count
    && (forall p | 0 <= p < |s.procs| :: ProcOk(s, p))
  }

  lemma InvBasics(s: State)
    requires Inv(s)
    ensures |s.champs| == 4 && 1 <= s.count <= 4 && Linked(s) && s.count <= |s.procs| == |s.links|
    ensures DistinctIds(s.champs, s.count)
  {
  }

  // ---------------------------------------------------------------- lookups

  /** `find_champion`: the first slot with the identifier, slot 0 when there is none. */
  function FindChampion(champs: seq<Champ>, id: int): (r: nat)
    ensures champs != [] ==> r < |champs|
  {
    FindFrom(champs, id, 0)
  }

  function FindFrom(champs: seq<Champ>, id: int, i: nat): (r: nat)
    ensures champs != [] ==> r < |champs|
    decreases |champs| - i
  {
    if i >= |champs| then 0
    else if champs[i].id == id then i
    else FindFrom(champs, id, i + 1)
  }

  lemma {:induction false} FindFromFinds(champs: seq<Champ>, count: nat, k: nat, i: nat)
    requires |champs| == 4 && k < count <= 4 && DistinctIds(champs, count) && i <= k
    ensures FindFrom(champs, champs[k].id, i) == k
    decreases k - i
  {
    if i < k { FindFromFinds(champs, count, k, i + 1); }
  }

  lemma {:induction false} FindFromIs(champs: seq<Champ>, id: int, i: nat)
    ensures var r := FindFrom(champs, id, i);
            if exists k :: i <= k < |champs| && champs[k].id == id then
              i <= r < |champs| && champs[r].id == id && forall k | i <= k < r :: champs[k].id != id
            else r == 0
    decreases |champs| - i
  {
    if i < |champs| && champs[i].id != id { FindFromIs(champs, id, i + 1); }
  }

  /** `find_champion` finds the first slot with the identifier, and slot 0 when there is none. */
  lemma FindChampionIs(champs: seq<Champ>, id: int)
    ensures var r := FindChampion(champs, id);
            if exists k :: 0 <= k < |champs| && champs[k].id == id then
              r < |champs| && champs[r].id == id && forall k | 0 <= k < r :: champs[k].id != id
            else r == 0
  {
    FindFromIs(champs, id, 0);
  }

  /** The champion found for a process is its owner. */
  lemma FindsOwner(s: State, p: nat)
    requires Inv(s) && p < |s.procs|
    ensures FindChampion(s.champs, s.procs[p].player) == Owner(s, p)
  {
    assert ProcOk(s, p);
    FindFromFinds(s.champs, s.count, Owner(s, p), 0);
  }

  /** `find_process` on the nodes it meets: the first that belongs to the player, else the
      head, where the walk of a ring ends. */
  function FindIn(procs: seq<Proc>, path: seq<nat>, player: int): (r: nat)
    requires forall i | 0 <= i < |path| :: path[i] < |procs|
    ensures r == 0 || r in path
  {
    if path == [] then 0
    else if procs[path[0]].player == player then path[0]
    else FindIn(procs, path[1..], player)
  }

  ghost function FindProcess(s: State, player: int): (r: nat)
    requires Linked(s)
    ensures r < |s.procs|
  {
    FindIn(s.procs, Orbit(s.links), player)
  }

  lemma {:induction false} FindInFirst(procs: seq<Proc>, path: seq<nat>, player: int, k: nat)
    requires k < |path| && forall i | 0 <= i < |path| :: path[i] < |procs|
    requires procs[path[k]].player == player
    requires forall i | 0 <= i < k :: procs[path[i]].player != player
    ensures FindIn(procs, path, player) == path[k]
  {
    if k > 0 { FindInFirst(procs, path[1..], player, k - 1); }
  }

  lemma {:induction false} FindInNone(procs: seq<Proc>, path: seq<nat>, player: int)
    requires forall i | 0 <= i < |path| :: path[i] < |procs| && procs[path[i]].player != player
    ensures FindIn(procs, path, player) == 0
  {
    if path != [] { FindInNone(procs, path[1..], player); }
  }

  /** The walk of `find_process` stops at some point: at the player, or back at the head. */
  ghost predicate SearchEnds(s: State, player: int)
    requires Linked(s)
  {
    exists k: nat :: s.procs[Nth(s.links, k)].player == player || (k > 0 && Nth(s.links, k) == 0)
  }

  /** The search ends exactly when the player owns a reachable process or the list is a ring;
      on a lasso without the player it goes round for ever. */
  lemma SearchEndsWhen(s: State, player: int)
    requires Linked(s)
    ensures SearchEnds(s, player) <==>
            (exists x :: x in Orbit(s.links) && s.procs[x].player == player) || Closing(s.links) == 0
  {
    hide Closed;
    var path := Orbit(s.links);
    if SearchEnds(s, player) {
      var k: nat :| s.procs[Nth(s.links, k)].player == player || (k > 0 && Nth(s.links, k) == 0);
      NthOnOrbit(s.links, k);
    }
    if exists x :: x in path && s.procs[x].player == player {
      var x :| x in path && s.procs[x].player == player;
      var i :| 0 <= i < |path| && path[i] == x;
      NthOnOrbit(s.links, i);
      assert s.procs[Nth(s.links, i)].player == player;
    }
    if Closing(s.links) == 0 { NthOnOrbit(s.links, |path|); }
  }

  /** A running process's own search finds the head when it belongs to the head's player,
      and otherwise finds that very process: no other player owns two. */
  lemma FindsSelf(s: State, p: nat)
    requires Inv(s) && p in Orbit(s.links)
    ensures p < |s.procs|
    ensures FindProcess(s, s.procs[p].player) == if Owner(s, p) == 0 then 0 else p
  {
    var path := Orbit(s.links);
    OrbitShape(s.links);
    var k :| 0 <= k < |path| && path[k] == p;
    forall i | 0 <= i < |path| ensures ProcOk(s, path[i]) {}
    if Owner(s, p) == 0 {
      FindInFirst(s.procs, path, s.procs[p].player, 0);
    } else {
      FindInFirst(s.procs, path, s.procs[p].player, k);
    }
  }

  // ---------------------------------------------------------------- instructions

  /** `update_champion_lives`. */
  function AddLife(champs: seq<Champ>, id: int): (r: seq<Champ>)
    ensures |r| == |champs|
    ensures forall i | 0 <= i < |champs| ::
        r[i] == if champs[i].id == id then champs[i].(lives := champs[i].lives + 1) else champs[i]
  {
    seq(|champs|, i requires 0 <= i < |champs| =>
      if champs[i].id == id then champs[i].(lives := champs[i].lives + 1) else champs[i])
  }

  /** `inst_live`. */
  function Live(s: State, c: nat): State
    requires c < |s.champs|
  {
    s.(lives := s.lives + 1, winner := s.champs[c].id, champs := AddLife(s.champs, s.champs[c].id))
  }

  /** `inst_zjmp`: it moves the champion's counter, not the process's. */
  function Zjmp(s: State, c: nat, offset: int): State
    requires c < |s.champs|
  {
    if s.champs[c].carry then
      s.(champs := s.champs[c := s.champs[c].(counter := (s.champs[c].counter + offset) % IDX_MOD)])
    else s
  }

  /** A clone of the head process, linked in after the first process of the player. */
  ghost function Attach(s: State, player: int, index: int, counter: int): State
    requires Linked(s)
  {
    s.(procs := s.procs + [Proc(counter, s.procs[0].player, index, 0, counter, 0, [])],
       links := Splice(s.links, FindProcess(s, player)))
  }

  /** `inst_fork`. */
  ghost function Fork(s: State, c: nat, offset: int): State
    requires Linked(s) && c < |s.champs|
  {
    Attach(s, s.champs[c].id, (s.champs[c].counter + offset) % IDX_MOD, s.procs[0].counter)
  }

  /** `inst_lfork`. */
  ghost function Lfork(s: State, c: nat, offset: int): State
    requires Linked(s) && c < |s.champs|
  {
    var address := s.champs[c].counter + offset;
    Attach(s, s.champs[c].id, address, address)
  }

  predicate WritesCarry(op: int)
  {
    op in {4, 5, 6, 7, 8, 10, 11, 13, 14}
  }

  /** The function the operation table points to, on champion slot `c` and its first
      operand `v`. */
  ghost function Effect(s: State, c: nat, op: int, v: int, flag: bool): State
    requires Linked(s) && c < |s.champs|
  {
    if op == OP_LIVE then Live(s, c)
    else if op == OP_ZJMP then Zjmp(s, c, v)
    else if op == OP_FORK then Fork(s, c, v)
    else if op == OP_LFORK then Lfork(s, c, v)
    else if WritesCarry(op) then s.(champs := s.champs[c := s.champs[c].(carry := flag)])
    else s
  }

  function Charge(s: State, n: nat): State
  {
    s.(cycles := s.cycles + n)
  }

  /** `execute_instruction`. Every operation but the arithmetic ones has a single operand,
      which is always assigned. */
  ghost function Execute(s: State, c: nat, d: Decoded, flag: bool): State
    requires Linked(s) && c < |s.champs|
    requires IsOpcode(d.opcode) && |d.operands| == Arity(d.opcode)
  {
    Effect(Charge(s, Cost(d.opcode)), c, d.opcode, d.operands[0].Or(0), flag)
  }

  // ---------------------------------------------------------------- the scheduler

  /** The offset of a counter in its champion's code, which is never empty. */
  function Wrap(counter: int, size: nat): int
  {
    if counter >= size > 0 then counter % size else counter
  }

  /** A champion's code is a ring: what lies behind its end is counted from its start. */
  lemma WrapIs(counter: nat, size: nat, k: nat)
    requires 0 < size
    ensures 0 <= Wrap(counter, size) < size && (counter - Wrap(counter, size)) % size == 0
    ensures k < size ==> Wrap(k, size) == k && Wrap(size + k, size) == k
    ensures Wrap(Wrap(counter, size), size) == Wrap(counter, size)
  {
    var q := counter / size;
    if counter >= size { ModUnique(counter - counter % size, size, q, 0); } else { ModUnique(0, size, 0, 0); }
    if k < size { ModUnique(size + k, size, 1, k); }
  }

  function SetProc(s: State, p: nat, counter: int, cycles: int, log: seq<Decoded>): State
    requires p < |s.procs|
  {
    var q := s.procs[p];
    s.(procs := s.procs[p := q.(counter := counter, cycles := cycles, visits := q.visits + 1, log := log)])
  }

  /** The instruction at offset `at` of process `p` is decoded, executed and paid for. */
  ghost function Perform(s: State, p: nat, c: nat, at: int, flag: bool): (r: State)
    requires Linked(s) && c < |s.champs| && p < |s.procs|
    requires IsOpcode(Cell(s.mem, s.procs[p].index + at))
    ensures |r.links| == |r.procs| >= |s.procs|
  {
    var q := s.procs[p];
    var d := Decode(s.mem, q.index + at);
    SetProc(Execute(s, c, d, flag), p, d.next - q.index, Cost(d.opcode) - 1, q.log + [d])
  }

  /** One iteration of the loop in `run_instructions`, with `run_instruction` inlined. */
  ghost function Visit(s: State, p: nat, flag: bool): (r: State)
    requires Linked(s) && p < |s.procs|
    ensures |r.links| == |r.procs| >= |s.procs|
  {
    var q := s.procs[p];
    var c := FindChampion(s.champs, q.player);
    var at := Wrap(q.counter, s.champs[c].size);
    var op := Cell(s.mem, q.index + at);
    if q.cycles > 0 || op > 16 then SetProc(s, p, at, q.cycles - 1, q.log)
    else if op == 0 then SetProc(Charge(s, 10), p, at, q.cycles - 1, q.log)
    else Perform(s, p, c, at, flag)
  }

  // ---------------------------------------------------------------- what a visit keeps

  lemma AttachKeepsInv(s: State, p: nat, index: int, counter: int)
    requires Inv(s) && p in Orbit(s.links)
    requires 0 <= index < IDX_MOD + 1020 && 0 <= counter
    ensures p < |s.procs|
    ensures var t := Attach(s, s.procs[p].player, index, counter); Inv(t) && p in Orbit(t.links)
  {
    FindsSelf(s, p);
    var t := Attach(s, s.procs[p].player, index, counter);
    assert ProcOk(s, 0);
    forall i | 0 <= i < |t.procs| ensures ProcOk(t, i) {
      if i < |s.procs| { assert ProcOk(s, i) && t.procs[i] == s.procs[i]; }
    }
    AttachShape(s, p, index, counter);
  }

  /** Fork shape. A fork by the head's player keeps every reachable process and adds one,
      in second place; a fork by any other process keeps exactly the processes up to itself,
      adds one behind it and closes onto the process after the head. */
  lemma AttachShape(s: State, p: nat, index: int, counter: int)
    requires Inv(s) && p in Orbit(s.links)
    ensures p < |s.procs|
    ensures var path, t, n := Orbit(s.links), Attach(s, s.procs[p].player, index, counter), |s.procs|;
            && Closed(t.links)
            && p in Orbit(t.links)
            && (Owner(s, p) == 0 ==>
                  && Orbit(t.links) == [0, n] + path[1..]
                  && Closing(t.links) == Closing(s.links))
            && (Owner(s, p) != 0 ==> exists k ::
                  && 0 < k < |path| && path[k] == p
                  && Orbit(t.links) == path[..k + 1] + [n]
                  && Closing(t.links) == path[1])
  {
    FindsSelf(s, p);
    var path := Orbit(s.links);
    var k :| 0 <= k < |path| && path[k] == p;
    if Owner(s, p) == 0 {
      SpliceAtHead(s.links);
      var orb := Orbit(Splice(s.links, 0));
      if k > 0 { assert orb[k + 1] == p; } else { assert orb[0] == 0; }
    } else {
      SpliceFurther(s.links, k);
      assert (path[..k + 1] + [|s.procs|])[k] == p;
    }
  }

  /** `t` has the memory, the champions' identities and sizes, and the processes of `s`. */
  ghost predicate Extends(s: State, t: State)
  {
    && t.mem == s.mem && t.count == s.count
    && |t.champs| == |s.champs| && |s.procs| <= |t.procs|
    && (forall i | 0 <= i < |s.champs| :: t.champs[i].size == s.champs[i].size && t.champs[i].id == s.champs[i].id)
    && (forall i | 0 <= i < |s.procs| ::
          && t.procs[i].player == s.procs[i].player && t.procs[i].index == s.procs[i].index
          && t.procs[i].birth == s.procs[i].birth)
  }

  lemma InvFrom(s: State, t: State)
    requires Inv(s) && Extends(s, t) && t.links == s.links && |t.procs| == |s.procs|
    requires forall i | 0 <= i < s.count :: 0 <= t.champs[i].counter < IDX_MOD && 0 <= t.champs[i].lives
    requires forall i | 0 <= i < |s.procs| :: 0 <= t.procs[i].counter
    ensures Inv(t)
  {
    forall i | 0 <= i < s.count ensures ChampOk(t.champs[i]) { assert ChampOk(s.champs[i]); }
    forall i | 0 <= i < |t.procs| ensures ProcOk(t, i) { assert ProcOk(s, i); }
  }

  lemma ProcsOk(s: State)
    requires Inv(s)
    ensures forall i | 0 <= i < |s.procs| :: 0 <= s.procs[i].counter && 0 <= s.procs[i].index
    ensures forall i | 0 <= i < s.count :: 0 <= s.champs[i].counter < IDX_MOD && 0 <= s.champs[i].lives
  {
    forall i | 0 <= i < |s.procs| ensures 0 <= s.procs[i].counter && 0 <= s.procs[i].index { assert ProcOk(s, i); }
    forall i | 0 <= i < s.count ensures 0 <= s.champs[i].counter < IDX_MOD && 0 <= s.champs[i].lives {
      assert ChampOk(s.champs[i]);
    }
  }

  lemma ForkKeepsInv(s: State, p: nat, v: int, long: bool)
    requires Inv(s) && p in Orbit(s.links) && 0 <= v <= 1020
    ensures var t := if long then Lfork(s, Owner(s, p), v) else Fork(s, Owner(s, p), v);
            Inv(t) && Extends(s, t) && p in Orbit(t.links) && t.procs[..|s.procs|] == s.procs
  {
    var c := Owner(s, p);
    ProcsOk(s);
    assert ProcOk(s, p);
    if long {
      AttachKeepsInv(s, p, s.champs[c].counter + v, s.champs[c].counter + v);
    } else {
      AttachKeepsInv(s, p, (s.champs[c].counter + v) % IDX_MOD, s.procs[0].counter);
    }
  }

  lemma PlainEffectKeepsInv(s: State, c: nat, op: int, v: nat, flag: bool)
    requires Inv(s) && c < 4 && op != OP_FORK && op != OP_LFORK
    ensures var t := Effect(s, c, op, v, flag); Inv(t) && Extends(s, t) && t.links == s.links && t.procs == s.procs
  {
    ProcsOk(s);
    var t := Effect(s, c, op, v, flag);
    assert Extends(s, t) && forall i | 0 <= i < s.count :: 0 <= t.champs[i].counter < IDX_MOD && 0 <= t.champs[i].lives;
    InvFrom(s, t);
  }

  lemma EffectKeepsInv(s: State, p: nat, op: int, v: int, flag: bool)
    requires Inv(s) && p in Orbit(s.links) && 0 <= v <= 1020
    ensures var t := Effect(s, Owner(s, p), op, v, flag);
            Inv(t) && Extends(s, t) && p in Orbit(t.links) && t.procs[..|s.procs|] == s.procs
  {
    if op == OP_FORK {
      ForkKeepsInv(s, p, v, false);
    } else if op == OP_LFORK {
      ForkKeepsInv(s, p, v, true);
    } else {
      PlainEffectKeepsInv(s, Owner(s, p), op, v, flag);
    }
  }

  lemma ChargeKeepsInv(s: State, n: nat)
    requires Inv(s)
    ensures Inv(Charge(s, n)) && Extends(s, Charge(s, n))
  {
    ProcsOk(s);
    InvFrom(s, Charge(s, n));
  }

  lemma SetProcKeepsInv(s: State, p: nat, counter: nat, cycles: int, log: seq<Decoded>)
    requires Inv(s) && p < |s.procs|
    ensures var t := SetProc(s, p, counter, cycles, log); Inv(t) && Extends(s, t) && t.links == s.links
  {
    ProcsOk(s);
    InvFrom(s, SetProc(s, p, counter, cycles, log));
  }

  lemma PerformKeepsInv(s: State, p: nat, at: nat, flag: bool)
    requires Inv(s) && p in Orbit(s.links) && p < |s.procs|
    requires IsOpcode(Cell(s.mem, s.procs[p].index + at))
    ensures var t := Perform(s, p, Owner(s, p), at, flag); Inv(t) && Extends(s, t) && p in Orbit(t.links)
  {
    hide Inv, Decode, Effect;
    var q := s.procs[p];
    var d := Decode(s.mem, q.index + at);
    var u := Charge(s, Cost(d.opcode));
    ChargeKeepsInv(s, Cost(d.opcode));
    EffectKeepsInv(u, p, d.opcode, d.operands[0].Or(0), flag);
    SetProcKeepsInv(Effect(u, Owner(s, p), d.opcode, d.operands[0].Or(0), flag),
                    p, d.next - q.index, Cost(d.opcode) - 1, q.log + [d]);
  }

  /** A visit that executes nothing: the process is still waiting, or what it points at is
      no opcode. */
  lemma IdleKeepsInv(s: State, p: nat, at: nat, n: nat)
    requires Inv(s) && p in Orbit(s.links) && p < |s.procs|
    ensures var t := SetProc(Charge(s, n), p, at, s.procs[p].cycles - 1, s.procs[p].log);
            Inv(t) && Extends(s, t) && p in Orbit(t.links)
  {
    ChargeKeepsInv(s, n);
    SetProcKeepsInv(Charge(s, n), p, at, s.procs[p].cycles - 1, s.procs[p].log);
  }

  lemma WrapOk(s: State, p: nat)
    requires Inv(s) && p < |s.procs|
    ensures 0 <= Wrap(s.procs[p].counter, s.champs[Owner(s, p)].size) < s.champs[Owner(s, p)].size
  {
    assert ProcOk(s, p) && ChampOk(s.champs[Owner(s, p)]);
  }

  lemma VisitOk(s: State, p: nat, flag: bool)
    requires Inv(s) && p in Orbit(s.links) && p < |s.procs|
    ensures var t := Visit(s, p, flag); Inv(t) && Extends(s, t) && p in Orbit(t.links)
  {
    hide Inv, Perform, Extends, FindChampion, Closed;
    InvBasics(s);
    FindsOwner(s, p);
    WrapOk(s, p);
    var q, c := s.procs[p], Owner(s, p);
    var at := Wrap(q.counter, s.champs[c].size);
    if IsOpcode(Cell(s.mem, q.index + at)) && q.cycles <= 0 {
      PerformKeepsInv(s, p, at, flag);
    } else {
      IdleKeepsInv(s, p, at, 0);
      IdleKeepsInv(s, p, at, 10);
      assert Charge(s, 0) == s;
    }
  }

  /** Every visit to a reachable process keeps the invariant, and both that process and its
      successor are still reachable afterwards, so the scheduler never leaves the list. */
  lemma VisitKeepsInv(s: State, p: nat, flag: bool)
    requires Inv(s) && p in Orbit(s.links)
    ensures p < |s.procs|
    ensures var t := Visit(s, p, flag);
            && Inv(t) && Extends(s, t)
            && p in Orbit(t.links) && t.links[p] in Orbit(t.links)
  {
    hide Visit, Inv;
    InvBasics(s);
    OrbitShape(s.links);
    VisitOk(s, p, flag);
    InvBasics(Visit(s, p, flag));
    OrbitClosed(Visit(s, p, flag).links, p);
  }
}
