/** The virtual machine itself: heap nodes, champion records and the loops of src/, each
    method proved against the state machine of `Machine` and `Game`. */
module Vm {
  import opened Bytes
  import opened OpTable
  import opened Decoder
  import opened Links
  import opened Machine
  import opened Game
  import opened Runs
  import opened Setup
  import opened Independence

  class Process {
    var next: Process?
    var counter: int
    var player: int
    var index: int
    var cyclesRunning: int

    /** `init_process`. */
    constructor (id: int, index: int)
      ensures next == null && counter == 0 && player == id && this.index == index && cyclesRunning == 0
    {
      next := null;
      counter := 0;
      player := id;
      this.index := index;
      cyclesRunning := 0;
    }

    /** `clone_process`: everything but the index and the waiting time is copied. */
    constructor Clone(original: Process, newAddress: int)
      ensures next == original.next && counter == original.counter && player == original.player
      ensures index == newAddress && cyclesRunning == 0
    {
      next := original.next;
      counter := original.counter;
      player := original.player;
      index := newAddress;
      cyclesRunning := 0;
    }

    ghost predicate Is(q: Proc)
      reads this
    {
      counter == q.counter && player == q.player && index == q.index && cyclesRunning == q.cycles
    }
  }

  type Registers = r: seq<int> | |r| == 16 witness seq(16, _ => 0)

  class Champion {
    var id: int
    var counter: int
    var carryFlag: bool
    var parsedInstructions: seq<byte>
    var lives: int
    var dead: bool
    var registers: Registers
    var color: int

    constructor (id: int, code: seq<byte>)
      ensures View() == Champ(id, |code|, 0, false, 0, false) && parsedInstructions == code
    {
      this.id := id;
      counter := 0;
      carryFlag := false;
      parsedInstructions := code;
      lives := 0;
      dead := false;
      registers := seq(16, _ => 0);
      color := 0;
    }

    ghost function View(): Champ
      reads this
    {
      Champ(id, |parsedInstructions|, counter, carryFlag, lives, dead)
    }
  }

  class Core {
    const hexMemory: array<byte>
    const champions: seq<Champion>
    var championCount: nat
    var nbrCycles: int
    var cycleToDie: int
    var lives: int
    var winner: int
    var instructionPointer: nat
    var process: Process?

    /** All process nodes, oldest first, reachable or not, and the state they stand for. */
    ghost var nodes: seq<Process>
    ghost var model: State

    ghost predicate ScalarsOk()
      reads this
    {
      && championCount == model.count && nbrCycles == model.cycles && cycleToDie == model.cycleToDie
      && lives == model.lives && winner == model.winner && instructionPointer == model.sweeps
    }

    ghost predicate Slots()
    {
      |champions| == 4 && forall i, j | 0 <= i < j < 4 :: champions[i] != champions[j]
    }

    ghost predicate ChampionsOk()
      reads this`model, champions
    {
      && Slots() && |model.champs| == 4
      && forall i | 0 <= i < 4 :: champions[i].View() == model.champs[i]
    }

    ghost predicate NodesOk()
      reads this`model, this`nodes, this`process, nodes
    {
      && |nodes| == |model.procs| == |model.links| > 0 && Closed(model.links)
      && process == nodes[0]
      && (forall i, j | 0 <= i < j < |nodes| :: nodes[i] != nodes[j])
      && (forall i | 0 <= i < |nodes| :: nodes[i].Is(model.procs[i]))
      && (forall i | 0 <= i < |nodes| :: nodes[i].next == nodes[model.links[i]])
    }

    ghost predicate Valid()
      reads this, hexMemory, champions, nodes
    {
      ScalarsOk() && ChampionsOk() && NodesOk() && Inv(model) && model.mem == hexMemory[..]
    }

    // -------------------------------------------------------------- setting up

    /** `init_vm`: the memory and the champion slots hold whatever they held. */
    constructor (hexMemory: array<byte>, slots: seq<Champion>)
      requires hexMemory.Length == MEM_SIZE
      requires |slots| == 4 && forall i, j | 0 <= i < j < 4 :: slots[i] != slots[j]
      ensures this.hexMemory == hexMemory && champions == slots && Slots()
      ensures championCount == 0 && nbrCycles == 0 && cycleToDie == CYCLE_TO_DIE
      ensures lives == 0 && winner == 0 && instructionPointer == 0
    {
      this.hexMemory := hexMemory;
      champions := slots;
      championCount := 0;
      nbrCycles := 0;
      cycleToDie := CYCLE_TO_DIE;
      lives := 0;
      winner := 0;
      instructionPointer := 0;
      process := null;
      nodes := [];
    }

    /** `add_champion`: a champion without an identifier gets its rank; its record is copied
        into the next slot. */
    method AddChampion(champion: Champion)
      requires Slots() && championCount < 4 && champion !in champions
      modifies this`championCount, champion, champions[championCount]
      ensures championCount == old(championCount) + 1
      ensures var id := if old(champion.id) != 0 then old(champion.id) else championCount;
              champions[old(championCount)].View() ==
                Champ(id, |old(champion.parsedInstructions)|, 0, false, old(champion.lives), old(champion.dead))
      ensures var slot := champions[old(championCount)];
              && slot.parsedInstructions == old(champion.parsedInstructions)
              && slot.registers == old(champion.registers)[0 := slot.id]
              && slot.color == [31, 32, 35, 36][old(championCount)]
    {
      championCount := championCount + 1;
      champion.id := if champion.id != 0 then champion.id else championCount;
      champion.counter := 0;
      champion.carryFlag := false;
      champion.registers := champion.registers[0 := champion.id];
      champion.color := [31, 32, 35, 36][championCount - 1];
      var slot := champions[championCount - 1];
      slot.id := champion.id;
      slot.counter := champion.counter;
      slot.carryFlag := champion.carryFlag;
      slot.parsedInstructions := champion.parsedInstructions;
      slot.lives := champion.lives;
      slot.dead := champion.dead;
      slot.registers := champion.registers;
      slot.color := champion.color;
    }

    ghost function Codes(n: nat): (r: seq<seq<byte>>)
      requires n <= |champions|
      reads champions
      ensures |r| == n && forall i | 0 <= i < n :: r[i] == champions[i].parsedInstructions
    {
      if n == 0 then [] else Codes(n - 1) + [champions[n - 1].parsedInstructions]
    }

    /** `load_instructions`. */
    method LoadInstructions()
      requires 1 <= championCount <= 4 <= |champions| && hexMemory.Length == MEM_SIZE
      requires forall i | 0 <= i < championCount :: |champions[i].parsedInstructions| <= Segment(championCount)
      modifies hexMemory
      ensures hexMemory[..] == Loaded(old(hexMemory[..]), Codes(championCount))
    {
      ghost var before, codes := hexMemory[..], Codes(championCount);
      var seg := Segment(championCount);
      for i := 0 to championCount
        invariant forall a | 0 <= a < MEM_SIZE ::
            hexMemory[a] == if a < seg * i then Loaded(before, codes)[a] else before[a]
      {
        ghost var here := hexMemory[..];
        for j := 0 to |champions[i].parsedInstructions|
          invariant forall a | 0 <= a < MEM_SIZE ::
              hexMemory[a] == if seg * i <= a < seg * i + j then codes[i][a - seg * i] else here[a]
        {
          SegmentCell(championCount, i, j);
          hexMemory[j + seg * i] := champions[i].parsedInstructions[j];
        }
        forall a | 0 <= a < MEM_SIZE
          ensures hexMemory[a] == if a < seg * (i + 1) then Loaded(before, codes)[a] else before[a]
        {
          if seg * i <= a < seg * (i + 1) { SegmentCell(championCount, i, a - seg * i); }
        }
      }
      BehindAll(championCount);
    }

    /** `build_processes`. */
    method BuildProcesses()
      requires Slots() && 1 <= championCount <= 4
      modifies this`process, this`nodes
      ensures |nodes| == championCount && fresh(nodes) && process == nodes[0]
      ensures forall i | 0 <= i < |nodes| ::
                nodes[i].Is(Proc(0, champions[i].id, Segment(championCount) * i, 0, 0, 0, []))
      ensures forall i | 0 <= i < |nodes| :: nodes[i].next == nodes[Ring(championCount)[i]]
      ensures forall i, j | 0 <= i < j < |nodes| :: nodes[i] != nodes[j]
    {
      var head := new Process(champions[0].id, 0);
      nodes := [head];
      var prev := head;
      for i := 1 to championCount
        invariant |nodes| == i && nodes[0] == head && prev == nodes[i - 1]
        invariant fresh(nodes)
        invariant forall k | 0 <= k < i ::
                    nodes[k].Is(Proc(0, champions[k].id, Segment(championCount) * k, 0, 0, 0, []))
        invariant forall k | 0 <= k < i - 1 :: nodes[k].next == nodes[k + 1]
        invariant forall j, k | 0 <= j < k < i :: nodes[j] != nodes[k]
      {
        var newProcess := new Process(champions[i].id, MEM_SIZE / championCount * i);
        prev.next := newProcess;
        nodes := nodes + [newProcess];
        prev := newProcess;
      }
      prev.next := head;
      process := head;
    }

    ghost function Views(): (r: seq<Champ>)
      requires |champions| == 4
      reads champions
    {
      [champions[0].View(), champions[1].View(), champions[2].View(), champions[3].View()]
    }

    /** The end of `parse_args`: programs loaded, processes built, ready for `run_game`. */
    method Start()
      requires Slots() && 1 <= championCount <= 4 && hexMemory.Length == MEM_SIZE
      requires Entrants(Views(), Codes(championCount))
      requires nbrCycles == 0 && cycleToDie == CYCLE_TO_DIE && lives == 0 && winner == 0 && instructionPointer == 0
      modifies this, hexMemory
      ensures Valid() && fresh(nodes)
      ensures model == Initial(old(hexMemory[..]), Views(), Codes(championCount))
    {
      hide Loaded, Inv, Segment, Autonomous, Closed, DistinctIds, Orbit, Linked, Closing, Entrants;
      ghost var champs, codes := Views(), Codes(championCount);
      EntrantsFit(champs, codes);
      InitialOk(hexMemory[..], champs, codes);
      ghost var before := hexMemory[..];
      LoadInstructions();
      BuildProcesses();
      Stand(before, champs, codes);
    }

    /** Loaded and linked, the machine stands for the initial state. */
    ghost method Stand(before: seq<byte>, champs: seq<Champ>, codes: seq<seq<byte>>)
      requires Slots() && |codes| == championCount && 1 <= championCount <= 4 && champs == Views()
      requires hexMemory[..] == Loaded(before, codes) && Inv(Initial(before, champs, codes))
      requires nbrCycles == 0 && cycleToDie == CYCLE_TO_DIE && lives == 0 && winner == 0 && instructionPointer == 0
      requires |nodes| == championCount && process == nodes[0]
      requires forall i | 0 <= i < |nodes| ::
                 nodes[i].Is(Proc(0, champions[i].id, Segment(championCount) * i, 0, 0, 0, []))
      requires forall i | 0 <= i < |nodes| :: nodes[i].next == nodes[Ring(championCount)[i]]
      requires forall i, j | 0 <= i < j < |nodes| :: nodes[i] != nodes[j]
      modifies this`model
      ensures Valid() && model == Initial(before, champs, codes) && nodes == old(nodes)
    {
      hide Loaded, Inv, Segment, Closed, Ring;
      RingClosed(championCount);
      model := Initial(before, champs, codes);
      assert ScalarsOk() && ChampionsOk();
    }

    lemma RingClosed(count: nat)
      requires 1 <= count
      ensures Closed(Ring(count))
    {
    }

    // -------------------------------------------------------------- lookups

    /** `find_champion`. */
    method FindChampion(id: int) returns (c: nat)
      requires ChampionsOk()
      ensures c == Machine.FindChampion(model.champs, id) < 4
    {
      var i := 0;
      while i < MAX_CHAMPIONS
        invariant 0 <= i <= 4
        invariant Machine.FindChampion(model.champs, id) == FindFrom(model.champs, id, i)
      {
        if champions[i].id == id { return i; }
        i := i + 1;
      }
      return 0;
    }

    /** `find_process`. The walk ends when it meets the player, or the head again: on a lasso
        that does not contain the player it would go on forever. */
    method FindProcess(player: int) returns (found: Process)
      requires NodesOk()
      requires (exists x :: x in Orbit(model.links) && model.procs[x].player == player) || Closing(model.links) == 0
      ensures found == nodes[Machine.FindIn(model.procs, Orbit(model.links), player)]
    {
      hide Walk;
      ghost var path, k := Orbit(model.links), 0;
      OrbitShape(model.links);
      var head := process;
      var current := process;
      while true
        invariant 0 <= k < |path| && current == nodes[path[k]]
        invariant forall i | 0 <= i < k :: model.procs[path[i]].player != player
        decreases |path| - k
      {
        assert nodes[path[k]].Is(model.procs[path[k]]);
        if current.player == player {
          FindInFirst(model.procs, path, player, k);
          return current;
        }
        current := current.next;
        k := k + 1;
        if k < |path| {
          assert path[k] == model.links[path[k - 1]] && path[0] != path[k];
          assert current != head;
        }
        if current == head { break; }
      }
      FindInNone(model.procs, path, player);
      return current;
    }

    // -------------------------------------------------------------- instructions

    /** `update_champion_lives`. */
    method UpdateChampionLives(id: int)
      requires ChampionsOk()
      modifies champions
      ensures forall i | 0 <= i < 4 :: champions[i].View() == AddLife(model.champs, id)[i]
      ensures forall i | 0 <= i < 4 :: champions[i].parsedInstructions == old(champions[i].parsedInstructions)
    {
      for i := 0 to 4
        invariant forall k | 0 <= k < i :: champions[k].View() == AddLife(model.champs, id)[k]
        invariant forall k | i <= k < 4 :: champions[k].View() == model.champs[k]
        invariant forall k | 0 <= k < 4 :: champions[k].parsedInstructions == old(champions[k].parsedInstructions)
      {
        assert champions[i].View() == model.champs[i];
        if champions[i].id == id {
          champions[i].lives := champions[i].lives + 1;
        }
      }
    }

    /** The ghost state catches up with scalars and champions; the processes are as they were. */
    ghost method Conclude(after: State)
      requires NodesOk() && after.procs == model.procs && after.links == model.links
      modifies this`model
      ensures NodesOk() && model == after
    {
      hide Closed;
      model := after;
    }

    /** `inst_live`. */
    method InstLive(c: nat)
      requires Valid() && c < 4
      modifies this, champions
      ensures Valid() && model == Live(old(model), c) && nodes == old(nodes)
    {
      hide Inv, Extends, Closed, NodesOk;
      InvBasics(model);
      PlainEffectKeepsInv(model, c, OP_LIVE, 0, false);
      assert champions[c].View() == model.champs[c];
      ghost var after := Live(model, c);
      UpdateChampionLives(champions[c].id);
      lives := lives + 1;
      winner := champions[c].id;
      Conclude(after);
    }

    /** `inst_zjmp`. */
    method InstZjmp(c: nat, offset: nat)
      requires Valid() && c < 4
      modifies this, champions
      ensures Valid() && model == Zjmp(old(model), c, offset) && nodes == old(nodes)
    {
      hide Inv, Extends, Closed, NodesOk;
      InvBasics(model);
      PlainEffectKeepsInv(model, c, OP_ZJMP, offset, false);
      assert forall i | 0 <= i < 4 :: champions[i].View() == model.champs[i];
      Conclude(Zjmp(model, c, offset));
      if champions[c].carryFlag {
        champions[c].counter := (champions[c].counter + offset) % IDX_MOD;
      }
    }

    /** Any of the arithmetic operations, as far as the machine's course depends on it. */
    method InstArithmetic(c: nat, op: int, flag: bool)
      requires Valid() && c < 4 && op !in {OP_LIVE, OP_ZJMP, OP_FORK, OP_LFORK}
      modifies this, champions
      ensures Valid() && model == Effect(old(model), c, op, 0, flag) && nodes == old(nodes)
    {
      hide Inv, Extends, Closed, NodesOk;
      InvBasics(model);
      PlainEffectKeepsInv(model, c, op, 0, flag);
      assert forall i | 0 <= i < 4 :: champions[i].View() == model.champs[i];
      Conclude(Effect(model, c, op, 0, flag));
      if WritesCarry(op) {
        champions[c].carryFlag := flag;
      }
    }

    /** `fork_process`: the only place where a link changes. */
    method ForkProcess(original: Process, newProcess: Process, ghost f: nat, ghost q: Proc)
      requires NodesOk() && f < |nodes| && original == nodes[f]
      requires newProcess !in nodes && newProcess.Is(q) && newProcess.next == nodes[model.links[0]]
      modifies original`next, this`nodes, this`model
      ensures NodesOk() && nodes == old(nodes) + [newProcess]
      ensures model == old(model).(procs := old(model).procs + [q], links := Splice(old(model).links, f))
    {
      original.next := newProcess;
      nodes := nodes + [newProcess];
      model := model.(procs := model.procs + [q], links := Splice(model.links, f));
    }

    /** The clone of the head is linked in after the player's first process. */
    method LinkClone(ghost p: nat, c: nat, newProcess: Process, ghost index: int, ghost counter: int)
      requires ChampionsOk() && NodesOk() && Inv(model) && p in Orbit(model.links) && c == Owner(model, p) && c < 4
      requires newProcess !in nodes && newProcess.next == nodes[0].next
      requires newProcess.Is(Proc(counter, nodes[0].player, index, 0, counter, 0, []))
      modifies this`nodes, this`model, nodes
      ensures NodesOk() && nodes == old(nodes) + [newProcess]
      ensures model == Attach(old(model), old(model).champs[c].id, index, counter)
      ensures model == old(model).(procs := model.procs, links := model.links)
    {
      hide FindIn, Walk, Inv;
      InvBasics(model);
      OwnProcessFound(p, c);
      assert champions[c].View() == model.champs[c];
      assert nodes[0].Is(model.procs[0]) && nodes[0].next == nodes[model.links[0]];
      var original := FindProcess(champions[c].id);
      ForkProcess(original, newProcess, Machine.FindProcess(model, model.champs[c].id),
                  Proc(counter, model.procs[0].player, index, 0, counter, 0, []));
    }

    /** `inst_fork`, executed by process `p` of champion slot `c`. */
    method InstFork(ghost p: nat, c: nat, offset: nat)
      requires Valid() && p in Orbit(model.links) && c == Owner(model, p) && c < 4 && offset <= 1020
      modifies this, champions, nodes
      ensures Valid() && model == Fork(old(model), c, offset)
      ensures |nodes| == |old(nodes)| + 1 && nodes[..|old(nodes)|] == old(nodes) && fresh(nodes[|old(nodes)|])
    {
      hide Inv, Attach, Orbit, Closed, Extends;
      InvBasics(model);
      ForkKeepsInv(model, p, offset, false);
      assert champions[c].View() == model.champs[c];
      assert nodes[0].Is(model.procs[0]);
      var newAddress := (champions[c].counter + offset) % IDX_MOD;
      var newProcess := new Process.Clone(process, newAddress);
      LinkClone(p, c, newProcess, newAddress, model.procs[0].counter);
    }

    /** `inst_lfork`. */
    method InstLfork(ghost p: nat, c: nat, offset: nat)
      requires Valid() && p in Orbit(model.links) && c == Owner(model, p) && c < 4 && offset <= 1020
      modifies this, champions, nodes
      ensures Valid() && model == Lfork(old(model), c, offset)
      ensures |nodes| == |old(nodes)| + 1 && nodes[..|old(nodes)|] == old(nodes) && fresh(nodes[|old(nodes)|])
    {
      hide Inv, Attach, Orbit, Closed, Extends;
      InvBasics(model);
      ForkKeepsInv(model, p, offset, true);
      assert champions[c].View() == model.champs[c];
      assert nodes[0].Is(model.procs[0]);
      var newAddress := champions[c].counter + offset;
      var newProcess := new Process.Clone(process, newAddress);
      newProcess.counter := newAddress;
      LinkClone(p, c, newProcess, newAddress, newAddress);
    }

    /** A running process belongs to the player it is executed for, so the search ends. */
    lemma OwnProcessFound(p: nat, c: nat)
      requires Inv(model) && p in Orbit(model.links) && c == Owner(model, p)
      ensures c < 4 && p < |model.procs| && model.procs[p].player == model.champs[c].id
    {
      OrbitShape(model.links);
      assert ProcOk(model, p);
    }

    /** The old nodes are still there, in order, and all others are new. */
    twostate predicate Grown()
      reads this
    {
      && |old(nodes)| <= |nodes| && nodes[..|old(nodes)|] == old(nodes)
      && forall i | |old(nodes)| <= i < |nodes| :: fresh(nodes[i])
    }

    method SpendCycles(n: nat)
      requires Valid()
      modifies this`nbrCycles, this`model
      ensures Valid() && model == Charge(old(model), n)
    {
      hide Closed, Inv, NodesOk;
      ChargeKeepsInv(model, n);
      nbrCycles := nbrCycles + n;
      Conclude(Charge(model, n));
    }

    /** `execute_instruction`, for process `p` of champion slot `c`. */
    method ExecuteInstruction(ghost p: nat, c: nat, op: int, args: array<int>, ghost d: Decoded, flag: bool)
      requires Valid() && p in Orbit(model.links) && c == Owner(model, p) && c < 4
      requires IsOpcode(op) && op == d.opcode && |d.operands| == Arity(op) && Holds(args, d.operands)
      requires Arity(op) == 1 ==> d.operands[0].Some? && 0 <= d.operands[0].value <= 1020
      modifies this, champions, nodes
      ensures Valid() && Grown() && model == Execute(old(model), c, d, flag)
    {
      hide Inv, Live, Zjmp, Fork, Lfork, Orbit, Closed, Extends;
      InvBasics(model);
      ArityAndCostBounds(op);
      SpendCycles(Cost(op));
      if op == OP_LIVE {
        InstLive(c);
      } else if op == OP_ZJMP {
        InstZjmp(c, args[0]);
      } else if op == OP_FORK {
        InstFork(p, c, args[0]);
      } else if op == OP_LFORK {
        InstLfork(p, c, args[0]);
      } else {
        InstArithmetic(c, op, flag);
      }
    }

    /** `run_instruction`: skipped while the process waits and on bytes that are no opcode. */
    method RunInstruction(ghost p: nat, process: Process, currentAddress: nat, ghost at: nat, flag: bool)
      returns (newAddress: nat)
      requires Valid() && p in Orbit(model.links) && p < |nodes| && process == nodes[p]
      requires at < model.champs[Owner(model, p)].size && currentAddress == process.index + at
      modifies this, champions, nodes
      ensures Valid() && Grown()
      ensures model == Ran(old(model), p, at, flag) && newAddress == RanTo(old(model), p, at)
    {
      hide Inv, Execute, Decode, Closed, Extends, Orbit, Effect, Machine.FindChampion;
      RoomFor(model, p);
      assert nodes[p].Is(model.procs[p]);
      if process.cyclesRunning > 0 {
        return currentAddress;
      }
      var tempAddress := currentAddress;
      var opcode := hexMemory[tempAddress];
      if opcode > 16 {
        return currentAddress;
      }
      tempAddress := tempAddress + 1;
      if opcode == 0 {
        SpendCycles(10);
        return currentAddress;
      }
      var operands, next := BuildOperands(opcode, hexMemory, tempAddress);
      ghost var d := Decode(model.mem, currentAddress);
      LoneAssigned(model.mem, currentAddress);
      var c := FindChampion(process.player);
      FindsOwner(model, p);
      assert Valid();
      ghost var before := nodes;
      ExecuteInstruction(p, c, opcode, operands, d, flag);
      assert nodes[p] == before[p];
      SetCycles(process, p, Cost(opcode));
      newAddress := next;
    }

    /** `run_instructions`: from the head, one step for each champion. */
    method RunInstructions(alu: Alu)
      requires Valid()
      modifies this, champions, nodes
      ensures Valid() && Grown()
      ensures Inv(Charge(old(model), 1)) && model == Stage(Charge(old(model), 1), old(model).count, alu).0
    {
      hide Valid, Inv, Stage, Visit, Closed, Extends, Orbit, Linked;
      ValidFacts();
      ChargeKeepsInv(model, 1);
      ghost var start := Charge(model, 1);
      StageZero(start, alu);
      ghost var cur := 0;
      var current := process;
      var i := 0;
      SpendCycles(1);
      while true
        invariant Valid() && Grown()
        invariant 0 <= i < start.count == model.count && model.sweeps == start.sweeps
        invariant Stage(start, i, alu) == (model, cur)
        invariant cur < |nodes| && current == nodes[cur]
        decreases start.count - i
      {
        ValidFacts();
        i := i + 1;
        StageStep(start, i, alu);
        current := Step(cur, current, alu(instructionPointer, i - 1));
        cur := Stage(start, i, alu).1;
        ValidFacts();
        if !(i < championCount) { break; }
      }
    }

    lemma ValidFacts()
      requires Valid()
      ensures Inv(model) && ScalarsOk() && 1 <= model.count <= 4 == |model.champs|
      ensures |nodes| > 0 && process == nodes[0]
    {
    }

    lemma SlotsOk()
      requires Valid()
      ensures ChampionsOk() && |champions| == 4
    {
    }

    /** The body of that loop: one visit, and on to the successor. */
    method Step(ghost p: nat, current: Process, flag: bool) returns (next: Process)
      requires Valid() && p in Orbit(model.links) && p < |nodes| && current == nodes[p]
      modifies this, champions, nodes
      ensures Valid() && Grown() && model == Visit(old(model), p, flag)
      ensures p < |model.links| && model.links[p] < |nodes| && next == nodes[model.links[p]]
      ensures model.sweeps == old(model).sweeps && model.count == old(model).count
    {
      hide Inv, Closed, Extends, Visit, Ran, RanTo, LogAfter, SetProc, Orbit;
      ghost var s := model;
      RoomFor(s, p);
      WrapOk(s, p);
      FindsOwner(s, p);
      VisitKeepsInv(s, p, flag);
      VisitFrame(s, p, flag);
      assert current.Is(s.procs[p]);
      var c := FindChampion(current.player);
      assert champions[c].View() == s.champs[c];
      var size := |champions[c].parsedInstructions|;
      var instructionIndex := if current.counter >= size then current.counter % size else current.counter;
      var currentAddress := current.index + instructionIndex;
      ghost var before := nodes;
      var newAddress := RunInstruction(p, current, currentAddress, instructionIndex, flag);
      VisitIsRan(s, p, flag);
      assert nodes[p] == before[p];
      Advance(p, current, newAddress, LogAfter(s, p, instructionIndex));
      next := current.next;
    }

    method Advance(ghost p: nat, current: Process, newAddress: int, ghost log: seq<Decoded>)
      requires Valid() && p < |nodes| && current == nodes[p] && current.index <= newAddress
      modifies this`model, current`counter, current`cyclesRunning
      ensures Valid()
      ensures var q := old(model).procs[p];
              model == SetProc(old(model), p, newAddress - q.index, q.cycles - 1, log)
      ensures current.next == old(current.next)
    {
      hide Closed, Inv;
      assert nodes[p].Is(model.procs[p]);
      SetProcKeepsInv(model, p, newAddress - current.index, current.cyclesRunning - 1, log);
      model := SetProc(model, p, newAddress - current.index, current.cyclesRunning - 1, log);
      current.cyclesRunning := current.cyclesRunning - 1;
      current.counter := newAddress - current.index;
    }

    method SetCycles(process: Process, ghost p: nat, cycles: int)
      requires Valid() && p < |nodes| && process == nodes[p]
      modifies this`model, process`cyclesRunning
      ensures Valid() && model == WithCycles(old(model), p, cycles)
    {
      hide Closed;
      ProcsOk(model);
      InvFrom(model, WithCycles(model, p, cycles));
      process.cyclesRunning := cycles;
      model := WithCycles(model, p, cycles);
    }

    // -------------------------------------------------------------- the game

    /** `reset_champ_counters`. */
    method ResetChampCounters()
      requires ChampionsOk() && championCount <= 4
      modifies champions
      ensures forall i | 0 <= i < 4 :: champions[i].View() == Rewound(model.champs, championCount)[i]
    {
      for i := 0 to championCount
        invariant forall k | 0 <= k < i :: champions[k].View() == Rewound(model.champs, championCount)[k]
        invariant forall k | i <= k < 4 :: champions[k].View() == model.champs[k]
      {
        assert champions[i].View() == model.champs[i];
        champions[i].counter := 0;
      }
    }

    /** `check_champion_lives`, on champion slots that hold `champs`. */
    method CheckChampionLives(ghost champs: seq<Champ>) returns (champsLeft: int)
      requires Slots() && 0 < championCount <= 4 == |champs|
      requires forall i | 0 <= i < 4 :: champions[i].View() == champs[i]
      modifies this`winner, champions
      ensures forall i | 0 <= i < 4 :: champions[i].View() == Judged(champs, championCount)[i]
      ensures champsLeft == Alive(Judged(champs, championCount), championCount)
      ensures winner == if SparesLast(champs, championCount) then champs[championCount - 1].id else old(winner)
    {
      hide Judged, Alive, Spared;
      ghost var after := Judged(champs, championCount);
      AliveStart(after);
      JudgedRest(champs, championCount);
      champsLeft := championCount;
      for i := 0 to championCount
        invariant forall k | 0 <= k < i :: champions[k].View() == after[k]
        invariant forall k | i <= k < 4 :: champions[k].View() == champs[k]
        invariant champsLeft == championCount - i + Alive(after, i)
        invariant i == championCount ==> !SparesLast(champs, championCount)
        invariant winner == old(winner)
      {
        JudgedAt(champs, championCount, i);
        EarlyReturnOnlyAtLast(champs, championCount, i);
        SparedIsLast(champs, championCount, i);
        assert champions[i].View() == champs[i];
        if champions[i].dead {
          champsLeft := champsLeft - 1;
        } else if champions[i].lives == 0 {
          if champsLeft == 1 {
            winner := champions[i].id;
            return;
          }
          champions[i].dead := true;
          champsLeft := champsLeft - 1;
        } else {
          champions[i].lives := 0;
        }
      }
    }

    /** `find_winner`. */
    method FindWinner() returns (w: nat)
      requires ChampionsOk()
      ensures w == Game.FindWinner(model.champs, 0)
    {
      for i := 0 to 4
        invariant Game.FindWinner(model.champs, 0) == Game.FindWinner(model.champs, i)
      {
        assert champions[i].View() == model.champs[i];
        if !champions[i].dead { return i; }
      }
      return 0;
    }

    /** The calls of `game_on` that touch the champions. */
    method JudgeChampions() returns (champsLeft: int)
      requires ChampionsOk() && 0 < championCount <= 4
      modifies this`winner, champions
      ensures var champs := Rewound(model.champs, championCount);
              && (forall i | 0 <= i < 4 :: champions[i].View() == Judged(champs, championCount)[i])
              && champsLeft == Alive(Judged(champs, championCount), championCount)
              && winner == if SparesLast(champs, championCount) then champs[championCount - 1].id else old(winner)
    {
      hide Judged, Alive, Rewound, SparesLast;
      ResetChampCounters();
      champsLeft := CheckChampionLives(Rewound(model.champs, championCount));
    }

    /** The life check in `game_on`. */
    method LifeCheck() returns (champsLeft: int)
      requires Valid()
      modifies this, champions
      ensures Valid() && nodes == old(nodes) && model == Checked(old(model))
      ensures champsLeft == Alive(model.champs, model.count)
    {
      hide Inv, Closed, Judged, Alive, Extends, Rewound, SparesLast, NodesOk, Linked, Orbit, Checked;
      ValidFacts();
      CheckedKeepsInv(model);
      CheckedFields(model);
      ghost var after := Checked(model);
      cycleToDie := cycleToDie - CYCLE_DELTA;
      nbrCycles := 0;
      lives := 0;
      winner := 0;
      champsLeft := JudgeChampions();
      Conclude(after);
    }

    /** `game_on`: whether the game is over. */
    method GameOn() returns (over: bool)
      requires Valid()
      modifies this, champions
      ensures Valid() && nodes == old(nodes) && (model, over) == Game.GameOn(old(model))
      ensures championCount == old(championCount) <= |champions| == |model.champs|
      ensures var due := old(lives) >= 40 || old(nbrCycles) >= old(cycleToDie);
              && (over <==> due && (Alive(model.champs, championCount) == 1 || cycleToDie <= 0))
              && cycleToDie == old(cycleToDie) - (if due then 5 else 0)
              && (due ==> lives == 0 && nbrCycles == 0)
              && (due ==> forall i | 0 <= i < championCount :: champions[i].counter == 0)
    {
      hide Inv, Alive, Checked, NodesOk, Linked;
      ValidFacts();
      SlotsOk();
      CheckExact(model);
      if lives >= NBR_LIVE || nbrCycles >= cycleToDie {
        var champsLeft := LifeCheck();
        ValidFacts();
        SlotsOk();
        if champsLeft == 1 { return true; }
        if cycleToDie <= 0 { return true; }
      }
      return false;
    }

    /** `run_game`: it ends, in the state and after the sweeps that `Play` computes. */
    method RunGame(alu: Alu) returns (ghost sweeps: nat)
      requires Valid()
      modifies this, champions, nodes
      ensures Inv(old(model)) && Valid() && Grown()
      ensures model == Play(old(model), alu).final && sweeps == Play(old(model), alu).sweeps
    {
      hide Valid, Inv, Play, Sweep, Stage, Game.GameOn, Extends;
      ValidFacts();
      ghost var start, before := model, model;
      sweeps := 0;
      var over := GameOn();
      while !over
        invariant Valid() && Grown() && Inv(before) && 0 < before.count <= |before.champs|
        invariant (model, over) == Game.GameOn(before)
        invariant Inv(start) && Play(start, alu).final == Play(before, alu).final
        invariant Play(start, alu).sweeps == sweeps + Play(before, alu).sweeps
        decreases Positive(before.cycleToDie), Positive(before.cycleToDie - before.cycles)
      {
        ValidFacts();
        PlayStep(before, alu);
        RunInstructions(alu);
        TickPointer();
        before := model;
        sweeps := sweeps + 1;
        ValidFacts();
        over := GameOn();
      }
      PlayStop(before, alu);
    }

    method TickPointer()
      requires Valid()
      modifies this`instructionPointer, this`model
      ensures Valid() && model == Tick(old(model))
    {
      hide Inv, Closed, NodesOk;
      TickKeepsInv(model);
      instructionPointer := instructionPointer + 1;
      Conclude(Tick(model));
    }
  }

  lemma BehindAll(count: nat)
    requires 1 <= count <= 4
    ensures Segment(count) * count == MEM_SIZE
  {
  }

  function WithCycles(s: State, p: nat, cycles: int): State
    requires p < |s.procs|
  {
    s.(procs := s.procs[p := s.procs[p].(cycles := cycles)])
  }

  /** What `run_instruction` leaves, and the address it hands back. */
  ghost function Ran(s: State, p: nat, at: int, flag: bool): (r: State)
    requires Linked(s) && p < |s.procs| && Owner(s, p) < |s.champs|
    ensures |r.procs| >= |s.procs|
  {
    var q := s.procs[p];
    var op := Cell(s.mem, q.index + at);
    if q.cycles > 0 || op > 16 then s
    else if op == 0 then Charge(s, 10)
    else WithCycles(Execute(s, Owner(s, p), Decode(s.mem, q.index + at), flag), p, Cost(op))
  }

  ghost function RanTo(s: State, p: nat, at: int): int
    requires p < |s.procs|
  {
    var q := s.procs[p];
    if q.cycles > 0 || !IsOpcode(Cell(s.mem, q.index + at)) then q.index + at
    else Decode(s.mem, q.index + at).next
  }

  /** Every cell an instruction at a valid offset can touch is in memory. */
  lemma RoomFor(s: State, p: nat)
    requires Inv(s) && p in Orbit(s.links)
    ensures p < |s.procs| && Owner(s, p) < |s.champs| == 4 && Linked(s) && s.count <= 4
    ensures 0 <= s.procs[p].index && s.procs[p].index + s.champs[Owner(s, p)].size + 13 <= |s.mem|
  {
    OrbitShape(s.links);
    assert ProcOk(s, p);
  }

  ghost function LogAfter(s: State, p: nat, at: int): seq<Decoded>
    requires p < |s.procs|
  {
    var q := s.procs[p];
    if q.cycles > 0 || !IsOpcode(Cell(s.mem, q.index + at)) then q.log
    else q.log + [Decode(s.mem, q.index + at)]
  }

  /** A visit is `run_instruction` and the bookkeeping after it. */
  lemma VisitIsRan(s: State, p: nat, flag: bool)
    requires Inv(s) && p in Orbit(s.links)
    ensures p < |s.procs| && Owner(s, p) < |s.champs| && Linked(s)
    ensures var at := Wrap(s.procs[p].counter, s.champs[Owner(s, p)].size);
            var r, to := Ran(s, p, at, flag), RanTo(s, p, at);
            && r.procs[p].index == s.procs[p].index <= to
            && Visit(s, p, flag) == SetProc(r, p, to - s.procs[p].index, r.procs[p].cycles - 1, LogAfter(s, p, at))
  {
    hide Inv, Decode, Effect, Closed, FindChampion;
    RoomFor(s, p);
    WrapOk(s, p);
    FindsOwner(s, p);
    var q := s.procs[p];
    var a := q.index + Wrap(q.counter, s.champs[Owner(s, p)].size);
    if IsOpcode(Cell(s.mem, a)) {
      var d := Decode(s.mem, a);
      EffectProcs(Charge(s, Cost(d.opcode)), Owner(s, p), d.opcode, d.operands[0].Or(0), flag);
    }
  }

  lemma LoneAssigned(mem: seq<byte>, a: int)
    requires IsOpcode(Cell(mem, a))
    ensures var d := Decode(mem, a);
            d.opcode == Cell(mem, a) && |d.operands| == Arity(d.opcode)
            && (Arity(d.opcode) == 1 ==> d.operands[0].Some? && 0 <= d.operands[0].value <= 1020)
  {
  }
}
