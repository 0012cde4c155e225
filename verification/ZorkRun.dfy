/** What a process on zork's program executes: its jump ends two cells behind the program, so
    from the second round on it starts in the middle of the first instruction. */
module ZorkRun {
  import opened Bytes
  import opened OpTable
  import opened Wrappers
  import opened Decoder
  import opened RoundTrip
  import opened Machine
  import opened Game
  import opened Independence
  import opened Setup
  import opened EndToEnd
  import Zork

  /** Where in the program the `k`-th executed instruction stands. */
  function Place(k: nat): nat
  {
    if k == 0 then 0 else if k % 4 == 0 then 2 else if k % 4 == 1 then 7 else if k % 4 == 2 then 15 else 20
  }

  /** The `k`-th executed instruction: `sti` at first, then `and`, `live` and `zjmp`, and in the
      place of `sti` from then on a `live` with operand 21. The jump's operand depends on what
      lies behind the program. */
  function Instruction(mem: seq<byte>, base: int, k: nat): Decoded
  {
    if k == 0 then Decoded(11, [Some(1), Some(15), Some(1)], base + 7)
    else if k % 4 == 0 then Decoded(1, [Some(21)], base + 7)
    else if k % 4 == 1 then Decoded(6, [Some(1), Some(0), Some(1)], base + 15)
    else if k % 4 == 2 then Decoded(1, [Some(9)], base + 20)
    else Decoded(9, [Some(508 + Cell(mem, base + 23) as int + Cell(mem, base + 25) as int)], base + 25)
  }

  function Instructions(mem: seq<byte>, base: int, k: nat): (r: seq<Decoded>)
    ensures |r| == k
  {
    if k == 0 then [] else Instructions(mem, base, k - 1) + [Instruction(mem, base, k - 1)]
  }

  /** The visit at which the `k`-th instruction is executed: 25 visits after the first `sti`,
      10 after each `live`, 6 after `and` and 20 after `zjmp`. */
  function VisitOf(k: nat): nat
  {
    if k == 0 then 0
    else VisitOf(k - 1) + if k == 1 then 25 else if k % 4 == 2 then 6 else if k % 4 == 0 then 20 else 10
  }

  lemma Cells(mem: seq<byte>, base: int, i: nat)
    requires Stored(mem, base, Zork.CODE) && i < 23
    ensures |Zork.CODE| == 23 && Cell(mem, base + i) == Zork.CODE[i]
  {
  }

  lemma Fields(d: byte)
    requires d == 104 || d == 100
    ensures Field(d, 0) == 1 && Field(d, 1) == 2 && Field(d, 2) == if d == 104 then 2 else 1
  {
    hide Field;
    FieldsAre(d);
  }

  lemma DecodeSti(mem: seq<byte>, base: int)
    requires Stored(mem, base, Zork.CODE)
    ensures IsOpcode(Cell(mem, base)) && Decode(mem, base) == Instruction(mem, base, 0)
  {
    hide Stored, Field, Cell, OperandAt;
    Cells(mem, base, 0);
    Cells(mem, base, 1);
    Cells(mem, base, 2);
    Cells(mem, base, 3);
    Cells(mem, base, 4);
    Cells(mem, base, 5);
    Cells(mem, base, 6);
    Fields(104);
    Triple(mem, base + 2, 104);
  }

  lemma DecodeAnd(mem: seq<byte>, base: int)
    requires Stored(mem, base, Zork.CODE)
    ensures IsOpcode(Cell(mem, base + 7)) && Decode(mem, base + 7) == Instruction(mem, base, 1)
  {
    hide Stored, Field, Cell, OperandAt;
    Cells(mem, base, 7);
    Cells(mem, base, 8);
    Cells(mem, base, 9);
    Cells(mem, base, 10);
    Cells(mem, base, 11);
    Cells(mem, base, 12);
    Cells(mem, base, 13);
    Cells(mem, base, 14);
    Fields(100);
    Triple(mem, base + 9, 100);
  }

  /** The three operands behind one of the two descriptors. */
  lemma Triple(mem: seq<byte>, t: int, d: byte)
    requires || (d == 104 && Cell(mem, t + 1) == Cell(mem, t + 3) == 0 && Cell(mem, t + 2) != 0 && Cell(mem, t + 4) != 0)
             || (d == 100 && Cell(mem, t + 1) == Cell(mem, t + 2) == 0)
    ensures OperandsAt(mem, t, d, 3) ==
            if d == 104 then ([Some(Cell(mem, t) as int), Some(Cell(mem, t + 2) as int),
                               Some(Cell(mem, t + 4) as int)], t + 5)
            else ([Some(Cell(mem, t) as int), Some(Cell(mem, t + 3) as int + Cell(mem, t + 4) as int),
                   Some(Cell(mem, t + 5) as int)], t + 6)
  {
    hide Field, Cell, OperandAt;
    Fields(d);
    OperandsStep(mem, t, d, 0);
    OperandsStep(mem, t, d, 1);
    OperandsStep(mem, t, d, 2);
    var all := OperandsAt(mem, t, d, 3).0;
    assert all == [all[0], all[1], all[2]];
    assert OperandsAt(mem, t, d, 2).0 == all[..2] && OperandsAt(mem, t, d, 1).0 == OperandsAt(mem, t, d, 2).0[..1];
  }

  lemma DecodeLone(mem: seq<byte>, base: int)
    requires Stored(mem, base, Zork.CODE)
    ensures IsOpcode(Cell(mem, base + 2)) && Decode(mem, base + 2) == Instruction(mem, base, 4)
    ensures IsOpcode(Cell(mem, base + 15)) && Decode(mem, base + 15) == Instruction(mem, base, 2)
    ensures IsOpcode(Cell(mem, base + 20)) && Decode(mem, base + 20) == Instruction(mem, base, 3)
  {
    hide Stored, Cell;
    Cells(mem, base, 2);
    Cells(mem, base, 3);
    Cells(mem, base, 4);
    Cells(mem, base, 5);
    Cells(mem, base, 7);
    Cells(mem, base, 15);
    Cells(mem, base, 16);
    Cells(mem, base, 17);
    Cells(mem, base, 18);
    Cells(mem, base, 20);
    Cells(mem, base, 21);
    Cells(mem, base, 22);
  }

  /** The instruction at each place, its cost, and the place it leads to: from the jump, 25
      cells on, to offset 2. */
  lemma AtPlace(mem: seq<byte>, base: int, k: nat)
    requires Stored(mem, base, Zork.CODE)
    ensures var a, d := base + Place(k), Instruction(mem, base, k);
            && IsOpcode(Cell(mem, a)) && Decode(mem, a) == d
            && Cost(Cell(mem, a)) == VisitOf(k + 1) - VisitOf(k) && Cost(Cell(mem, a)) > 0
            && base < d.next && Wrap(d.next - base, 23) == Place(k + 1)
  {
    hide Stored, Cell, Decode, VmOp;
    DecodeSti(mem, base);
    DecodeAnd(mem, base);
    DecodeLone(mem, base);
    CostsAre();
    WrapIs(25, 23, 2);
    WrapIs(7, 23, 7);
    Remainder(k);
  }

  lemma Remainder(k: nat)
    ensures (k + 1) % 4 == if k % 4 == 3 then 0 else k % 4 + 1
  {
  }

  ghost predicate Standing(mem: seq<byte>, base: int, k: nat)
  {
    var t := Solo(mem, base, 23, 0, VisitOf(k));
    t.cycles == 0 && t.log == Instructions(mem, base, k) && Wrap(t.counter, 23) == Place(k)
  }

  lemma StandingNext(mem: seq<byte>, base: int, k: nat, i: nat)
    requires Stored(mem, base, Zork.CODE) && Standing(mem, base, k) && VisitOf(k) < VisitOf(k) + i <= VisitOf(k + 1)
    ensures Solo(mem, base, 23, 0, VisitOf(k) + i).log == Instructions(mem, base, k + 1)
    ensures VisitOf(k) + i == VisitOf(k + 1) ==> Standing(mem, base, k + 1)
  {
    hide Stored, Solo, Decode, Cell, Instruction, VisitOf, Wrap, Cost;
    AtPlace(mem, base, k);
    OneStep(mem, base, 23, VisitOf(k), Place(k), i);
  }

  /** Alone on zork's program a process executes these instructions for ever, and no others. */
  lemma {:induction false} ZorkSolo(mem: seq<byte>, base: int, k: nat)
    requires Stored(mem, base, Zork.CODE)
    ensures Standing(mem, base, k)
    ensures forall v | k > 0 && VisitOf(k - 1) < v <= VisitOf(k) ::
              Solo(mem, base, 23, 0, v).log == Instructions(mem, base, k)
    decreases k
  {
    hide *;
    if k == 0 {
      StandingFirst(mem, base);
    } else {
      ZorkSolo(mem, base, k - 1);
      VisitsGrow(k - 1);
      forall v | VisitOf(k - 1) < v <= VisitOf(k) ensures Solo(mem, base, 23, 0, v).log == Instructions(mem, base, k) {
        StandingNext(mem, base, k - 1, v - VisitOf(k - 1));
      }
      StandingNext(mem, base, k - 1, VisitOf(k) - VisitOf(k - 1));
    }
  }

  lemma StandingFirst(mem: seq<byte>, base: int)
    ensures Standing(mem, base, 0) && Solo(mem, base, 23, 0, 0).log == Instructions(mem, base, 0)
  {
  }

  lemma CodeSize()
    ensures |Zork.CODE| == 23
  {
  }

  lemma VisitsGrow(k: nat)
    ensures VisitOf(k) < VisitOf(k + 1) && VisitOf(0) == 0
  {
  }

  lemma StepOf(v: nat) returns (k: nat)
    ensures if k == 0 then v == 0 else VisitOf(k - 1) < v <= VisitOf(k)
  {
    hide VisitOf;
    VisitsGrow(0);
    k := 0;
    while VisitOf(k) < v
      invariant k == 0 || VisitOf(k - 1) < v
      invariant k <= VisitOf(k)
      decreases v - k
    {
      VisitsGrow(k);
      k := k + 1;
    }
  }

  /** In every state of every game, zork's process has executed `sti` once and then `and`,
      `live`, `zjmp` and a `live` with operand 21 in turn, as often as its visits pay for. */
  lemma ZorkInGame(mem: seq<byte>, champs: seq<Champ>, codes: seq<seq<byte>>, alu: Alu, n: nat, j: nat, i: nat)
    returns (k: nat)
    requires |mem| == MEM_SIZE && Entrants(champs, codes) && i < |codes| && codes[i] == Zork.CODE
    ensures Inv(Initial(mem, champs, codes))
    ensures var s := Initial(mem, champs, codes);
            Entry(s, alu, n).Some? ==>
              i < |Midway(s, alu, n, j).0.procs|
              && var q := Midway(s, alu, n, j).0.procs[i];
                 && q.log == Instructions(s.mem, Segment(|codes|) * i, k)
                 && if k == 0 then q.visits == 0 else VisitOf(k - 1) < q.visits <= VisitOf(k)
  {
    hide Inv, Entry, Midway, Autonomous, Loaded, Solo, VisitOf, Instructions, Segment, Zork.CODE, Linked, Standing;
    var s := Initial(mem, champs, codes);
    InitialOk(mem, champs, codes);
    InvBasics(s);
    InitialIs(mem, champs, codes, i);
    k := 0;
    if Entry(s, alu, n).Some? {
      var base := Segment(|codes|) * i;
      forall b | 0 <= b < |codes[i]| ensures Cell(s.mem, base + b) == codes[i][b] { LoadedByte(mem, codes, i, b); }
      var t := Midway(s, alu, n, j).0;
      NonInterference(s, alu, n, j);
      ProcAt(t, i);
      k := StepOf(t.procs[i].visits);
      CodeSize();
      StandingFirst(s.mem, base);
      ZorkSolo(s.mem, base, k);
    }
  }
}
