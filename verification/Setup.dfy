/** Loading the champions and building the first processes (src/vm.c, src/process.c). */
module Setup {
  import opened Bytes
  import opened OpTable
  import opened Decoder
  import opened Links
  import opened Machine
  import opened Independence

  /** Memory after loading: byte `j` of program `i` at offset `j` of segment `i`. */
  function Loaded(mem: seq<byte>, codes: seq<seq<byte>>): (r: seq<byte>)
    requires 1 <= |codes| <= 4
    ensures |r| == |mem|
  {
    var seg := Segment(|codes|);
    seq(|mem|, a requires 0 <= a < |mem| =>
      if a / seg < |codes| && a % seg < |codes[a / seg]| then codes[a / seg][a % seg] else mem[a])
  }

  /** The first processes: one per champion, at counter 0 of its segment, in a ring. */
  function FirstProcs(champs: seq<Champ>, count: nat): (r: seq<Proc>)
    requires 1 <= count <= 4 == |champs|
    ensures |r| == count
  {
    seq(count, i requires 0 <= i < count => Proc(0, champs[i].id, Segment(count) * i, 0, 0, 0, []))
  }

  function Ring(count: nat): (r: seq<nat>)
    ensures |r| == count
  {
    seq(count, i requires 0 <= i < count => if i + 1 < count then i + 1 else 0)
  }

  /** What is asked of the command line: one to four champions with identifiers of their own,
      each with a program that fits its segment; no instruction may reach behind the end of
      memory, neither from the last segment nor from where a clone of the first champion's
      process can be put. */
  ghost predicate Entrants(champs: seq<Champ>, codes: seq<seq<byte>>)
  {
    var n := |codes|;
    && 1 <= n <= 4 == |champs|
    && DistinctIds(champs, n)
    && (forall i | 0 <= i < n :: 0 < |codes[i]| <= Segment(n) && champs[i].size == |codes[i]|)
    && (forall i | 0 <= i < n :: champs[i].counter == 0 && champs[i].lives == 0)
    && |codes[n - 1]| + 13 <= Segment(n)
    && |codes[0]| + IDX_MOD + 1020 + 13 <= MEM_SIZE + 1
  }

  lemma EntrantsFit(champs: seq<Champ>, codes: seq<seq<byte>>)
    requires Entrants(champs, codes)
    ensures 1 <= |codes| <= 4 == |champs|
    ensures forall i | 0 <= i < |codes| :: |codes[i]| <= Segment(|codes|)
  {
  }

  /** `build_processes` on a loaded machine. */
  function Built(mem: seq<byte>, champs: seq<Champ>, count: nat): State
    requires 1 <= count <= 4 == |champs|
  {
    State(mem, champs, count, FirstProcs(champs, count), Ring(count), 0, CYCLE_TO_DIE, 0, 0, 0)
  }

  function Initial(mem: seq<byte>, champs: seq<Champ>, codes: seq<seq<byte>>): State
    requires 1 <= |codes| <= 4 == |champs|
  {
    Built(Loaded(mem, codes), champs, |codes|)
  }

  /** The sizes of the segments. */
  lemma SegmentsAre()
    ensures Segment(1) == 6144 && Segment(2) == 3072 && Segment(3) == 2048 && Segment(4) == 1536
  {
  }

  /** The initial state: process `i` at the start of segment `i`, for champion `i`, with
      nothing counted yet and 1536 cycles to die. */
  lemma InitialIs(mem: seq<byte>, champs: seq<Champ>, codes: seq<seq<byte>>, i: nat)
    requires 1 <= |codes| <= 4 == |champs| && i < |codes|
    ensures var s := Initial(mem, champs, codes);
            && s.champs == champs && s.count == |s.procs| == |codes|
            && s.procs[i] == Proc(0, champs[i].id, MEM_SIZE / |codes| * i, 0, 0, 0, [])
            && s.cycles == 0 && s.cycleToDie == 1536 && s.lives == 0 && s.winner == 0
  {
  }

  lemma SegmentCell(count: nat, i: nat, j: nat)
    requires 1 <= count <= 4 && i < count && j < Segment(count)
    ensures 0 <= Segment(count) * i + j < MEM_SIZE
    ensures (Segment(count) * i + j) / Segment(count) == i && (Segment(count) * i + j) % Segment(count) == j
  {
    ModUnique(Segment(count) * i + j, Segment(count), i, j);
  }

  /** Segments are disjoint: byte `j` of program `i` is in memory, whatever the others are. */
  lemma LoadedByte(mem: seq<byte>, codes: seq<seq<byte>>, i: nat, j: nat)
    requires |mem| == MEM_SIZE && 1 <= |codes| <= 4
    requires i < |codes| && j < |codes[i]| <= Segment(|codes|)
    ensures Cell(Loaded(mem, codes), Segment(|codes|) * i + j) == codes[i][j]
  {
    SegmentCell(|codes|, i, j);
  }

  ghost predicate Covers(codes: seq<seq<byte>>, i: nat, a: int)
    requires i < |codes| <= 4
  {
    Segment(|codes|) * i <= a < Segment(|codes|) * i + |codes[i]|
  }

  /** A cell no program covers is unchanged. */
  lemma LoadedElsewhere(mem: seq<byte>, codes: seq<seq<byte>>, a: nat)
    requires a < |mem| == MEM_SIZE && 1 <= |codes| <= 4
    requires forall i | 0 <= i < |codes| :: !Covers(codes, i, a)
    ensures Cell(Loaded(mem, codes), a) == mem[a]
  {
    var seg := Segment(|codes|);
    var i := a / seg;
    assert a == seg * i + a % seg;
    if i < |codes| { assert !Covers(codes, i, a); }
  }

  lemma RingOrbit(count: nat)
    requires 1 <= count <= 4
    ensures Closed(Ring(count))
    ensures Orbit(Ring(count)) == seq(count, i => i) && Closing(Ring(count)) == 0
  {
    var path: seq<nat> := seq(count, i => i);
    assert path[0] == 0;
    OrbitUnique(Ring(count), path);
  }

  /** Every game starts in a state that satisfies the invariant, with its processes in a
      ring and nothing executed. */
  lemma InitialOk(mem: seq<byte>, champs: seq<Champ>, codes: seq<seq<byte>>)
    requires |mem| == MEM_SIZE && Entrants(champs, codes)
    ensures var s := Initial(mem, champs, codes); Inv(s) && Autonomous(s) && Closing(s.links) == 0
  {
    hide Orbit;
    var s := Initial(mem, champs, codes);
    RingOrbit(|codes|);
    forall i | 0 <= i < |codes| ensures ChampOk(s.champs[i]) {}
    forall p | 0 <= p < |s.procs| ensures ProcOk(s, p) && ProcAlone(s, p) {}
  }
}
