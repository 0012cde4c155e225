# Core War: a verified model of the virtual machine and its assembler

The repository holds a Core War virtual machine (`src/`) and an assembler (`assembler/`),
both in C. This project models the two programs as they are written and proves what follows
from the code, from source text to executed instructions and from the first sweep to the
announcement of a winner. `dafny verify dfyconfig.toml` checks everything.

## How it is built

Everything the C code does in place is imperative Dafny (classes with mutable fields, arrays,
loops), and every such method is proved equal to a function of its inputs or of the old state.
The theorems are about those functions, over all inputs and all runs.

| module | role |
|---|---|
| `Bytes`, `OpTable`, `Text`, `Wrappers` | integer layouts and byte sums, the two operation tables, character classes and `atoi`, an option type |
| `Decoder` | what the machine reads from memory, and the loops that read it |
| `Links` | successor tables: lists that close into a ring or a lasso |
| `Machine` | the machine's state, one visit of the scheduler to a process, the invariant |
| `Game` | sweeps, the life check, `game_on`, every state of every run |
| `Runs`, `Lives`, `Jumps` | termination with numeric bounds, live accounting, where forks land |
| `Independence`, `Forks`, `Schedule` | processes do not influence each other's course; what forks do over a run; who is visited how often |
| `Setup`, `Vm` | loading; the classes `Process`, `Champion`, `Core` with the methods of `src/` |
| `Symbols`, `Encoder`, `Lexer`, `Parser` | the assembler, spec functions and classes |
| `Lexemes`, `Printing` | what lines are made of and on which the parser returns; print and parse |
| `Drift`, `TwoPass` | what the two passes' different counting does to labels, in closed form |
| `RoundTrip`, `SourceNumbers`, `EndToEnd` | decoding what was encoded; which numbers of the source text survive; executing what was assembled |
| `Sample`, `Zork`, `ZorkRun` | concrete games, so that the assumptions are seen to be satisfiable; players/zork.s through the assembler and in a game |

A state (`Machine.State`) carries, besides the fields of the C structs, the history of each
process: its first counter, how often it was visited and which instructions it executed. In
`Vm.Core` the state is a ghost field that `Valid()` ties to the heap.

## What the code does, where that is surprising

* A lone operand (`live`, `zjmp`, `fork`, `lfork`, `aff`) is decoded from the bytes at offsets
  0, 1, 2 and 4: `build_operands` advances its cursor between the third and the fourth read
  (src/instructions.c:136-143). The low byte is lost and the byte after the instruction, in a
  program the next opcode, is added instead. `RoundTrip.LoneOperandExact` says for which
  operands and neighbours the value survives all the same, and
  `RoundTrip.LiveReadsNextOpcode` is an instance.
* The same instructions are always decoded as five bytes, but a lone label, as in
  `zjmp %:live`, is written in two: such an instruction takes three bytes and the machine
  reads on two cells too far (`RoundTrip.LoneBoundary`, `LoneLabelRunsOn`). Most of the
  champions in players/ contain one, and so are not well framed: zork's jump ends two cells
  behind its 23 bytes, so from the second round on it starts at offset 2 and executes a `live`
  in the place of its `sti` (`ZorkRun.ZorkInGame`).
* Other operands come back as the sum of their bytes, which is the assembled integer exactly
  in 0..255.
* The assembler skips the first character of every number. A number with a blank in front
  loses the blank, one behind `%` or `r` the mark, but a bare one a digit: `and %1,34,r1` is
  assembled with 4 for 34 (`SourceNumbers.BareNumberLosesDigit`).
  `SourceNumbers.NumberComesBack` and `LoneNumberComesBack` say exactly when the machine
  executes with the number of the text.
* `parse_line` never returns on a line with a character no token begins with: `live %-1`
  hangs the assembler, and so does a label that begins with `r` or a comment after `#`
  (`Lexemes.SomeLinesHang`, `Lexemes.ParseReturnsWhen`).
* `fork` and `lfork` clone the head process whoever executes them. A fork by another player's
  process cuts off exactly what is behind it in the list (`Forks.VisitDrops`), for good
  (`Forks.DroppedForever`), and turns the ring into a lasso on which `find_process` would not
  end for a player that is no longer there (`Machine.SearchEndsWhen`); it is never asked to.
* `zjmp` moves the champion's counter, which only forks read; no process ever jumps.
* A symbol is found by prefix: a later label that merely starts with the name wins
  (`Symbols.LongerLabelWins`).
* A sweep makes one step per champion from the head, however long the list has become. A fork
  of the head's player pushes all other processes back, and those pushed out of reach are
  never run again, although they are on the list (`Schedule.OutOfReachForever`, which covers
  dropped ones too by `Schedule.DroppedOutOfReach`): the first champion's first fork starves
  the last champion (`Schedule.FirstForkStarvesLast`).
* With nobody left alive a game runs on to its last check, and `find_winner` then announces
  an unused slot, or with four champions slot 0, whose champion is dead
  (`Runs.NobodyStays`, `Game.AnnouncedIsAlive`, `Game.NobodyWins`).
* The README of the repository asks for jumps, for clones of the forking process and for
  operands as numbers; the code is followed here.

## Standing assumptions

One to four champions with distinct identifiers, none of which occurs in an unused slot;
`lives` and `dead` start at zero; programs are not empty and fit their segments; nothing in
the last segment or behind a clone's start can run past the end of memory (`Setup.Entrants`:
thirteen spare cells in the last segment, at most 4600 bytes for the first champion, which two
or more champions always meet). Unloaded cells hold arbitrary bytes. `malloc` succeeds.
Operands used as register numbers are below 16, although decoded ones can be as large as
1020; beyond the registers the C code would write into the champion's other fields. Lines
of source hold no NUL character.

## Model

| member | source | states |
|---|---|---|
| OpTable.TablesAgree | src/op.c:3-25 | row i of the assembler's table and of the machine's table name the same instruction, with opcode i + 1 and the same number of arguments, no mnemonic occurs twice, and the argument-type masks differ exactly for live, fork and lfork |
| OpTable.CostsAre | src/op.c:3-25 | the cost in cycles of each of the sixteen opcodes, and the opcodes of `live`, `zjmp`, `fork` and `lfork` |
| OpTable.MnemonicToOpType | assembler/encoder.c:86-93 | the scan ends at a row that carries the mnemonic, for every known mnemonic |
| Bytes.BigEndianSum | src/instructions.c:97-103 | the byte sum of a written word is the word modulo 255, at most 1020, and the unsigned word itself exactly below 256 |
| Bytes.TwoBytesSum | assembler/encoder.c:13-19 | the same for the two-byte form, and the two bytes are zero exactly when the low half is |
| Text.Classes | assembler/tokenizer.c:3-12 | blanks, digits, letters and word characters, character by character |
| Decoder.HexToBinary | src/instructions.c:41-47 | bit k of the array is binary digit 7 - k of the byte |
| Decoder.BuildArgTypes | src/instructions.c:64-95 | type k of the result is the meaning of descriptor field k, unassigned for 00 |
| Decoder.BuildOperands | src/instructions.c:105-148 | operands and end address of any instruction all of whose cells are in memory, all four operand kinds, the two-zero-bytes test and the skipped byte of lone operands included |
| Decoder.FieldsAre | src/instructions.c:64-95 | the four descriptor fields are the byte's digits in base four, for every byte |
| Decoder.OperandsStep | src/instructions.c:113-130 | what each field makes of the bytes there, wherever they come from: width, value, and nothing at all for 00 |
| Encoder.WriteBigEndianBytes | assembler/encoder.c:3-11 | the shifting loop leaves the base-256 digits of a two's complement word, most significant first |
| Encoder.Writer.EncodeDirect | assembler/encoder.c:44-66 | label displacement, nonzero number in two bytes, zero in four; the address grows by the bytes written |
| Encoder.Writer.EncodeParameterDescription | assembler/encoder.c:69-84 | the descriptor byte holds the codes of all arguments in its fields |
| Encoder.Writer.EncodeInstruction | assembler/encoder.c:117-144 | bytes and new address of one instruction, from any address |
| Encoder.Writer.Assemble | assembler/compiler.c:3-11 | the whole output, with the address threaded through |
| RoundTrip.ArgRoundTrip | src/instructions.c:114-130 | the decoder finds the end of an encoded argument if and only if it is framed, and then reads the sum of its bytes |
| RoundTrip.ArgExact | src/instructions.c:97-103 | the integer the assembler made of an argument is read back if and only if it is in 0..255; otherwise modulo 255 |
| RoundTrip.DescriptorFields | assembler/encoder.c:69-84 | each field of the descriptor written by the assembler reads back as that argument's code, and as zero behind the last |
| SourceNumbers.CodesByShape | assembler/encoder.c:69-84 | the descriptor code by the shape of the operand's text |
| RoundTrip.LineRoundTrip | src/instructions.c:105-148 | decoding an encoded well-framed instruction yields its opcode, its operands' byte sums and its end |
| RoundTrip.LoneBoundary | src/instructions.c:132-146 | the end of an instruction with a lone operand is found if and only if it is well framed; otherwise it is three bytes long and decoded as five |
| RoundTrip.LineBoundaries | src/instructions.c:105-131 | all operand boundaries of an instruction with several operands are recovered if and only if it is well framed |
| RoundTrip.LoneLabelRunsOn | src/instructions.c:132-146 | a lone digit-free label is written in three bytes and decoded as five |
| RoundTrip.LoneOperandExact | src/instructions.c:132-146 | a lone operand assembled from 0..255 is read as the byte after the instruction; any lone operand, labels with a digit included, is read back if and only if it equals that byte, or is 256 before 255 |
| RoundTrip.LiveReadsNextOpcode | src/instructions.c:132-146 | a concrete well-framed program whose `live %1` executes with operand 9 |
| RoundTrip.StreamRoundTrip | src/instructions.c:105-148 | the bytes of a whole program, anywhere in memory, decode instruction by instruction at the offsets at which they were written |
| RoundTrip.OperandExact | src/instructions.c:114-130 | in an instruction with several arguments the integer assembled for operand i is read back if and only if it is a byte |
| SourceNumbers.NumberComesBack | assembler/encoder.c:21-66 | of several operands, the machine reads the number named in the source text if and only if it is in 0..255 and, when bare, does not begin with 1 to 9 |
| SourceNumbers.LoneNumberComesBack | src/instructions.c:132-146 | a lone operand is read as the number in the source text if and only if that is the byte after the instruction, or is 256 before 255 and loses no digit |
| SourceNumbers.AtoiDecimal | assembler/encoder.c:21-33 | decimal round trip: every number, written in decimal, with blanks or a sign in front, is read back by `atoi` |
| SourceNumbers.DecimalsEncoded | assembler/encoder.c:21-66 | what is written for every number in decimal, as a register, direct, with blanks in front, and standing alone |
| SourceNumbers.DecimalsComeBack | src/instructions.c:105-131 | of several operands, registers, direct numbers and numbers with blanks in front execute with the number written exactly below 256, bare and negative ones only when it is 0 |
| SourceNumbers.LoneDecimalsComeBack | src/instructions.c:132-146 | a lone number in decimal executes as written if and only if it is the byte after the instruction, or 256 before 255 and not bare |
| SourceNumbers.StrayLabelIsZero | assembler/encoder.c:57-61 | a stray label of one character as a lone operand becomes two zero bytes |
| SourceNumbers.SeenExecutes | src/instructions.c:105-148 | what a well-framed line makes the machine execute: opcode, every number exactly when it comes back, labels with a digit as zero or the following byte, other labels as the byte sum of their displacement |
| SourceNumbers.AsWritten | src/instructions.c:105-148 | a well-framed line whose operands all name numbers is executed as written if and only if each of them comes back |
| SourceNumbers.BareNumberLosesDigit | assembler/tokenizer.c:65-76 | `and %1,34,r1` parses to these three operands and executes with 1, 4 and 1 |
| Links.OrbitShape | src/process.c:17-65 | the nodes met from the head form a finite lasso without duplicates |
| Links.OrbitUnique | src/process.c:34-46 | any path with that shape is the list of reachable nodes |
| Links.SpliceAtHead | src/process.c:63-65 | a node linked in after the head becomes second, nothing is lost, a ring stays a ring |
| Links.SpliceFurther | src/process.c:63-65 | a node linked in at a later position cuts off everything behind and closes onto the node after the head |
| Machine.FindsOwner | src/champion.c:116-123 | `find_champion` finds the champion a process belongs to, in every state of the invariant |
| Machine.FindChampionIs | src/champion.c:116-123 | `find_champion` finds the first slot with the identifier, and slot 0 when there is none |
| Machine.FindsSelf | src/process.c:34-46 | a running process's search finds the head if it is of the head's player, and otherwise itself |
| Machine.SearchEndsWhen | src/process.c:34-46 | `find_process` ends if and only if the player owns a reachable process or the list is a ring |
| Machine.AttachShape | src/operations/inst_fork.c:10-23 | fork shape: by the head's player, all reachable processes and one more, closing link unchanged; by any other process, exactly the processes up to it and the clone, closing onto the process after the head |
| Machine.VisitKeepsInv | src/instructions.c:232-251 | every visit keeps the invariant, and the process and its new successor are reachable afterwards |
| Machine.WrapIs | src/instructions.c:240-242 | where a process goes on: the counter modulo the code size, in the code, for counters behind its end too |
| Game.SchedulerSafe | src/instructions.c:232-251 | in every state of every run, also mid-sweep: well-linked list, clones of the head's player only, at most one reachable process for any other player, searches end at the right player, and the process whose turn it is is on the list |
| Game.AddressBounds | src/instructions.c:97-148 | in every such state champion counters are in [0,512), clones start at most at 1531, and every cell any process can touch is in memory |
| Game.EarlyReturnOnlyAtLast | src/champion.c:125-149 | the running count is one at a living champion if and only if it is the last and all before it are dead |
| Game.CheckExact | src/game.c:31-55 | a check is made exactly with 40 lives or cycles up to the time to die; then cycle_to_die shrinks by 5, cycles, lives and every champion's counter become zero, a spared champion is the winner so far, and the game is over exactly with one champion left or no time to die; otherwise nothing changes |
| Game.Survivors | src/champion.c:125-149 | who survives a check, both directions; the dead stay dead with their count, survivors restart at zero, a spared last champion is the only one left |
| Game.NobodyLeft | src/champion.c:125-149 | the check leaves nobody alive if and only if the last champion was dead already and no living one had lives |
| Game.WinnerIsSurvivor | src/game.c:6-13 | with one champion left, the announced winner is that champion, whatever unused slots hold |
| Game.AnnouncedIsAlive | src/game.c:6-13 | the announced slot is the first living champion's if and only if somebody is alive; otherwise the first unused slot, when there is one that is not dead, and slot 0 when there is none |
| Game.NobodyWins | src/game.c:6-13 | a concrete table of three champions on which the check leaves nobody alive and the unused slot is announced |
| Runs.LiveAccounting | src/operations/inst_live.c:4-27 | on every entry of `game_on` the machine's live counter is the lives all champions gained since the last check, nobody died in between, and it is at most 39 plus the number of champions |
| Runs.ChecksWhenDue | src/game.c:36-43 | between two entries cycle_to_die falls by 5 if and only if the champions gained at least 40 lives since the last check or the cycles since then reached it |
| Runs.GameEnds | src/game.c:31-67 | every game ends within 308 checks and 236698 sweeps, with cycle_to_die = 1536 - 5 per check; before check 308 only with a unique survivor, who is the announced winner; at check 308 a living champion is announced if and only if there is one |
| Runs.NeverOneLeft | src/game.c:44-48 | no sweep is ever made with exactly one champion left |
| Runs.EndsAtFirstSurvivor | src/game.c:44-52 | a game ends with the first check that leaves exactly one champion or no time to die |
| Runs.NobodyStays | src/game.c:31-67 | once nobody is left alive the game runs on until cycle_to_die is used up, with nobody alive |
| Runs.PlayIsRun | src/game.c:57-67 | the outcome is that of iterating the loop: after its number of sweeps, and not before, `game_on` says over |
| Runs.ScalarsBounded | src/game.c:31-55 | nbr_cycles never exceeds 5536 on entry of `game_on`, and cycle_to_die is positive there |
| Lives.LivesAreExecuted | src/operations/inst_live.c:4-27 | in every run a champion's lives are what the last check left it plus the `live` instructions its own processes executed since |
| Lives.StarvedGainsNoLives | src/process.c:48-65 | a champion other than the first whose only process is out of reach, dropped or pushed back by forks of others, executes no `live` ever again |
| Lives.StarvedDies | src/champion.c:125-149 | such a champion is dead after the second life check that follows, unless that check spares it as the last |
| Jumps.CounterZeroUntilJump | src/game.c:25-29 | from a life check, or the start, on a champion's counter is zero in every state until one of its processes executes `zjmp` |
| Jumps.ForkLandsAtOperand | src/operations/inst_fork.c:10-23 | until then its `fork` puts the clone at the operand modulo 512 and its `lfork` at the operand |
| Independence.VisitProcs | src/instructions.c:197-251 | a visit steps one process by a function of memory, index and code size, leaves all others as they are, and adds at most newborn ones |
| Independence.NonInterference | src/instructions.c:197-251 | in every state of every run each process has the counter, waiting time and history it would have alone after as many visits |
| Independence.SoloWindow | src/instructions.c:97-148 | that course depends only on the code segment and the thirteen cells behind it |
| Forks.AttachDrops | src/operations/inst_fork.c:10-23 | linking in a clone drops a process if and only if the forking process is not of the head's player and the dropped one comes after it on the list |
| Forks.VisitDrops | src/instructions.c:197-230 | a visit drops a process if and only if it executes `fork` or `lfork`, the process visited is not of the head's player, and the dropped one comes after it; no other instruction drops anybody |
| Forks.DroppedForever | src/operations/inst_fork.c:14-21 | a process that is no longer reachable stays unreachable and unchanged in every later state |
| Forks.VisitOnChampions | src/operations/inst_zjmp.c:10-21 | what a visit changes of champions and scalars: counter only by `zjmp` with the carry set, lives and winner only by `live`, only of the owner, cycles by the cost, or by ten exactly when the process is not waiting and its byte is zero |
| Forks.VisitClones | src/operations/inst_lfork.c:9-28 | processes are born exactly by `fork` and `lfork`, one each, with index and counter as computed from the champion's and the head's counter |
| Schedule.VisitsMade | src/instructions.c:232-251 | after n sweeps and j steps the visits of all processes together are one per champion and sweep plus j, and the head has at least one per sweep |
| Schedule.CyclesAreSpent | src/instructions.c:197-251 | conservation of cycles: over a sweep nbr_cycles grows by one and by the price of every visit, the executed instruction's cost or ten for a zero byte |
| Schedule.QuietSweep | src/instructions.c:232-251 | a sweep in which nothing forks visits exactly the first processes of the list, as many as there are champions, once each |
| Schedule.VisitedOncePerSweep | src/instructions.c:232-251 | until the first fork of a game every process is visited exactly once in each sweep |
| Schedule.VisitLinks | src/operations/inst_fork.c:10-23 | a visit changes the list if and only if it executes a fork, and then by one node after the head or after the visited process |
| Schedule.OutOfReachForever | src/instructions.c:232-251 | a process that is not among the first as many as there are champions is never run again, whatever forks follow |
| Schedule.ForkPushesBack | src/process.c:48-65 | a fork of the head's player pushes every other process one place back |
| Schedule.FirstForkStarvesLast | src/process.c:48-65 | when the first fork of a game is the first champion's, the last champion's process is out of reach from the next sweep on |
| Setup.LoadedByte | src/vm.c:65-72 | byte j of program i is at offset j of segment i after all programs are loaded |
| Setup.LoadedElsewhere | src/vm.c:65-72 | a cell in no program's part of its segment is unchanged |
| Setup.SegmentsAre | src/vm.c:65-72 | the segment sizes for one to four champions |
| Setup.InitialIs | src/process.c:17-32 | process i of a new game: at the start of segment i, of champion i, nothing counted, 1536 cycles to die |
| Setup.InitialOk | src/process.c:17-32 | loading and building processes yields a ring that satisfies the invariant, with nothing executed |
| Vm.Core.AddChampion | src/vm.c:52-63 | the record in the next slot, with its rank as identifier when it had none, the identifier in the first register and the slot's colour |
| Vm.Core.LoadInstructions | src/vm.c:65-72 | the nested loops leave exactly the loaded memory |
| Vm.Core.BuildProcesses | src/process.c:17-32 | fresh distinct nodes, one per champion at the start of its segment, linked in a ring |
| Vm.Core.Start | src/parse_args.c:50-51 | the machine then stands for the initial state of the game |
| Vm.Core.FindChampion | src/champion.c:116-123 | the scan returns the first slot with the identifier, slot 0 otherwise |
| Vm.Core.FindProcess | src/process.c:34-46 | the pointer walk ends and returns the first node of the player on the list, the head of a ring without one |
| Vm.Core.InstLive | src/operations/inst_live.c:16-27 | the state after `live`, heap and counters |
| Vm.Core.InstZjmp | src/operations/inst_zjmp.c:10-21 | the state after `zjmp` |
| Vm.Core.InstFork | src/operations/inst_fork.c:10-23 | a new node, a clone of the head, linked in; all other nodes as before |
| Vm.Core.InstLfork | src/operations/inst_lfork.c:9-28 | the same without the modulus and with its own counter |
| Vm.Core.RunInstruction | src/instructions.c:197-230 | skipping, cycles for a zero opcode, decoding, execution and the address handed back, without leaving memory |
| Vm.Core.RunInstructions | src/instructions.c:232-251 | one sweep is exactly as many visits as there are champions, along the list as it changes |
| Vm.Core.CheckChampionLives | src/champion.c:125-149 | the loop with its early return computes the judged table, returns the number of champions alive in it, and names the spared champion |
| Vm.Core.FindWinner | src/game.c:6-13 | the first slot that is not dead, slot 0 otherwise |
| Vm.Core.GameOn | src/game.c:31-55 | the new state and whether the game is over |
| Vm.Core.RunGame | src/game.c:57-67 | the loop ends, in the final state and after the number of sweeps of the outcome |
| EndToEnd.SoloRuns | src/instructions.c:197-251 | a process on a well-framed program executes it over and over, each instruction at the visit that is the sum of the earlier costs, and nothing in between |
| EndToEnd.ProgramRuns | src/instructions.c:197-251 | in every state of every game the process of a champion with an assembled program has executed that program's instructions cyclically, as many as its visits pay for, each operand with the number of its source text if and only if that comes back; visits are at least one per sweep for the first process, and exactly one for each until the first fork |
| EndToEnd.AssembledProgramRuns | assembler/encoder.c:117-144 | the same from the assembler's output, loaded beside any other programs |
| EndToEnd.SourceTextRuns | assembler/parser.c:78-100 | the same from any lines of source text on which the first pass ends, through both passes |
| Symbols.SymbolTable.AddSymbol | assembler/lookup_symbol.c:6-12 | the new symbol comes first, all others stay |
| Symbols.SymbolTable.LookupSymbol | assembler/lookup_symbol.c:15-26 | the list walk returns the address of the most recent symbol that starts with the query, else -1 |
| Symbols.LookupIsLastWrite | assembler/lookup_symbol.c:15-26 | prefix search is last write, for all addresses, if and only if no longer label shadows the name |
| Symbols.LongerLabelWins | assembler/lookup_symbol.c:15-26 | with `loop2` added after `loop`, looking for `loop` finds the address of `loop2` |
| Symbols.ExactIsLastWrite | assembler/lookup_symbol.c:6-12 | searching for the whole name is looking it up in a map written in order |
| Symbols.PrefixFreeNeverShadows | assembler/lookup_symbol.c:15-26 | when the name is a proper prefix of no label, the search agrees with last write |
| Lexer.Cursor.LexToken | assembler/tokenizer.c:3-129 | the cursor loops return the token and the position the lexing function gives |
| Lexer.LexShift | assembler/tokenizer.c:3-12 | lexing in the middle of a line is lexing the rest of it |
| Lexer.Progress | assembler/tokenizer.c:3-129 | every token but the end of the line and the unrecognised character takes input; the end is reported exactly when only blanks are left |
| Lexemes.LexDirective | assembler/tokenizer.c:19-44 | a directive takes the rest of the line; its text is what follows the keyword, cut to 49 characters, or else the keyword |
| Lexer.Stuck | assembler/tokenizer.c:111-128 | at an unrecognised character the lexer returns the same token forever |
| Lexemes.LoopReturnsWhen | assembler/parser.c:63-72 | the argument loop ends if and only if the rest of the line is a concatenation of lexemes up to its end or a comment, and loops for ever if and only if it is one up to an unrecognised character |
| Lexemes.ParseReturnsWhen | assembler/parser.c:31-76 | the same for `parse_line` on any line `fgets` delivers |
| Lexemes.FirstPassReturnsWhen | assembler/parser.c:78-100 | the first pass ends if and only if every line of the file is such a concatenation |
| Lexemes.HangsAfterWord | assembler/parser.c:63-72 | a mnemonic, blanks and an unrecognised operand: `parse_line` does not return |
| Lexemes.SomeLinesHang | assembler/tokenizer.c:111-128 | `live %-1`, a label `run:` and a comment after `#` as concrete lines on which it does not return |
| Parser.Header.ParseLine | assembler/parser.c:31-76 | the parsed line, the bytes added to the size and the symbol added, on every line on which the C function returns |
| Parser.Header.ParseContents | assembler/parser.c:78-100 | size, program and symbol table after the first pass |
| Parser.AbsorbCases | assembler/parser.c:78-100 | what a line adds to table, address and program: a label on a line without instruction is added twice |
| Printing.PrintThenParse | assembler/parser.c:31-76 | a printed line, with or without label, instruction, directive and comment, with blanks or commas between any number of operands, parses back to its label, mnemonic and first three operands and adds its nominal size; an operand comes back identically if and only if it is no number or has no blanks directly in front |
| TwoPass.AddressLaw | assembler/encoder.c:117-144 | bytes written = second-pass address + uncounted opcode bytes, after every instruction; the address is zero only while no instruction had operands |
| TwoPass.UncountedIs | assembler/encoder.c:124-126 | from the first instruction with an operand on, the uncounted bytes are one for it and one for each before it |
| TwoPass.DriftLaw | assembler/parser.c:78-100 | first-pass address at any line of any source = bytes the second pass will have written there + the drift of the instructions before + stray operands on lines without an instruction before the last of these |
| TwoPass.LookupFinds | assembler/parser.c:90-94 | the table answers with the first-pass address of the last line whose label starts with the query, duplicates included |
| TwoPass.LabelDisplacement | assembler/encoder.c:48-51 | two-pass law for every source: the two bytes of every digit-free label operand in the output, as final offset of the label's line + drift there - offset of the operand + 1 + instructions before the first with an operand |
| TwoPass.OrdinarySource | assembler/parser.c:78-100 | on lines of source with labels, instructions, directives and comments the first pass ends, finds exactly their instructions, counts nothing stray, and the drift is a count over the shapes of their operands |
| TwoPass.SourceDisplacement | assembler/encoder.c:48-51 | the two-pass law with that count |
| Sample.SampleGame | src/game.c:57-67 | a concrete two-champion game meets every assumption of the theorems about runs, and in each of its states both processes have cycled through their assembled programs as often as their visits pay for |
| Sample.SecondDropsThird | src/operations/inst_fork.c:14-21 | a concrete game of three in which the second champion's fork drops the third's process |
| Zork.ZorkAssembled | players/zork.s:1-8 | the file is an ordinary source; its four instructions, the two displacements written for its labels, and that its jump is misframed |
| Zork.ZorkBytes | players/zork.s:1-8 | the 23 bytes the assembler writes for the file |
| ZorkRun.AtPlace | src/instructions.c:105-148 | what is decoded at each place in those bytes, its cost, and where the process goes on: at offset 2 after the jump |
| ZorkRun.ZorkInGame | src/instructions.c:197-251 | in every state of every game with zork its process has executed `sti` once and then `and`, `live`, `zjmp` and a `live` with operand 21 in turn, as often as its visits pay for |
| Drift.DriftIs | assembler/parser.c:15-29 | closed form: for every line on which the parser returns with an instruction, nominal bytes = bytes written + a count over the kinds and shapes of its operands |
| Drift.StatementDriftIs | assembler/parser.c:15-29 | for a printed line, labelled or not, that count over the operands' texts alone |

## Left out

- File reading and writing, headers, option handling, `fgets` line splitting and the `.name` and `.comment` texts: a program is a sequence of lines, the output a sequence of bytes.
- Printing, colours, memory dumps and `delay`; `game_on`'s `dump` branch only prints.
- Registers after `add_champion`, the separate `memory` array and the twelve arithmetic and transfer operations: they act on nothing else this model follows but the carry, which is left arbitrary after each operation that writes it, for every sweep and step (`lld` and `sti` set it from operands, which the model does not use).
- The process fields `carry`, `life`, `dead`, `color` and `prev` and the champion's header, which nothing modelled reads.
- Values of operands whose descriptor bits are 00: the C code leaves them uninitialised; here they are `None`.
- Memory cells as hexadecimal strings: a cell is the byte it spells. `split_binary` and its two-character strings are folded into the bits.
- Integer overflow: C ints are unbounded integers here; `Runs.ScalarsBounded` keeps the game's scalars small, and byte order of the target is taken to be little-endian in `encode_direct`'s last branch.
- `atoi` outside the range of a C int, tokens longer than their buffers, more than 1536 instructions, unknown mnemonics: undefined in the C code, excluded by preconditions.
- Lexemes.ParseReturnsWhen: a line with a line feed inside, which `fgets` does not deliver; there a comment right after a label does not end the line.
- Vm.Core.RunInstruction: the case of an instruction that reaches behind the end of memory, which is undefined in the C code and excluded by `Setup.Entrants`.
- Symbols.SymbolTable.AddSymbol: list nodes are immutable objects, since nothing changes a symbol once it is added.
- Dead code: `add_champion_to_core`, `add_instructions_to_core`, `clone_champion`, the `inst` arrays.
