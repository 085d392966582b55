# Verified models of the pseudocode compiler and its tools

This project models, in Dafny, the parts of the repository that are hardest to
get right, and proves what they promise. `dafny verify dfyconfig.toml` checks it.

* **The cooperative-task compiler.** One statement tree (`Script`) is lowered
  three ways: to a resumable state machine with case labels inside nested blocks
  (`TaskCode`), to a generator (`Generator`) and to blocking C (`Blocking`).
  `Structured` gives generators and blocking code a step-by-step meaning;
  `TaskCode` gives the state machine one, with a mode that seeks a label and a
  mode that runs. `Simulation` relates one dispatch to one resume, `Scheduler`
  relates whole round-robin runs of any number of scripts, `RoundRobin` runs the two
  programs with their statics and task list, `Targets` removes the
  assumption that both sides count and tell time in the same words, `Timely` and
  `Pacing` derive what that takes from what can be seen from outside a run, and
  `LoneScript` relates the task form of a single script to its blocking form.
  `Meaning` says what a script means on the statement tree alone, with no word of
  any compiled form; `MeaningKept` holds the task and generator programs against it
  and `LoneMeaning` the blocking program.
  Leaf statements, conditions, REPEAT counts and WAIT amounts stay
  uninterpreted: a `Machine` says what they do, and every reading of an input or
  of the clock consumes from an environment, so both sides must also read in the
  same order. The log of a run holds every leaf statement done and every wait begun,
  with the amount it read.
* **The two languages' expressions and blocks.** `Expressions` and `ExprParser`
  hold the precedence-climbing parser against the pseudocode printer,
  `Grammar` shows that the parser accepts exactly a grammar with every bracket
  written out, and `CExpressions` holds the C printer against C's own grammar.
  `Blocks` holds the indentation parser against the block printer, `Layout` says
  which lines it takes at any widths of indentation, and `Indentation` which it
  refuses, and that only the order of the indents counts.
* **The 8051 disassembler.** `Mcs51` is the instruction table with an assembler
  to hold it against; `Disassembler` is the sweep and its search for a fixed
  point. Branch targets are told from the operand fields of an instruction, not
  from its name.
* **Run-time code and build tools.** `Matrix`, `Keypad`, `Lists`, `Limiter`,
  `IntelHex`, `EspImage`, and `SketchMask` with `Sketch` model one component each;
  `HexFile` says what an Intel HEX file holds from its characters on, `ElfBytes`
  follows an ELF file's bytes into the flash image, `MaskModes` tells the masking one
  character at a time, and `SketchScan` and `SketchPlaces` say which functions and
  statements a sketch has and where the prototypes go, by counting brackets in it.
  `CppReader`, `SketchLines`, `SketchCases` and `MaskReading` hold a prepared sketch
  against a compiler's reading of it. What the
  source does by updating fields, arrays and dictionaries is a class or a method
  here, tied by its `ensures` to functions whose properties the lemmas prove.

Where the code does not meet the plain claim, the exact condition is proved:

* `Expressions.RoundTrip`: the tree comes back if and only if it is `Clear`;
  `NotOnTheLeft` is a tree that does not. The simpler condition that `not` never
  stands on the left of a comparison or arithmetic operator is sufficient
  (`NotNeverLeftIsClear`), not necessary.
* `CExpressions.CReadsTheSameTree`: if and only if no `=` or `!=` stands
  unbracketed on the left of a relational operator; `EqualityOnTheLeft` shows why.
* `IntelHex.RoundTrip`: if and only if the last record starts below 65536, which
  every blob with origin + length at most 65536 meets and some longer ones do too.
* `Targets.WrappedDeadline` and `Targets.LatchesAgree`: exactly which distances
  to a deadline the C words and the Pico's ticks get right, and which REPEAT counts
  the C words do, whatever their widths. At exactly half the counter the two clock
  tests differ: C still reads a wait that long, `ticks_diff` still reads one that
  has been over that long.
* `SketchLines.LinesKept` and `SketchLines.SketchKept`: when every sketch line
  compiles under its own number. `CppReader` reads the prepared text as a C++
  compiler does: spliced lines, comments, literals, raw strings, conditional
  groups and `#line`, with the outcomes of the conditions left open
  (ISO/IEC 14882, [lex.phases], [cpp.cond] and [cpp.line]). The numbers are right
  if and only if each line of the sketch at which a function wants its prototype,
  the base line or the line after a type, is read by the compiler outside
  comments, raw strings and skipped groups; "only if" leaves out a wanted line that
  continues the one before by a backslash. The source's documentation
  (arduino_build.py:335-337) promises it for every sketch.
  `SketchCases.InsideAComment` and `SketchCases.InsideAGroup` are sketches that
  fail it. The masking alone does not tell: it takes a function inside `#if 0` for
  code. `MaskReading.MaskAgrees` gives a class of sketches in which its view of
  comments, literals and directives is the compiler's: no spliced code, no
  directive that leaves a comment or a raw string open, no prefixed or multi-line
  literal, every comment closed.
* `SketchSplits.WantedSplits`: exactly when a line at which a prototype is wanted
  lies inside a statement that began on an earlier line. The source says it puts
  prototypes before statements (arduino_build.py:344-346); it goes by lines, and
  `SketchSplits.InsideAStatement` is a sketch whose declaration is cut in two.
* `EspImage.AcceptedIff` and `AcceptedIffDisjoint`: exactly which programs get an image.

Hypotheses that stay, because the back ends really differ without them: REPEAT
counts that the target's `unsigned int` can hold (0 to 65535 where it has 16
bits); polls less than half a counter away from the deadline (32768 ms for a
16-bit clock, about six days for the Pico's ticks); all widths are parameters;
fewer than 65535 yields in a script, so that the stop state is not a label.
`Pacing.BackEndsAgreeWhenPaced` replaces the condition on every poll by what a
caller can see to: a clock that is never set back (`Forward`), no negative wait and
none longer than half the clock (`Modest`), and no two scheduler passes in a row
that take as long (`Brief`). For the lone script: readings depend only on the
variables (`Steady`), no REPEAT changes its own count (`CountsKept`), and, where the
task form or the script has to catch up with the blocking program, the clock keeps
advancing (`ClockRuns`).

## Model

| member | source | states |
|---|---|---|
| TaskCode.Emitter.StmtsTask | stc_pseudocode.py:5200-5387 | the emitter's loop produces the lowering of the whole block, hands out exactly one label per wait and loop, and declares exactly the REPEAT counters it used |
| TaskCode.Emitter.StmtTask | stc_pseudocode.py:5257-5384 | the same for one statement, whatever labels and counters were used before |
| TaskCode.Emitter.RepeatTask | stc_pseudocode.py:5297-5310 | a REPEAT takes its counter before its label and before those of its body |
| TaskCode.Emitter.IfTask | stc_pseudocode.py:5323-5330 | both branches share one label and counter sequence; no `else` is emitted for an empty one |
| TaskCode.Emitter.EmitTasks | stc_pseudocode.py:5473-5495 | labels restart with every script, counters run on, so no two scripts share a counter |
| TaskCode.ExecConcat | stc_pseudocode.py:5200-5387 | the state machine runs a concatenation by running its parts, both while seeking a label and while running |
| TaskCode.DispatchIsBounded | stc_pseudocode.py:5292-5322 | one dispatch only adds to the log, and carries out at most as many leaf statements and begins at most as many waits as the script has, wherever it resumes |
| Generator.Stmts | bw_micropython.py:347-436 | every block gets its yield at each wait and loop back-edge, and `pass` where it would be empty |
| Generator.EmitScripts | bw_micropython.py:303-315 | every script's body, with the bare `yield` where nothing else yields |
| Generator.YieldsSomewhereIffLabelled | bw_micropython.py:307-315 | a generator body yields somewhere exactly when the task form numbers a label, which is when the bare `yield` is left out |
| Simulation.SeekPastAll | stc_pseudocode.py:5200-5387 | a label outside a block's range is not found in it and nothing happens on the way |
| Simulation.SimulateStmt | stc_pseudocode.py:5257-5384 | from the top or from any label inside it, one run of a lowered statement has the same effects, world and stopping place as its generator, within a bound given by the statement's size |
| Simulation.SimulateBlock | stc_pseudocode.py:5200-5387 | the same for a block, jumps into nested IF, REPEAT and loop bodies and `stop` included |
| Scheduler.SameDispatch | stc_pseudocode.py:5473-5495 | one dispatch of a task and one resume of its generator do the same and stop at the same yield, within the budget, touching only the script's own counters |
| Scheduler.StoppedStaysStopped | stc_pseudocode.py:5382-5384 | a task at 0xFFFF never acts again |
| Scheduler.OwnCountersIn | stc_pseudocode.py:5297-5310 | what a suspended script still has to do depends on no other script's counters |
| Scheduler.SameTurn | stc_pseudocode.py:2029-2038 | one task's turn keeps every task and generator together, whichever task it is |
| Scheduler.SamePassFrom | bw_micropython.py:326-339 | a pass over a snapshot of the live generators, with finished ones removed on the way, keeps step with the C loop over all tasks |
| Scheduler.SameRun | bw_micropython.py:326-339 | after any number of passes both schedulers hold the same world and every task stands where its generator stands |
| Meaning.RepeatGoesRound | stc_pseudocode.py:5297-5310 | a REPEAT of leaf statements does them as often as its count says, the count read once |
| MeaningKept.MomentKept | bw_micropython.py:347-436 | each step of a generator does the next thing its script means: the branch taken is the one the condition selects, a WAIT polls until its time, a loop goes on while its condition says so, and it pauses where the script pauses |
| MeaningKept.ProgramsMeanTheScripts | stc_pseudocode.py:5200-5387 | for any scripts and any number of passes the C program and the generator program leave exactly the world that the statement trees mean, on any target, and every turn ends at a pause or at the script's end |
| MeaningKept.TargetsMeanTheScripts | bw_micropython.py:347-436 | on real targets, while every poll and count is within reach, both programs leave the world the scripts mean on a clock that never wraps |
| RoundRobin.CProgram.CallTask | stc_pseudocode.py:5473-5495 | one task call does that task's share of a pass and leaves the other tasks' statics alone |
| RoundRobin.CProgram.Pass | stc_pseudocode.py:2029-2038 | one turn of the endless loop calls every task once, in order |
| RoundRobin.CProgram.Run | stc_pseudocode.py:2040-2060 | any number of turns from zeroed statics is the run that `SameRun` compares |
| RoundRobin.PyProgram.Pass | bw_micropython.py:334-339 | one round over a copy of the task list, removing from the list itself the generators that end |
| RoundRobin.PyProgram.Run | bw_micropython.py:326-339 | any number of rounds from the start; once the list is empty nothing happens |
| Targets.WrappedDeadline | bw_micropython.py:857-863 | the Pico's `ticks_diff` test, and the sign of the wrapped difference in C, read a deadline less than a counter away right exactly while it is within half the counter, each counting a different end of it in |
| Targets.LatchesAgree | stc_pseudocode.py:5297-5310 | exactly which REPEAT counts go round equally often on both targets, for any width of the counter |
| Targets.SameWake | stc_pseudocode.py:952-958 | on every target a wait that fits in half the counter, polled in time, ends at the same poll as on a clock that never wraps |
| Targets.WrappedRun | stc_pseudocode.py:5257-5263 | over whole runs of many scripts the wrapped clock and the bounded counters of any target refine the unbounded ones, across any number of wraps, for any widths of both |
| Targets.BackEndsAgree | stc_pseudocode.py:5200-5387 | for any number of started scripts and passes, the C program and the generator program of the micro:bit or the Pico have the same globals, the same effects and the same waited amounts in the same order, and the same readings used up |
| Timely.InTimeRun | bw_micropython.py:686-689 | on a clock that is not set back, a run in which no wait is too long and none is polled half a counter late is within the clock's reach at every poll |
| Pacing.BriefRun | bw_micropython.py:326-339 | when no two passes in a row take half the counter, no wait of any script in the run is polled too late: a generator polls only a deadline it has just set or has found ahead in its turn before |
| Pacing.PacedRun | stc_pseudocode.py:952-958 | a clock that is not set back, modest waits and brief passes keep every poll of the run within the clock's reach |
| Pacing.BackEndsAgreeWhenPaced | bw_micropython.py:16-23 | from a clock that is not set back, counts that fit, waits that are neither negative nor too long, and brief passes: the C program and either board's program leave the world exactly as the scripts mean it on a clock that never wraps, and every turn ends where the script pauses or is over |
| Blocking.BlockingEmitter.StmtsC | stc_pseudocode.py:5035-5188 | the blocking emitter's loop produces the blocking form and uses one loop variable per REPEAT; what that form does is `LoneMeaning` |
| LoneScript.FollowAll | stc_pseudocode.py:5035-5188 | whatever the resumed generator has done after any number of steps, the blocking program has done at some point |
| LoneScript.CatchUpAll | stc_pseudocode.py:5035-5188 | whatever the blocking program has done after any number of steps, the resumed generator gets to |
| LoneScript.TaskFormIsSound | stc_pseudocode.py:5200-5387 | on any target, after any number of passes the task form's variables and its log of effects and waited amounts are those of some point of the blocking run |
| LoneScript.TaskFormIsComplete | stc_pseudocode.py:5035-5188 | every point of the blocking run is reached by some pass; if the blocking form has ended or stopped, with the same variables after exactly the same effects and waits |
| LoneMeaning.BlockingDoesAll | stc_pseudocode.py:5035-5188 | whatever a lone script means to have done at any moment, the blocking program has done at some point: the same variables after the same effects, every wait for the amount it reads |
| LoneMeaning.BlockingDoesOnly | stc_pseudocode.py:5035-5188 | every point of the blocking run is a moment of the script, and it has ended or stopped only when the script is over |
| Expressions.ParsePrint | stc_pseudocode.py:3161-3198 | the parser accepts every printed tree and uses up all its tokens, and this is the tree it returns |
| Expressions.RoundTrip | stc_pseudocode.py:4516-4553 | parsing what is printed gives the identical tree if and only if the tree is clear |
| Expressions.NotNeverLeftIsClear | stc_pseudocode.py:3161-3198 | trees in which `not` is never on the left of a comparison or arithmetic operator are clear |
| Expressions.NotOnTheLeft | stc_pseudocode.py:3165-3175 | `(not a) = b` comes back as `not (a = b)` |
| ExprParser.ExprParser.Take | stc_pseudocode.py:3153-3159 | takes the next token, or none at the end, and moves on |
| ExprParser.ExprParser.ParseLevel | stc_pseudocode.py:3161-3184 | the parser with its position returns the tree and leaves the tokens that the parsing function says, or fails when it does |
| ExprParser.ExprParser.ParseOperand | stc_pseudocode.py:3186-3331 | the same for an operand |
| ExprParser.ReadBack | stc_pseudocode.py:3335-3340 | running the parser over printed tokens returns the same tree if and only if the tree is clear |
| Grammar.ParserIsTheGrammar | stc_pseudocode.py:3161-3331 | the parser returns a tree if and only if the tokens it takes are a way of writing that tree, with any brackets, in the grammar, and no operator follows |
| Grammar.OneReading | stc_pseudocode.py:3161-3331 | no text has two readings |
| Grammar.BracketsAreIdle | stc_pseudocode.py:3190-3194 | a printed expression in brackets is read as the expression is without them, whatever it is |
| Grammar.BracketsAreNeeded | stc_pseudocode.py:4516-4553 | the printer brackets an operand exactly where the parser would not take it whole without |
| Grammar.BracketsSuffice | stc_pseudocode.py:3161-3331 | every tree, clear or not, comes back when each operand is written in brackets |
| CExpressions.HasCUnlessDrawn | stc_pseudocode.py:4909-4911 | of these expressions exactly those whose text draws no random number have a C form |
| CExpressions.ReadCSame | stc_pseudocode.py:191-204 | C groups the printed tokens into the same tree exactly when the tree is grouped |
| CExpressions.CReadsTheSameTree | stc_pseudocode.py:4900-4907 | C's grammar reads the printed text as the same tree if and only if no equality is the bare left operand of a relation |
| CExpressions.EqualityOnTheLeft | stc_pseudocode.py:4900-4907 | `(a = b) < c` is printed so that C reads `a == (b < c)` |
| Blocks.ParseShown | stc_pseudocode.py:3345-3416 | parsing the printed lines of any block at any depth returns the same statements and consumes exactly those lines |
| Blocks.StmtsPseudo | stc_pseudocode.py:4556-4742 | the lines it builds are those of which `ParseShown` says they parse back |
| Blocks.ParseBlockAt | stc_pseudocode.py:3345-3416 | the parser with its line index returns the statements and index that the parsing function says, or fails when it does |
| Blocks.ReadBack | stc_pseudocode.py:3345-3416 | printing a block and parsing it in front of anything less indented gives the block back, stopping where its lines end |
| Layout.ReadsWhatIsLaid | stc_pseudocode.py:3345-3416 | the parser returns a body if and only if the lines it takes lay that body out, each block at one indent of its own deeper than its head, and a shallower line or the end follows |
| Indentation.BlockSame | stc_pseudocode.py:3349-3356 | mapping all indents by any increasing function changes neither the statements nor the number of lines used |
| Indentation.RefusedExactly | stc_pseudocode.py:3357-3416 | a block is refused if and only if one of its lines is indented unlike the first of its block, stands deeper under a line that is no head, or is an ELSE that closes no IF |
| Mcs51.AssembleDecode | stc_disasm.py:76-209 | every one of the 256 opcodes with any operand bytes at any address assembles back to the same bytes |
| Mcs51.DisplacementOfRel | stc_disasm.py:203-209 | the displacement byte of a relative branch is recovered from its target, round the ends of the address space too |
| Mcs51.PageOfTarget | stc_disasm.py:76-201 | an 11-bit target stays in the page of the next instruction and gives back its page and low byte |
| Disassembler.SweepOnce | stc_disasm.py:250-285 | one sweep produces the entries and collects exactly their start addresses and branch targets |
| Disassembler.FixedAnchors | stc_disasm.py:308-318 | the search for anchors ends, inside the image, and then no branch target inside it is left over |
| Disassembler.Disassemble | stc_disasm.py:288-318 | the loop returns the sweep over the anchors the search ends with, or the plain sweep when not asked to resynchronise |
| Disassembler.Ordered | stc_disasm.py:250-285 | entries come in order and do not overlap |
| Disassembler.CoversOnce | stc_disasm.py:250-285 | every image byte in range is in exactly one entry, with its own value |
| Disassembler.AnchorsBegin | stc_disasm.py:265-274 | decoding never runs across an anchor: every anchor that holds a byte begins an entry |
| Disassembler.TargetsBegin | stc_disasm.py:308-318 | at the fixed point every place inside the image that an operand field of a decoded instruction names is the address of an entry |
| Disassembler.TargetsAre | stc_disasm.py:239-247 | for every opcode the targets collected are exactly the places its relative, 11-bit and 16-bit address fields name, and none for any other field |
| Disassembler.EntryIs | stc_disasm.py:262-285 | an instruction is decoded whole unless an anchor lies strictly inside it; then the bytes before the first such anchor are data |
| Disassembler.InPhase | stc_disasm.py:288-318 | an image whose plain sweep has every target begin an instruction gains no anchor |
| Disassembler.AnchorsAreNeeded | stc_disasm.py:308-318 | every anchor is the target of a branch decoded with fewer anchors, where nothing began |
| Disassembler.RebuildsImage | stc_disasm.py:250-318 | reassembling the whole listing gives back the image at every address it holds |
| IntelHex.IhexFromBin | app.py:1242-1253 | the writer's loop produces the data records in order, then the end record |
| IntelHex.RecordSums | app.py:1242-1253 | the bytes of every record sum to zero modulo 256 |
| IntelHex.ParseHex | stc_disasm.py:214-238 | the reader's loop collects the records' bytes, blanks around and between them skipped, or fails on a bad record |
| IntelHex.RoundTrip | app.py:1242-1253 | reading what was written gives exactly the blob at its origin if and only if the last record starts below 65536 |
| HexFile.ReadIs | stc_disasm.py:214-238 | a file is read if and only if every line up to its first end record is blank or spells a good record, in either case and with any blanks; then each address holds the byte that the last record covering it gives, under the base of the last address record before that |
| HexFile.CarriesIff | stc_disasm.py:219-224 | what a line carries is read from it whatever blanks stand around and between its bytes |
| Limiter.NoWindowOverfull | app.py:377-406 | no client has more than 40 requests accepted in any 60-second window |
| Limiter.ServeIsLawful | app.py:392-406 | that holds of every run of requests by any clients on a clock that does not run backwards |
| Limiter.AllowedIff | app.py:392-406 | a request is turned away exactly when its client has had 40 accepted within the 60 seconds before it |
| Limiter.Limiter.RateOk | app.py:392-406 | expiring hits and dropping idle clients never changes an answer compared with keeping all history: yes exactly when fewer than 40 were accepted in the window |
| Limiter.Limiter.SlotAcquire | app.py:409-415 | a slot is given exactly when fewer than six builds run, and the count is the builds running |
| Limiter.Limiter.SlotRelease | app.py:418-421 | the count follows the builds running; the clamp at zero never acts |
| Limiter.Limiter.GuardedBegin | app.py:424-440 | which of the three answers a request gets, and what each leaves behind |
| Matrix.BrightnessIsLevel | stc_pseudocode.py:1343-1400 | from any scan state, in any 24 consecutive ticks each pixel is lit in exactly min(level, dim) of them |
| Matrix.LitBelow | stc_pseudocode.py:1378-1386 | a pixel of the selected row is lit exactly in the phases below both its level and the dim |
| Matrix.Driven | stc_pseudocode.py:1355-1388 | the row byte and the active-low column byte drive exactly the pixels that are lit |
| Matrix.Screen.Tick | stc_pseudocode.py:1343-1400 | one tick latches the row byte, shows the columns of that row and phase, and steps to the next of 24 places |
| Matrix.Screen.Watch | stc_pseudocode.py:1343-1400 | 24 ticks in a row, watched at the two ports, show a pixel min(level, dim) times and return to the same place |
| RowBytes.ClockIn | stc_pseudocode.py:1357-1365 | eight clocks move the row byte into the shift register unchanged |
| RowBytes.PlanesBit | stc_pseudocode.py:1378-1383 | the plane masks show the pixels whose two-bit level is above the phase |
| RowBytes.PutBitAt | stc_pseudocode.py:1422-1426 | the mask made by shifting sets or clears exactly the bit of the column |
| Matrix.PixelSet | stc_pseudocode.py:1417-1429 | writing a level's bits into the planes sets that pixel and disturbs no other |
| Matrix.Screen.SetPixel | stc_pseudocode.py:1417-1429 | after setting, the pixel reads as the level modulo 4, every other pixel is as before, and off-screen nothing changes |
| Matrix.Screen.GetPixel | stc_pseudocode.py:1431-1439 | reads the pixel's level, 0 off-screen |
| Matrix.Screen.SetDim | stc_pseudocode.py:1313-1319 | the dim becomes the level, 0 to 3, that is nearest to the value asked for |
| Matrix.OneNearest | stc_pseudocode.py:1313-1319 | there is only one nearest level |
| Matrix.Screen.Clear | stc_pseudocode.py:1411-1415 | every pixel is dark afterwards |
| Matrix.Screen.Scroll | stc_pseudocode.py:1461-1480 | the frame becomes its scrolled self, in place, both planes |
| Matrix.ScrollMoves | stc_pseudocode.py:1458-1480 | scrolling shifts the picture of levels by one pixel and clears the vacated edge |
| Keypad.KeypadTasks.PollPad | stc_pseudocode.py:5459-5470 | a poll scans only when 5 ms have passed on the wrapping counter, and makes a reading current only when it equals the one before |
| Keypad.KeypadTasks.Run | stc_pseudocode.py:5509-5524 | a dispatch starts the body exactly on its edge while idle, runs it on from any label whatever the edge, spends one dispatch after `stop`, parks it by how it leaves, and always updates the previous level |
| Keypad.RunsUntilDone | stc_pseudocode.py:5509-5524 | the body runs at a pass if and only if it started at some pass and has yielded at each one since, whatever the key does |
| Keypad.StartsExactly | stc_pseudocode.py:5509-5524 | the body starts exactly on an edge of the debounced key, unless the pass before ran it without finishing it |
| Keypad.ScansWhenDue | stc_pseudocode.py:5463-5465 | the pad is read exactly when the wrapping counter has moved on by 5 ms or more since the last reading |
| Keypad.KeyFollowsAgreement | stc_pseudocode.py:5459-5470 | the debounced key takes a new value exactly on the second of two agreeing scans |
| Keypad.ScansApart | stc_pseudocode.py:5463-5465 | two scans are at least 5 ms apart in real time, however often the counter wrapped |
| Keypad.KeyChangeIsDebounced | stc_pseudocode.py:5442-5471 | the key changes only to what two consecutive agreeing scans at least 5 ms apart read |
| Keypad.BetweenStarts | stc_pseudocode.py:5497-5525 | between two starts of a hat's body lie two agreeing scans on the other side of its edge, then two agreeing scans on its own side, and at least 20 ms |
| Keypad.GapIsMet | stc_pseudocode.py:5497-5525 | that 20 ms is reached: press, release and press as fast as the poll can see starts the body twice |
| Lists.List.constructor | stc_pseudocode.py:911-914 | a declared list holds its values and the rest of its room |
| Lists.List.Get | stc_pseudocode.py:2377-2382 | reads the item, 0 out of range |
| Lists.List.Set | stc_pseudocode.py:2384-2389 | replaces the item, and changes nothing out of range |
| Lists.List.AddItem | stc_pseudocode.py:2391-2396 | appends, and changes nothing when full |
| Lists.List.Del | stc_pseudocode.py:2398-2405 | removes the item by shifting the tail down, with an 8-bit index that never wraps |
| Lists.List.Ins | stc_pseudocode.py:2407-2421 | inserts at the clamped index by shifting the tail up, with an 8-bit index that never wraps |
| Lists.List.Has | stc_pseudocode.py:2422-2428 | says whether the value is in the list |
| Lists.List.PerformAll | stc_pseudocode.py:5083-5101 | over every sequence of operations the array and its length byte simulate the bounded list |
| Lists.StaysBounded | stc_pseudocode.py:4386-4395 | no sequence of operations outgrows the capacity |
| Lists.InsertShifts | stc_pseudocode.py:2407-2421 | item by item, what an insert leaves where |
| Lists.DeleteShifts | stc_pseudocode.py:2398-2405 | item by item, what a delete leaves where |
| Lists.InsertBelowIsFirst | stc_pseudocode.py:2407-2421 | an index below 1 inserts before the first item |
| Lists.DeleteUndoesInsert | stc_pseudocode.py:2398-2421 | deleting where an insert landed gives the old list back |
| Lists.AddIsInsertLast | stc_pseudocode.py:2391-2421 | adding is inserting at any index past the end |
| EspImage.Elf2Image | esp8266_image.py:29-87 | from the file's bytes, gives the image or the first complaint in the order the checks are made |
| EspImage.LoadSegments | esp8266_image.py:35-52 | unpacks the program headers one by one and splits them into RAM and mapped segments, or stops at the first that runs past the megabyte or is not in the file |
| EspImage.BuildBoot | esp8266_image.py:56-66 | builds the boot image and its checksum, or finds the first length its 32-bit field cannot hold |
| EspImage.PlaceMapped | esp8266_image.py:68-80 | paints boot image and mapped segments onto erased flash, or finds the first overlap between neighbours |
| EspImage.Paint | esp8266_image.py:79-80 | overwrites one slice in place and nothing else |
| EspImage.BootReadsBack | esp8266_image.py:56-66 | a reader of the boot format recovers the entry point and all RAM segments, finds the checksum right, and the boot image ends at a multiple of 16 |
| EspImage.AcceptedIffDisjoint | esp8266_image.py:68-76 | comparing sorted neighbours accepts exactly the segments that are pairwise disjoint and disjoint from the boot image |
| EspImage.AcceptedIff | esp8266_image.py:39-76 | exactly which programs get an image |
| EspImage.LayoutHolds | esp8266_image.py:77-80 | every segment lies at its own offset and all other bytes are 0xFF |
| EspImage.ImageIsFaithful | esp8266_image.py:32-87 | for every accepted program: the boot image reads back, mapped segments are disjoint and in place, the rest is erased, and nothing follows the last segment |
| EspImage.ElfIsFaithful | esp8266_image.py:29-87 | a file gets an image exactly when it is an ELF file that holds all its headers and they are accepted, and then the image keeps that promise |
| ElfBytes.TableIs | esp8266_image.py:35-37 | the program headers are the words at their offsets, read least byte first, as far as the file holds them |
| ElfBytes.RamIs | esp8266_image.py:35-52 | the loaded headers outside the flash map give the RAM segments, in order, byte by byte what the file has at their offset, and zeros past it |
| ElfBytes.EveryByteLands | esp8266_image.py:29-87 | in the image of an accepted file the boot part gives the entry point and all RAM segments of the announced headers, every flash segment's byte is at its own place, and a byte no header claims is erased |
| ElfBytes.ComplaintIsTrue | esp8266_image.py:32-76 | whatever a refusal complains of is so of the file |
| ElfBytes.BootFrame | esp8266_image.py:56-66 | the boot image begins with the magic byte and the segment count, and each bit of its last byte is the parity of that bit over all segment bytes, turned over where 0xEF has it |
| SketchMask.Mask | arduino_build.py:169-219 | the in-place scan blanks exactly the comments, literal bodies and directives |
| SketchMask.MaskKeeps | arduino_build.py:169-172 | masking keeps the length, every newline where it is, and every character it does not blank |
| MaskModes.MaskIs | arduino_build.py:169-219 | the characters blanked are exactly those that reading one character at a time finds in comments, directives and inside literals |
| Sketch.FindFunctionDefinitions | arduino_build.py:222-254 | finds, at file scope and outside parentheses, every `{` whose header parses as a function, with where its statement starts |
| Sketch.DefsInOrder | arduino_build.py:222-254 | every definition starts at a character of code, in strictly increasing order |
| SketchScan.DefinitionsAre | arduino_build.py:222-254 | a definition is found for every `{` at brace depth 0 and outside parentheses, both counted in the text before it, whose text since the last file-scope `;` or closing `}` parses as a header, and for nothing else |
| Sketch.TopLevelStatements | arduino_build.py:293-329 | splits the file scope at `;` and at closing braces no `;` follows, noting which statements hold a body |
| Sketch.StatementsInOrder | arduino_build.py:293-329 | statements are disjoint spans in order, from a character of code to a `;` or `}` |
| SketchScan.StatementsAre | arduino_build.py:293-329 | the statements are exactly the spans from the first character after the last one to a `;` at file scope, or to the brace that closes a block no `;` follows |
| Sketch.TypeReady | arduino_build.py:365-370 | the first definition of a type decides where it is ready |
| Sketch.ReadyIs | arduino_build.py:365-370 | a type is ready on the line after the statement that first defines it, and no other name is |
| Sketch.PlaceAll | arduino_build.py:372-382 | files each prototype once, at the later of the base line and the ends of the types it names, unless that is past its function |
| Sketch.PrototypesWellPlaced | arduino_build.py:362-382 | every prototype is that of a sketch function, at a line start, no later than the function and no earlier than the end of any sketch type its signature names |
| Sketch.NoneMissing | arduino_build.py:374-382 | a function gets its prototype whenever there is room for one before it |
| Sketch.NothingLost | arduino_build.py:384-393 | deleting the insertions leaves the sketch unchanged |
| Sketch.TextKept | arduino_build.py:384-393 | deleting the insertions of any sketch leaves it, and every insertion falls at a line start before the end |
| Sketch.PlacesAre | arduino_build.py:372-382 | there is an insertion exactly where some function with room before it wants its prototype |
| SketchPlaces.BaseIsFirst | arduino_build.py:357-363 | the base line is that of the first code of the sketch |
| SketchPlaces.InsertedWhereAsked | arduino_build.py:365-382 | there is an insertion exactly at the lines some function asks for: the first code, or the line after the last type its signature names, not after the function's own line |
| SketchPlaces.PrototypesAre | arduino_build.py:372-382 | at every line stand the prototypes of exactly the functions that want theirs there, each once, in the order of the functions |
| SketchPlaces.PrototypeStands | arduino_build.py:384-393 | each of these prototypes is a whole line of the text, between what comes before that line of the sketch and what comes after |
| SketchLines.HeadReads | arduino_build.py:351-355 | after the include and its `#line 1` the compiler is as at the start of a file |
| SketchLines.InsertionTells | arduino_build.py:385-391 | reading an insertion at an open line leaves the compiler as it was; elsewhere it leaves the next line's number wrong |
| SketchLines.RightFrom | arduino_build.py:384-393 | from any cut on, the numbers stay right when every later insertion is at an open line, and only then unless one follows a spliced line |
| SketchLines.LinesKept | arduino_build.py:332-338 | every sketch line compiles under the number it has in the sketch alone if and, splices apart, only if every line at which a function wants its prototype is open: read, outside comments, raw strings and skipped groups, and rightly numbered itself |
| SketchLines.SketchKept | arduino_build.py:332-393 | nothing is lost, every insertion falls at a line start, and every line of a sketch that sets no number itself has its own number if and, splices apart, only if every wanted line is read |
| SketchLines.CompiledIsOfTheText | arduino_build.py:384-393 | those numbers are what reading the prepared text from end to end gives the characters that come from the sketch |
| SketchCases.InsideAComment | arduino_build.py:359-363 | a function that starts on the line where a comment ends: its prototype and `#line` go into the comment and the numbers are wrong |
| SketchCases.InsideAGroup | arduino_build.py:179-190 | a function between `#if` and `#endif` is code to the masking, but the numbers are right if and only if the condition holds |
| SketchCases.AfterASplice | arduino_build.py:359-363 | a sketch whose insertion follows a backslash-continued comment: its numbers are right though its line is not open, so the exception in `LinesKept` is needed |
| SketchCases.ReadIsInCode | arduino_build.py:169-219 | in a tame sketch a line is read exactly when the masking takes it for code and no group skips it |
| MaskReading.MaskAgrees | arduino_build.py:169-219 | in a tame sketch a line start lies outside every region the masking blanks exactly when the compiler is at rest there |
| SketchSplits.WantedSplits | arduino_build.py:357-378 | a line at which a prototype is wanted lies inside a file-scope statement if and only if it is the base line and a statement from an earlier line ends on it before the first code or holds that, or it follows a type and a statement begins on the type's last line and goes on past it |
| SketchSplits.NothingSplit | arduino_build.py:344-346 | if no statement begins on a line on which another ends, and the first code begins a statement, no insertion splits one |
| SketchSplits.InsideAStatement | arduino_build.py:357-363 | `int x =`, a new line, ` 1; int f(){}`: the prototype goes between the two halves of the declaration |
| Sketch.Splice | arduino_build.py:384-393 | visiting the positions in sorted order renders the sketch cut exactly at each of them |
| Sketch.PrepareSketch | arduino_build.py:332-393 | the text is the include, `#line 1` and the spliced sketch, or the sketch untouched when it defines no function |

## Left out

- Hat scripts in the comparison of the back ends: the C hat updates its previous level on every dispatch and starts again after `stop`, the Python hat does neither; only the C keypad hat is modelled.
- A WAIT reads the clock before its amount on both sides; C itself leaves that order open.
- Procedures: a call is one atomic leaf statement, assumed to return; recursion and waits inside procedures are not modelled.
- 16-bit overflow and division of expressions: expression values are uninterpreted, and the targets really differ there.
- The emitted task bodies are data with a meaning given by functions, because they are what the proofs are about; interrupts between statements are not modelled.
- The non-task Python form of a lone script, and the C form with only interrupt-driven parts.
- The generator's test for a body without `yield` is a search in its text; it is modelled on the structure of the code.
- Front-end sugar of the expression parser: `read`, `key N is pressed`, `pixel`, `contains`, controllers, fractions; names of all kinds are tokens that say what they name.
- Expressions without a C form (`RANDINT`, list and table names as tokens) in `CExpressions`, and the rest of the C grammar.
- Recognising leaf statements from their text: a line says which head or leaf it is.
- The instruction table is a function of the opcode's row and column; the loops that fill the dictionary, and register and bit names, are not modelled.
- Disassembler.SweepOnce: reads bytes past the end of the image as zero, as the source does; the source's handling of a decoder error never applies because operands are always complete.
- Limiter.Limiter.GuardedBegin: a request refused because all slots are busy still uses up one of its client's forty, as in the source.
- The lock around the limiter: each method is one atomic step.
- Limiter.Limiter.RateOk: asks that requests come in the order of their clock readings. The source reads the clock (app.py:395) before it takes the lock (app.py:397); the two orders agree because the one caller, the `async` handler at app.py:2156-2166, runs `_guarded_build` synchronously on the event loop's thread.
- Matrix: row, image and fill verbs, several matrices at once, the clock and latch edges of the shift register.
- Keypad.KeypadTasks.Run: the hat's body is known only by how each dispatch leaves it; the scan itself is an input.
- Lists: constant lists and tables; the length expression, which is the length byte.
- EspImage: sorting by offset is a stable insertion sort on values, where the source calls the library's.
- Sketch: the regular expressions for headers, bodies, types and words are parameters; templates, `extern` and default arguments are theirs to refuse. White space is the six ASCII blanks.
- SketchLines.LinesKept: the direction from right numbers to open lines is not decided for an insertion on a line that continues the one before by a backslash; there the compiler reads the rest of the sketch from another state, and the answer depends on what follows (`SketchCases.AfterASplice`).
- SketchLines.SketchKept: prototypes are taken to be quiet lines (`CppReader.Sane`), which a signature without literals, slashes or backslashes is (`CppReader.PlainIsSane`), and the file name to hold no newline, `*` or `)`.
- SketchSplits.WantedSplits: says where an insertion lands, not what a compiler then makes of the split statement.
- Targets.BackEndsAgree: MicroPython's `ticks_ms`, `ticks_add` and `ticks_diff` are the runtime's and taken as it documents them, with the period a parameter; `ticks_add` refuses an interval of half the period, which no wait within reach has.
- CppReader: digraphs, `#elifdef`, `#line` through a macro, splices over trailing blanks, and header names that look like comments.
- keil2sdcc.py, the symbol and listing readers, uf2.py, riscv_cc.py, bw_arcade.py, the web service and the toolchain calls.
