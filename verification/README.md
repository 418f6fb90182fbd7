# Verification of the Rowhammer tester

A Dafny 4.11 project that models the parts of the tester in which a mistake would silently change what is
done to the DRAM, and proves what they promise. `dafny verify dfyconfig.toml` checks all of it.

## What is modelled

**Payloads, from the row list to the bus.** `Isa` packs and unpacks the 32-bit instruction words,
`PayloadCompiler` turns "hammer these rows read_count times" into unrolled loop bodies, LOOPs and refresh
slots, and `Executor` is the gateware that runs them: the fetcher with its memory delay, the executor FSM,
the DFI switch, the refresh counter and the time registers, one step for each clock edge. `Interpreter` is
the reference: one instruction at a time over an instruction pointer and the loop counter. `Refinement`
shows that the clocked pipeline with its stalls, bubbles and backward jumps registers exactly the
interpreter's bus trace, cycle for cycle, from every matching state and for every memory content.
`Program` and `Fragments` unroll STOP-terminated programs whose loops do not overlap, also where a LOOP
jumps into the middle of an instruction's words; `Layouts` has the words and cycles of an instruction.

A LOOP counts instructions while the memory holds words, and a timeslice above 31 takes several words. The
jump then lands inside the body and the words before it are skipped. `PayloadCuts` says what is repeated, again
as instructions: `Cut` takes whole instructions away and leaves of the next one the rest of its timeslice.
`PayloadTraces`, `PayloadResults`, `PayloadSpacing`, `PayloadWords` and `RefreshGaps` measure a body and what is
repeated of it, `PayloadExecution` has the bus cycles of a generated payload for all timings, and
`PayloadDelivery` combines everything into `Delivers`:

- the row list is hammered exactly read_count times, each ACT followed by its PRE, if and only if `Exact`
  holds: every body that is repeated skips no more words than its leading refresh slots have (and a disabled
  slot of no cycles, which is a STOP, does not cut the payload short);
- no command ever comes within tRAS, tRP or tRFC of the ACT, PRE or REF before it, whatever is skipped, and
  none within tRFC of the refresh at the handover;
- with refresh on, the number of refreshes is `RefreshesIssued` and the final one, a formula in the slots of the
  bodies and of their repeated ends; these are the reported ones if and only if `NothingSkipped` holds: every
  body that is repeated has one word for each instruction;
- no refresh comes later than any limit of at least tREFI after the one before it if and only if the lead-in and
  `InTime` keep the limit. `InTime` looks at one gap for each of the two loops: from the last refresh of the body
  over a jump to the first one that is repeated, or over all jumps if none is. For tREFI + 1 + PIPELINE_DELAY it
  holds when nothing is skipped, and can hold or fail otherwise.

`PayloadHandover` states this about the lines that reach the DRAM, from the refresh of the memory controller at
which the switch hands over, also as distances between any two commands. `PayloadLosses` has concrete generated
payloads for which each condition fails, and one that skips words and still refreshes in time. `CycleEstimate`
compares the host's estimate with the gateware's time registers, and `PayloadTime` applies it to generated
payloads. `PayloadShape` has the shape of a payload in closed form: how often the row list is unrolled, how many
refresh slots a body has, and when there is a payload at all. `PayloadSize` counts the words of a payload: the source compares the number of instructions with the
memory, and a payload can pass that and have more words than the memory.

**The payload checker.** `Ddr3` and `Ddr4` are the `next_tick` scoreboards of `ddr3lib` and `ddr4lib` as
objects and as step functions. `Ddr3Rule` and `Ddr4Rule` give the rule they cache, as distances between
all pairs of commands of the whole history, and prove that the two accept the same histories. For DDR4 that
is so exactly when a long turnaround is at most twice the short one, because the entries of a bank group
are overwritten; for any other timing a run that is accepted and breaks a long turnaround is given.
`Checker` is the run loop with its jump counter and `CheckerVerdict` says what its verdict means. Loops that
overlap pass the instruction checks, and then the run loop never ends; so it is modelled for payloads
whose loops do not overlap, and `OverlapNeverEnds` covers the others.

**The self-test engine.** `Pattern` has the addresses and data of a transfer and the three-register data
inverter, `BistWriter` the DMA writer, `BistReader` the three concurrent FSMs of the reader with their two
FIFOs and a DMA of any latency of at least one cycle. `ReaderRuns` proves safety over all runs, conservation
of errors, and that a transfer ends. `WriteRead` asks when reading back a written pattern from a perfect
memory reports errors; in modulo mode the reader's data index never moves, so there it does unless the last
word written to each address is word 0.

**The Half-Double search.** `HalfDouble` has the state functions, the row generator and the invariants;
`HalfDoubleObjects` the two objects and the main loop. The search ends for all answers of the hardware
exactly for the configurations `Productive`: a dilution that grows (or starts above its maximum), and a
read-count step that is not 0. The source does not check this. Another finding: `next_row` leaves
`distance_one` as it was, so a new row can start its first stage without hammering any neighbour. And a dilution
that does not grow makes the search repeat an experiment, which its histogram then counts twice for one row.

**Addresses and read leveling.** `Addresses` and `RowRanges` are the conversion between coordinates and
bus or DMA addresses and the memory range of a row list; `ReadLeveling` is the choice of bitslip and delay.

`Bits`, `Multiples`, `Traces` and `Wrappers` are the arithmetic and the measures that the others share.

## Reading the theorems

- An assertion or exception of the source is a `None`, an `Err`-like constructor or `ok == false`.
- One call of a `Clock` method is one rising edge; its contract ties the registers to a step function, and
  the runs are stated over sequences of inputs of any length.
- FIFOs and the DMA are queues: their handshakes are inputs, restricted only by "takes an item only when it
  has room, shows one only when it holds one, answers only reads taken in an earlier cycle".
- The payload memory is any sequence of words whose length is a power of two of at least two.
- The executor starts a run with its loop counter at 0, which every run of a well-nested program restores.

## Model

| member | source | states |
|---|---|---|
| Isa.PackWord | rowhammer_tester/gateware/payload_executor.py:236-244 | or-ing the masked fields together is positional packing, and the word fits the sum of the field widths |
| Isa.EncodeSpec | rowhammer_tester/gateware/payload_executor.py:180-211 | the words of an instruction: its command word, then the NOOPs that carry the rest of the timeslice |
| Isa.EncodePayload | rowhammer_tester/gateware/payload_executor.py:246-250 | the words of a payload are the words of its instructions in order |
| Isa.CommandLines | rowhammer_tester/gateware/payload_executor.py:20-29 | which of RAS, CAS and WE each op code asserts |
| Isa.AcceptedIff | rowhammer_tester/gateware/payload_executor.py:139-178 | refused are exactly the NOOPs and LOOPs whose timeslice or count does not survive encoding, and commands without a name, a timeslice or, except for a refresh, an address |
| Isa.MainDecodes | rowhammer_tester/gateware/payload_executor.py:119-137 | decoding an encoded instruction gives back opcode, timeslice (its low five bits, at least 1), address, loop count and jump |
| Isa.SplitKeepsDelay | rowhammer_tester/gateware/payload_executor.py:187-211 | splitting an oversized timeslice keeps the total delay exactly, and every extra word is a NOOP that is not a STOP |
| Isa.SplitTimeslices | rowhammer_tester/gateware/payload_executor.py:187-211 | the command carries the low five bits of the timeslice or a single cycle, every further word 28 cycles, and the last one at most that |
| Isa.AddressRoundTrip | rowhammer_tester/gateware/payload_executor.py:252-265 | rank, bank and row or column survive the address field and its slicing, for all field widths that fit 24 bits |
| Isa.BankMasked | rowhammer_tester/gateware/payload_executor.py:252-265 | a bank beyond its field is reduced to it |
| Isa.DfiRoundTrip | rowhammer_tester/gateware/payload_executor.py:302-348 | an in-range command fits one word, and the gateware drives the command, rank, bank and address that were encoded |
| Isa.LoopRoundTrip | rowhammer_tester/gateware/payload_executor.py:160-169 | a LOOP keeps its count, and its jump exactly when it is below 2^17 |
| Executor.Gateware.ClockFsm | rowhammer_tester/gateware/payload_executor.py:596-688 | next state, counters and control wires of the executor FSM in one cycle |
| Executor.Gateware.ClockFetcher | rowhammer_tester/gateware/payload_executor.py:394-416 | program counter, its old value and the memory address under stall, jump and reset |
| Executor.Gateware.ClockTimers | rowhammer_tester/gateware/payload_executor.py:540-549 | the cycle counter and the two time registers, where the later assignment wins |
| Executor.Gateware.ClockSwitch | rowhammer_tester/gateware/payload_executor.py:438-471 | the switch takes over at once, or with refresh on only on a matching refresh; the counter counts refreshes of both masters |
| Executor.Gateware.Clock | rowhammer_tester/gateware/payload_executor.py:509-688 | all registers of executor, fetcher, switch and DFI lines move together at an edge |
| Refinement.StepRefines | rowhammer_tester/gateware/payload_executor.py:388-416 | one interpreted instruction is a fixed number of clock edges with the same bus lines, ending with instruction, memory data and program counters two slots ahead |
| Refinement.RunRefines | rowhammer_tester/gateware/payload_executor.py:595-688 | for every memory content and any number of instructions the pipeline registers exactly the interpreter's trace and ends in the matching state, executing throughout |
| Refinement.EveryCycle | rowhammer_tester/gateware/payload_executor.py:595-688 | at every cycle, not only between instructions, what has been registered is a prefix of the interpreter's trace |
| Refinement.LaunchRefines | rowhammer_tester/gateware/payload_executor.py:607-616 | from the handover: three idle lines, then the trace of a program from word 0 |
| Refinement.Reachable | rowhammer_tester/gateware/payload_executor.py:438-471 | from every state that satisfies the invariant, BUBBLE, RUN and IDLE imply PAYLOAD-EXECUTION with wants_dfi set, and a registered command is on the bus only while the payload side is selected |
| Refinement.ReachableFromReset | rowhammer_tester/gateware/payload_executor.py:438-471 | so it is after every run from reset, whatever the start pulses, the memory controller and at_refresh do |
| Refinement.Starts | rowhammer_tester/gateware/payload_executor.py:596-616 | a start pulse clears the time registers and makes the executor wait for the bus |
| Refinement.TakesOverIff | rowhammer_tester/gateware/payload_executor.py:438-471 | the switch takes over exactly from a waiting executor: at once, or with refresh on at a refresh that is the awaited one if one is awaited |
| Refinement.StaysWaiting | rowhammer_tester/gateware/payload_executor.py:607-612 | until then the executor waits and the memory controller keeps the bus |
| Refinement.Rests | rowhammer_tester/gateware/payload_executor.py:540-549 | without a start pulse a ready executor keeps its time registers and loop counter for any number of cycles, and after one of them the memory controller has the bus again |
| Refinement.HandoverAtRefresh | rowhammer_tester/gateware/payload_executor.py:440-460 | with refresh on and a nonzero at_refresh held, every handover happens on a REF and leaves the refresh counter equal to at_refresh |
| Refinement.RefreshCount | rowhammer_tester/gateware/payload_executor.py:361-375 | the counter is the number of refreshes the DRAM has seen from both sides, modulo its 64 bits |
| Refinement.ExecutionTime | rowhammer_tester/gateware/payload_executor.py:540-549 | the time registers differ by the pipeline fill and the interpreter's cycles |
| Program.ProgramRuns | rowhammer_tester/gateware/payload_executor.py:617-645 | the interpreter runs a well-nested program to its STOP along the unrolled trace, and leaves the loop counter at 0 |
| Program.ProgramOnGateware | rowhammer_tester/gateware/payload_executor.py:595-688 | the clocked gateware executes the unrolled trace of any well-nested program and is ready again with loop counter 0 |
| Program.ProgramTime | rowhammer_tester/gateware/payload_executor.py:540-549 | from the end of that run until the next start pulse the time registers differ by the pipeline fill and the trace |
| Layouts.WordsTrace | rowhammer_tester/gateware/payload_executor.py:193-211 | however many words an instruction takes, it drives its command once and then waits out its timeslice |
| CycleEstimate.GetExpectedExecutionCycles | rowhammer_tester/scripts/utils.py:508-521 | the loop over the payload computes the estimate, and fails where a loop body holds a LOOP |
| CycleEstimate.SliceIs | rowhammer_tester/scripts/utils.py:508-521 | the instructions a LOOP of the estimate sums up, also for a jump over more than is there |
| CycleEstimate.EstimateExact | rowhammer_tester/scripts/utils.py:508-521 | the words of a payload without nested loops are a program that takes the estimate and three cycles for every taken jump, less the cycles of the words that its jumps skip |
| CycleEstimate.MissedIff | rowhammer_tester/scripts/utils.py:508-521 | cycles are missed exactly when some LOOP with a positive count has a body of more words than instructions |
| CycleEstimate.EstimatedTime | rowhammer_tester/gateware/payload_executor.py:540-549 | from the end of the run until the next start pulse, exec_stop - exec_start is the host's estimate plus the pipeline fill plus three cycles a taken jump if and only if no LOOP with a positive count has a body of more words than instructions; otherwise it is less by the cycles missed |
| PayloadTime.GeneratedLoops | rowhammer_tester/scripts/playbook/lib/__init__.py:115-147 | generated payloads are such payloads, jump once for every run of a body but the first of each loop, and miss nothing exactly when `NothingSkipped` holds; one whose first slot is a STOP takes no jump and misses nothing |
| PayloadTime.GeneratedTime | rowhammer_tester/scripts/utils.py:508-521 | for every generated payload in the memory the time registers agree with the estimate, the fill and the jumps if and only if `NothingSkipped` holds or the first slot is a STOP |
| Multiples.LeastCommonMultiple | rowhammer_tester/scripts/playbook/lib/__init__.py:69-75 | the gcd loop yields the least common multiple, its negative for a negative first argument, 0 when one argument is 0, and divides by zero exactly for two zeros |
| Multiples.LcmIsLeast | rowhammer_tester/scripts/playbook/lib/__init__.py:69-75 | that value is a common multiple, and divides no further: every positive common multiple is at least as large |
| PayloadCompiler.Builder.EncodeRow | rowhammer_tester/scripts/playbook/lib/__init__.py:26-40 | one turn of the inner loop appends a refresh slot when the interval would be exceeded, then the ACT and the PRE |
| PayloadCompiler.Builder.EncodeOneLoop | rowhammer_tester/scripts/playbook/lib/__init__.py:9-45 | appends the loop body for the repeated row list and a LOOP that jumps over exactly that body, and returns the refreshes; fails exactly when an instruction or the jump does not fit |
| PayloadCompiler.Builder.EncodeLongLoop | rowhammer_tester/scripts/playbook/lib/__init__.py:48-66 | appends the blocks of all loop counts and returns the slots of one body times the number of runs |
| PayloadCompiler.LoopCountsExact | rowhammer_tester/scripts/playbook/lib/__init__.py:51-64 | every count fits 12 bits, and the bodies run exactly `rolled` times in total |
| PayloadCompiler.JumpCoversBody | rowhammer_tester/scripts/playbook/lib/__init__.py:41-43 | the jump target is the number of instructions of the body |
| PayloadCompiler.ComputeRepetitions | rowhammer_tester/scripts/playbook/lib/__init__.py:103-109 | how often the row list is unrolled, and where a division by zero or an assertion stops the source |
| PayloadShape.RepetitionsNone | rowhammer_tester/scripts/playbook/lib/__init__.py:103-109 | nothing is generated exactly without rows, without a row time, without time for a row between two refreshes, or for more than 65535 rows |
| PayloadShape.RepetitionsAre | rowhammer_tester/scripts/playbook/lib/__init__.py:103-109 | else the list is unrolled as often as fits both a loop and the least common multiple of its length and the number of rows between two refreshes, and to exactly that multiple if a loop has room |
| PayloadShape.TwiceUnrolled | rowhammer_tester/scripts/playbook/lib/__init__.py:103-109 | two rows, four of which fit between two refreshes, are unrolled twice |
| PayloadShape.SlotsAre | rowhammer_tester/scripts/playbook/lib/__init__.py:24-33 | a body has as many refresh slots as its rows need when every interval is filled with rows, and no more |
| PayloadShape.BodyTime | rowhammer_tester/scripts/playbook/lib/__init__.py:21-40 | with refresh on or off a body takes the row cycles of its rows and tRFC for each of its slots |
| PayloadShape.LeadIs | rowhammer_tester/scripts/playbook/lib/__init__.py:115-117 | the lead-in waits for the longest of one cycle, tRFC and tREFI, the last two less the cycles of the handover |
| PayloadShape.LastSlot | rowhammer_tester/scripts/playbook/lib/__init__.py:142-147 | a payload starts with the lead-in and ends with one more slot of a single cycle and the STOP |
| PayloadShape.GeneratesIff | rowhammer_tester/scripts/playbook/lib/__init__.py:41-43 | there is a payload exactly when the lead-in and the refresh slot fit their fields, the times are positive, and twice the rows and the slots of each body fit the jump |
| PayloadCompiler.GeneratePayload | rowhammer_tester/scripts/playbook/lib/__init__.py:78-178 | the words of the generated payload, or none when an assertion fails or the payload memory is too small |
| PayloadResults.BodyCounts | rowhammer_tester/scripts/playbook/lib/__init__.py:24-40 | a loop body hammers exactly the rows of its stream in order, each ACT followed by its PRE, and issues as many refreshes as slots were counted |
| PayloadSpacing.LoopBodySettled | rowhammer_tester/scripts/playbook/lib/__init__.py:26-40 | in and directly behind a loop body nothing comes within tRAS of an ACT, tRP of a PRE or tRFC of a REF |
| PayloadSpacing.BodyWithin | rowhammer_tester/scripts/playbook/lib/__init__.py:22-33 | inside a loop body every refresh starts at most tREFI after the one before |
| PayloadCuts.CutTrace | rowhammer_tester/scripts/playbook/lib/__init__.py:41-43 | the words of instructions without the first ones run like the instructions cut at that place, for any number of skipped words |
| PayloadCuts.WordsOfTimeslice | rowhammer_tester/gateware/payload_executor.py:187-211 | the number of words of a command as a formula of its timeslice |
| RefreshGaps.BodySince | rowhammer_tester/scripts/playbook/lib/__init__.py:22-33 | how long after its last refresh a loop body ends, from the settings alone |
| RefreshGaps.LoopsHold | rowhammer_tester/scripts/playbook/lib/__init__.py:48-66 | loops over a body whose end is repeated keep a limit exactly when the gap of each of them does |
| RefreshGaps.LongestDecides | rowhammer_tester/scripts/playbook/lib/__init__.py:51-64 | of all loops for a number of runs only the one with the most jumps has to be looked at |
| Fragments.RunConcat | rowhammer_tester/gateware/payload_executor.py:617-645 | programs compose word by word, also where a LOOP jumps into the middle of an instruction |
| PayloadWords.UnrolledExcess | rowhammer_tester/gateware/payload_executor.py:187-211 | the words of a loop body beyond one an instruction, as a formula in the timings and counts |
| PayloadExecution.BlocksRun | rowhammer_tester/scripts/playbook/lib/__init__.py:43-66 | the words of the loops over one body run as its cycles and, for every jump, those of its last words, as many as it has instructions |
| PayloadExecution.TailHammersLess | rowhammer_tester/scripts/playbook/lib/__init__.py:41-43 | that end hammers as much as the whole body exactly when the skipped words are leading slots |
| PayloadExecution.TailRefreshesLess | rowhammer_tester/scripts/playbook/lib/__init__.py:22-24 | it refreshes as often exactly when no word is skipped, because the first word is a refresh |
| PayloadExecution.ShortTimeslices | rowhammer_tester/gateware/payload_executor.py:187-211 | timeslices below 32 cycles skip nothing, and then a payload is exact unless its disabled slot is a STOP |
| PayloadExecution.CutShort | rowhammer_tester/scripts/playbook/lib/__init__.py:22-24 | with refresh off and a slot of no cycles the first slot is a STOP, and no command is issued |
| PayloadExecution.TailIsCut | rowhammer_tester/scripts/playbook/lib/__init__.py:41-43 | what the LOOP over a generated body repeats runs like the cut body |
| PayloadDelivery.RolledIssues | rowhammer_tester/scripts/playbook/lib/__init__.py:43-66 | the refreshes of the loops over one body: its slots for every loop and the repeated ones for every jump |
| PayloadDelivery.RolledHolds | rowhammer_tester/scripts/playbook/lib/__init__.py:22-66 | these loops keep a limit on the refresh distance if and only if their longest gap does |
| PayloadDelivery.PayloadRuns | rowhammer_tester/scripts/playbook/lib/__init__.py:78-147 | every generated payload is a well-nested program for whose trace `Delivers` holds: hammers, distances, number of refreshes and refresh distance, each with its exact condition |
| PayloadDelivery.PayloadOnGateware | rowhammer_tester/scripts/playbook/lib/__init__.py:78-147 | the same about the lines that the clocked gateware registers from the handover until it is ready again with loop counter 0, for every payload whose words are in its memory, all timings and every run of that length |
| PayloadDelivery.IntervalKept | rowhammer_tester/scripts/playbook/lib/__init__.py:22-43 | for the limit tREFI + 1 + PIPELINE_DELAY the lead-in is short enough for every payload that hammers, and the gaps are when nothing is skipped |
| PayloadHandover.PayloadOnBus | rowhammer_tester/gateware/payload_executor.py:438-471 | the same about the lines that reach the DRAM, counted from the refresh of the memory controller at which the switch hands over |
| PayloadHandover.PairwiseOnBus | rowhammer_tester/scripts/playbook/lib/__init__.py:26-40 | any two commands on those lines keep the distance of the earlier one, and any two successive refreshes the limit |
| PayloadLosses.LostActivation | rowhammer_tester/scripts/playbook/lib/__init__.py:78-147 | a generated payload of two passes over one row that is not hammered twice, as its activation takes three words |
| PayloadLosses.LostRefresh | rowhammer_tester/scripts/playbook/lib/__init__.py:78-147 | a generated payload that hammers as asked and refreshes less often than reported |
| PayloadLosses.LateRefreshes | rowhammer_tester/scripts/playbook/lib/__init__.py:22-43 | a generated payload whose refreshes are more than tREFI + 1 + PIPELINE_DELAY apart |
| PayloadLosses.EarlyRefreshes | rowhammer_tester/scripts/playbook/lib/__init__.py:22-43 | a generated payload that skips a refresh and an activation at its jump and still refreshes in time |
| PayloadSize.GeneratedSize | rowhammer_tester/scripts/playbook/lib/__init__.py:171-178 | the instructions and the words of a generated payload, and when they are as many |
| PayloadSize.TooLong | rowhammer_tester/scripts/playbook/lib/__init__.py:171-178 | a generated payload of seven instructions and nine words, which passes the check for a memory of eight words |
| Ddr3.Bank.Execute | rowhammer_tester/payload/ddr3lib.py:123-136 | a bank accepts a command exactly when its entry has been reached, and then raises its entries |
| Ddr3.Rank.Execute | rowhammer_tester/payload/ddr3lib.py:78-105 | rank, window of four activations and bank must all accept; then the whole scoreboard has moved by one step |
| Ddr3Rule.RankMeans | rowhammer_tester/payload/ddr3lib.py:53-68 | the rank entries say that all pairs with the history keep tCCD, tRRD, tRP and tRFC, and refresh looks only at the last ACT or PRE |
| Ddr3Rule.BankMeans | rowhammer_tester/payload/ddr3lib.py:110-121 | the bank entries say the same of tRCD, tRAS, tRP and tRTP on the bank, with reads only when open and activations only when closed |
| Ddr3Rule.FawMeans | rowhammer_tester/payload/ddr3lib.py:70-93 | the oldest of four kept activations decides whether a fifth would fall into the window |
| Ddr3Rule.AcceptsIffAllowed | rowhammer_tester/payload/ddr3lib.py:78-105 | after a legal history the scoreboard accepts a command exactly when the all-pairs rule allows it |
| Ddr3Rule.AcceptedIffLegal | rowhammer_tester/payload/ddr3lib.py:50-136 | for every history with nondecreasing ticks the scoreboard accepts exactly the legal ones |
| Ddr4.BankGroup.Execute | rowhammer_tester/payload/ddr4lib.py:121-134 | a group checks its own entry and the bank, and overwrites its entry with the long parameter |
| Ddr4.Rank4.Execute | rowhammer_tester/payload/ddr4lib.py:77-109 | rank, window, group and bank must accept; then all groups and the rank have moved by one step |
| Ddr4Rule.GroupMeans | rowhammer_tester/payload/ddr4lib.py:112-139 | an overwritten group entry still says that all earlier commands of the kind keep their distance, when a long turnaround is at most two short ones |
| Ddr4Rule.AcceptedIffLegal4 | rowhammer_tester/payload/ddr4lib.py:54-170 | under that condition the scoreboard accepts exactly the legal histories |
| Ddr4Rule.AcceptedAllApart | rowhammer_tester/payload/ddr4lib.py:96-102 | in every accepted run all pairs of ACTs and all pairs of RDs keep the long distance in a group and the short one across groups |
| Ddr4Rule.AcceptedPaired | rowhammer_tester/payload/ddr4lib.py:142-170 | in every accepted run, for all timings, all pairs keep tRAS, tRTP, tRCD and tRP on a bank, and tRFC and tRP around refreshes |
| Ddr4Rule.OverwrittenActs | rowhammer_tester/payload/ddr4lib.py:112-139 | otherwise an accepted run of three activations breaks the long distance |
| Ddr4Rule.OverwrittenReads | rowhammer_tester/payload/ddr4lib.py:112-139 | the same for reads |
| Ddr4Rule.OverwritingIsEnough | rowhammer_tester/payload/ddr4lib.py:96-139 | the scoreboard agrees with the rule on all histories if and only if both long turnarounds are at most twice the short ones |
| Checker.Advance | rowhammer_tester/payload/verify_payload.py:70-92 | a turn keeps the outcome of the whole program and comes closer to the end |
| Checker.State.Turn | rowhammer_tester/payload/verify_payload.py:67-92 | one turn executes a command, waits, or takes or leaves a jump, and counts the opcode |
| Checker.Run | rowhammer_tester/payload/verify_payload.py:64-97 | the run loop terminates, never leaves the program, and has the outcome, final tick and opcode counts of the unrolled program with each visited JMP costing a tick |
| CheckerVerdict.LegalByNumbers | rowhammer_tester/payload/ddr3lib.py:50-136 | the legal histories are those whose commands keep the rule by their opcode numbers: reads follow an opcode 4 of their bank with no opcode 5 in between, and all waiting times hold between all pairs |
| CheckerVerdict.VerdictMeans | rowhammer_tester/payload/verify_payload.py:64-100 | a run finishes exactly when the commands of the unrolled payload keep that rule, and then its totals are theirs |
| CheckerVerdict.BrokenAt | rowhammer_tester/payload/verify_payload.py:70-78 | else it stops at the tick of the first command that does not |
| CheckerVerdict.Check | rowhammer_tester/payload/verify_payload.py:48-100 | the checks in order, each failing exactly when its condition does: timings positive, instructions legal, and OK exactly for payloads whose unrolled commands keep the rule by their opcode numbers; else the tick of the first command that does not |
| CheckerVerdict.CheckedInstr | rowhammer_tester/payload/ddr3lib.py:10-46 | the instructions that pass, with the bounds of all fields |
| CheckerVerdict.CheckedTimings | rowhammer_tester/payload/verify_payload.py:53-58 | the timings pass exactly when none is 0 |
| CheckerVerdict.OverlapNeverEnds | rowhammer_tester/payload/verify_payload.py:80-92 | with overlapping loops that pass all checks the run loop never reaches the end |
| CheckerVerdict.NestedIsVerified | rowhammer_tester/payload/ddr3lib.py:36-46 | two nested loops pass the instruction checks |
| Pattern.OneHotSelects | rowhammer_tester/gateware/bist.py:37-46 | the one-hot decoder and the mask test select the mask bit of the divided row |
| Pattern.AdvanceSettles | rowhammer_tester/gateware/bist.py:43-72 | each cycle with the same address and word settles one more of the three registers |
| Pattern.StoredBits | rowhammer_tester/gateware/bist.py:37-72 | a word that fits is stored with every bit flipped exactly when the selection mask has the bit of its masked row |
| BistWriter.Writer.Clock | rowhammer_tester/gateware/bist.py:185-251 | all registers of the writer at an edge, and the transfer the DMA is offered |
| BistWriter.StepKeeps | rowhammer_tester/gateware/bist.py:200-251 | in SEND the offered transfer is the one of the pattern; a run ends with exactly count transfers |
| BistWriter.WriterRun | rowhammer_tester/gateware/bist.py:200-251 | whatever the DMA does, the transfers so far are those of the pattern in order, and the writer is ready after exactly seven cycles a transfer, one more, and the stalls |
| BistWriter.TransferBits | rowhammer_tester/gateware/bist.py:69-72 | the data of a transfer is its pattern word, with all bits flipped exactly in the rows of the selection mask |
| BistWriter.AddressSweep | rowhammer_tester/gateware/bist.py:200-251 | with ones in the low bits of the memory mask the transfers sweep the addresses from a pattern address on |
| BistReader.Reader.Clock | rowhammer_tester/gateware/bist.py:312-490 | the three FSMs and the queues of the reader at an edge |
| BistReader.StepKeeps | rowhammer_tester/gateware/bist.py:327-458 | every cycle keeps the invariant of the three FSMs and the queues |
| BistReader.ExpectedBits | rowhammer_tester/gateware/bist.py:69-72 | what a read is compared with is the pattern word, with all bits flipped exactly in the rows of the selection mask |
| ReaderRuns.ComparesExpected | rowhammer_tester/gateware/bist.py:398-458 | in RD_DATA the inverter has settled on the current address and pattern word |
| ReaderRuns.ReaderSafe | rowhammer_tester/gateware/bist.py:312-460 | in every reachable state: ready only when the address FSM is idle and nothing is queued or in flight; else the FIFO level is the difference of the counters plus one in PUSH_TO_DMA, and its head is the oldest read in flight |
| ReaderRuns.StepConserves | rowhammer_tester/gateware/bist.py:433-490 | while skip_fifo is low no error is lost, duplicated or overtaken on its way to the host |
| ReaderRuns.ErrorsConserved | rowhammer_tester/gateware/bist.py:404-490 | in every reachable state error_count is the number of errors found since the last start, which during a transfer are its mismatching reads, and errors found are acknowledged, held, queued or waiting, in order and once |
| ReaderRuns.WorkStep | rowhammer_tester/gateware/bist.py:327-458 | with responsive surroundings every busy cycle brings the end closer: the FSMs never wait for each other in a circle |
| ReaderRuns.ReaderEnds | rowhammer_tester/gateware/bist.py:327-458 | a transfer ends after at most twelve cycles a read, two more, and the delays from outside; it has asked for exactly the addresses of the pattern in order and found exactly the mismatches |
| WriteRead.WriteThenRead | rowhammer_tester/gateware/bist.py:200-251 | in mask mode a perfect memory gives no errors exactly when transfers to the same address carry the same data |
| WriteRead.ModuloExpectsWordZero | rowhammer_tester/gateware/bist.py:418-424 | in modulo mode it gives no errors exactly when the last word written to each address is word 0 |
| WriteRead.ModuloReportsErrors | rowhammer_tester/gateware/bist.py:418-424 | two words at two addresses, written and read back in modulo mode, for which a perfect memory is reported |
| HalfDouble.StepKeeps | rowhammer_tester/scripts/playbook/payload_generators/half_double_analysis.py:138-195 | nr_rows is the dilution, read_count the total divided by it, the total positive and the rows those of the stage, in every reached state |
| HalfDouble.FirstStage | rowhammer_tester/scripts/playbook/payload_generators/half_double_analysis.py:138-150 | a flip in the first stage inflates the dilution while the limit allows, and else gives the row up |
| HalfDouble.ToleranceStage | rowhammer_tester/scripts/playbook/payload_generators/half_double_analysis.py:159-169 | a flip in the tolerance stage goes on to the last one unless the read count is down to a step |
| HalfDouble.MaxDilutionStage | rowhammer_tester/scripts/playbook/payload_generators/half_double_analysis.py:171-186 | the last stage goes on with the next dilution exactly for a flip and while that is at most the limit, and else returns to the tolerance stage with a step fewer reads |
| HalfDouble.DilutionsVisited | rowhammer_tester/scripts/playbook/payload_generators/half_double_analysis.py:171-186 | flips in the last stage visit the dilutions up to the limit one after the other with the same read count |
| HalfDouble.MaxDilutionNeverEndsRow | rowhammer_tester/scripts/playbook/payload_generators/half_double_analysis.py:171-186 | the last branch of find_max_dilution is never taken |
| HalfDouble.Ends | rowhammer_tester/scripts/playbook/payload_generators/half_double_analysis.py:138-195 | for a productive configuration the search ends for every sequence of answers, by a lexicographic measure |
| HalfDouble.EndsIffProductive | rowhammer_tester/scripts/playbook/payload_generators/half_double_analysis.py:47-80 | it ends for all answers if and only if the dilution grows or starts above its maximum, and the read-count step is not 0 |
| HalfDouble.StuckTolerating | rowhammer_tester/scripts/playbook/payload_generators/half_double_analysis.py:159-186 | with more steps than reads some answers keep it going for ever |
| HalfDouble.HistogramCountsRows | rowhammer_tester/scripts/playbook/payload_generators/half_double_analysis.py:208-222 | no column of the row histogram counts a victim row twice, when no experiment is made twice |
| HalfDouble.HistogramIffOnce | rowhammer_tester/scripts/playbook/payload_generators/half_double_analysis.py:159-222 | so it is for all answers if and only if there is no row, no second read count, or both the dilution grows and the read count falls |
| HalfDouble.HistogramIsCount | rowhammer_tester/scripts/playbook/payload_generators/half_double_analysis.py:208-222 | a column is the number of flips at its dilution and read count, infinite at distance two, and none of the first stage |
| HalfDouble.RowsAroundVictim | rowhammer_tester/scripts/playbook/row_generators/half_double.py:41-77 | every run hammers decoys or the rows two away from the victim in turn, then its neighbours when distance_one is on |
| HalfDouble.FirstRun | rowhammer_tester/scripts/playbook/payload_generators/half_double_analysis.py:47-80 | the first run hammers the decoys in turn and then both neighbours of the first victim |
| HalfDouble.ReadsWithinBudget | rowhammer_tester/scripts/playbook/payload_generators/half_double_analysis.py:112-127 | the reads of a run are at most the total read count, and short of it by less than the dilution |
| HalfDouble.NewRowDistanceOne | rowhammer_tester/scripts/playbook/payload_generators/half_double_analysis.py:188-195 | a new row starts with distance_one exactly when the last one ended in a later stage or had it on in the first |
| HalfDouble.StaleDistanceOne | rowhammer_tester/scripts/playbook/payload_generators/half_double_analysis.py:188-195 | two answers after which the first stage of a row hammers no neighbour |
| HalfDoubleObjects.RowGenerator.UpdateParam | rowhammer_tester/scripts/playbook/row_generators/half_double.py:36-39 | a parameter is stored and all fields are loaded again |
| HalfDoubleObjects.RowGenerator.GenerateRows | rowhammer_tester/scripts/playbook/row_generators/half_double.py:44-90 | the row list, or the attribute error of one-sided hammering |
| HalfDoubleObjects.Analysis.ProcessErrors | rowhammer_tester/scripts/playbook/payload_generators/half_double_analysis.py:197-232 | the histogram and the next state of the search, from the rows in which errors were found |
| HalfDoubleObjects.SearchAll | rowhammer_tester/scripts/playbook/playbook.py:94-112 | for a productive configuration the main loop terminates for all answers, with the histogram of that search |
| Addresses.EncodeLinear | rowhammer_tester/scripts/utils.py:285-302 | the or-ed fields are the digits of one number |
| Addresses.EncodeOkIff | rowhammer_tester/scripts/utils.py:285-295 | coordinates are refused exactly when one of them does not fit its field |
| Addresses.DecodeLinear | rowhammer_tester/scripts/utils.py:323-332 | masking and shifting give the digits back |
| Addresses.BusRoundTrip | rowhammer_tester/scripts/utils.py:304-341 | decode_bus of encode_bus gives bank and row, and the column without the bits the address does not carry |
| Addresses.BusExactIff | rowhammer_tester/scripts/utils.py:304-341 | it gives back all coordinates if and only if the bus shift is not negative |
| Addresses.DmaRoundTrip | rowhammer_tester/scripts/utils.py:319-344 | decode_dma of encode_dma gives bank and row, and the column rounded down to the burst |
| Addresses.FirstPlace | rowhammer_tester/scripts/utils.py:310-321 | where the memory starts on the bus and for the DMA |
| Addresses.ColumnDistance | rowhammer_tester/scripts/utils.py:304-321 | columns a burst apart are as many bytes apart on the bus as the port is wide, and one apart for the DMA |
| Addresses.RowDistance | rowhammer_tester/scripts/utils.py:304-321 | neighbouring rows are as many bursts apart as the columns of all banks hold |
| RowRanges.RangeOutcome | rowhammer_tester/scripts/playbook/lib/__init__.py:181-191 | no rows have no range, and an assertion fails exactly when no listed row exists |
| RowRanges.RangeIffBetween | rowhammer_tester/scripts/playbook/lib/__init__.py:181-191 | an address is in the range exactly when its row is between the lowest and the highest listed row; above the last row the end of RAM decides |
| RowRanges.RangeCovers | rowhammer_tester/scripts/playbook/lib/__init__.py:181-191 | every address of every listed row is in the range when the row above the highest one exists |
| ReadLeveling.FindWindows | rowhammer_tester/scripts/read_level.py:211-222 | the list of windows is exactly the longest runs of error-free delays, in order |
| ReadLeveling.FindBest | rowhammer_tester/scripts/read_level.py:207-243 | no result exactly when every tested delay had errors; otherwise the window of the result is longest, the first of its kind, and twice the delay is the sum of its ends or one less |
| ReadLeveling.MiddleIsSafe | rowhammer_tester/scripts/read_level.py:240-243 | every tested delay from the start of the window to the returned delay is error-free |

## Left out

- LiteDRAM, LiteX and Migen: memories are synchronous reads of one cycle, FIFOs are bounded queues, the DMA is an in-order queue; the fields of `timings` and `geom` are parameters.
- CSR wrappers, target builds, clock generation and all scripts that talk to the board; the values of the CSRs are parameters or inputs.
- DDR5: the refresh counter of that memory type and its sub-channels.
- The scratchpad and the data of READ commands; of the DFI lines only the command, its phase, rank, bank and address are kept, and a NOOP counts as an idle bus.
- DDR4 `VerifyInstr` and a second run loop over the DDR4 rank: the loop is the one of `Checker`, with the other scoreboard; `Ddr4.Rank4.Execute` is the step it would take.
- `Program.ProgramOnGateware`: programs with nested loops or without a STOP; `Refinement.RunRefines` covers them, as the interpreter executes them.
- The verbose output of the payload compiler, among it the expected execution time in milliseconds.
- `Addresses.DecodeBus`: addresses below the base.
- Deriving the converter from generated settings: the logarithms of bus and port widths are parameters, as `log2_int` is a library function.
- The row mappings and the bit counts of the Half-Double search: errors are given as a set of logical rows; `bit_count` and `victim_list` are filled next to `row_count` in the same branch.
- `PatternMemory`: its depth is a power of two and the pattern addresses are not limited to 32 bits.
- `skip_fifo`: the conservation of errors is stated while it is low, since it drops errors when high.
- `RowHammerDMA`, `SRAM`, the EtherBone server, plots and SPD decoding: they would add only easy members.
