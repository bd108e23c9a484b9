# A model of the breakpoint engine

The debugger rewrites the code of a running program: a breakpoint is the byte `0xCC` in place of the
first byte of an instruction. This project models the part that does so and proves that it leaves no
trace: what a process does under the debugger is what it does alone, and every byte that was replaced
comes back.

## Layers

| file | what it holds |
|---|---|
| `Memory.dfy` | addresses, byte memory, the eight-byte peek and poke at any alignment, and that patching by read-modify-write changes one byte |
| `Machine.dfy` | the process as a deterministic machine with an abstract instruction set: run natively from its own code, or by the processor from patched code with a trap on `0xCC`; the reference "first native state at one of these addresses" |
| `Sequences.dfy` | duplicate-free sequences, the contents of the rings |
| `Model.dfy` | the engine as a state machine on values: breakpoints, locations, the location map, the pending ring, the code bytes, and every operation on them, with its error paths |
| `Invariants.dfy` | the invariant between operations, and that each operation keeps it |
| `Bulk.dfy` | enable-all, disable-all, delete-all |
| `Resolution.dfy` | pending breakpoints against a fresh process |
| `Rules.dfy` | when a location is patched, which commands keep that rule, and the one that does not |
| `Transparency.dfy` | `stepi` and `continue` against the native run |
| `Stepping.dfy` | `step`, `next` and `finish` against the native run |
| `Sessions.dfy` | runs of commands: the invariant over all of them, and where they take the process |
| `Commands.dfy` | what each command on breakpoints and on the life of the process does, told of the states before and after it alone; the order of the rings; runs of commands |
| `Moves.dfy` | where each command that runs the process takes it, told of the program's own run and of the locations, lines and return addresses there are |
| `Engine.dfy` | the objects themselves, updated in place by loops and pointers as the source does; each method is proved to do what the function of `Model.dfy` says, and never to touch or free a freed object |
| `List.dfy` | the intrusive circular list on nodes with `next` and `prev` |
| `HashMap.dfy` | Fibonacci hashing and the chained hash map on an array of linked entries |
| `Backtrace.dfy` | the frame-pointer walk, and a thread that builds the frames it walks |

`Model.dfy` says what the engine computes and the lemmas are about it; `Engine.dfy` connects the
code that updates fields to it: every method's postcondition gives the whole new state. `List.dfy` and
`HashMap.dfy` justify the sequences and maps that `Engine.dfy` uses for rings and tables. `Commands.dfy` and
`Moves.dfy` say what the functions of `Model.dfy` come to without naming them: their statements are about the
fields of the state, addresses modulo 2^64 and words of memory.

## Hypotheses

They are stated in the theorems, because the code does not keep its promises without them.

- An instruction's decoding depends on no byte behind it, the program executes no `int3` of its own,
  and no patched address is strictly inside an instruction it executes, as far as the command's budget
  lets it run and up to where `continue`, `next` or `finish` stops it (`Undisturbed`,
  `UndisturbedTo`; for a command and a whole session, `Calm` and `CalmAll`). `Machine.CleanRunMeaning` says
  this of the positions in the native run. Code is not used as data.
- The process survives the instruction stepped over a location. If it does not, the location that is
  about to be re-enabled has been freed (src/stepping.c:32-33); this outcome is `Dangling`. If the
  process ends while there are temporary locations, the assertion at src/debugger.c:517 fails; this
  outcome is `Aborted`.
- A patch needs eight mapped bytes. Where they are not, the peek yields all ones and the poke fails; the
  source records a patch all the same, and the model does too (`Armed` has the real ones).
- A budget `fuel` bounds how many instructions of the process are waited for. All theorems hold for every
  budget; `Hung` is the outcome of one that was too small.

## What is not as one might expect

- Deleting one breakpoint does not recompute the patch for the others at its location
  (src/breakpoint.c:139-147). `Rules.RemoveKeepsRuleExactly` says when this matters and
  `Rules.RemoveCanBreakRule` breaks the rule from every active state.
- A comment in `remove_breakpoint` (src/debugger.c:564-566) has an empty location removed; the code keeps it,
  unpatched, and `stepi` and `step` make no progress at it (src/stepping.c:29). `continue` does.
  `Transparency.StepInstructionIsNative` and `Stepping.StepNeverPassesInert` say exactly when, and
  `Sessions.StutterIsReachable` gets there from every active state at a fresh address with two commands.
- `next` and `finish` put no temporary location where there is one already (src/debugger.c:507-511). So
  `next` runs past a line whose first address has an unpatched location, and `finish` past a return address
  that has one; the same holds where the word cannot be written. `Stepping.NextStopsExactly` and
  `Stepping.FinishStopsExactly` are the exact conditions, and `Sessions.UnpatchedIsReachable` reaches one that
  fails.
- `finish` stops at an address, not in a frame. In a recursive function a call made there can come back to
  the same return address first: `Moves.FinishStopsInCaller` says exactly when the frame is the caller's, and
  `Moves.FinishCanStayInFrame` is a run in which `finish` stops in the frame it started in.
- Hash sizes are rounded up to even numbers, not to powers of two; a table of a size such as 1000 uses
  only its first `2^ctz(size)` buckets. Indices are in bounds all the same.

## Model

| member | source | states |
|---|---|---|
| Memory.ReadModifyWriteIsOneByte | src/breakpoint.c:278-283 | peeking the word at any address, replacing its low byte and poking it back changes that byte alone, whatever the seven bytes above hold; if the word is not mapped nothing changes and 0xFF is saved |
| Memory.LowByteOfJoin | src/breakpoint.c:279-281 | masking the low byte of a little-endian word out and another in changes its first byte and no other, and the low byte is the first |
| Memory.PeekIsSum | src/stepping.c:57-60 | a peek at a mapped word is the sum of its eight bytes at their place values, the byte at the address lowest |
| Memory.WrapIsModulo | src/debugger.c:407 | the sum of an instruction's address and the load address, as of a pc and one, is taken modulo 2^64 |
| Machine.InstructionSurvives | src/stepping.c:15-21 | an instruction that starts at no patched address, with none strictly inside, is fetched whole from patched code |
| Machine.PatchedRunIsWatch | src/debugger.c:535-538 | resuming the patched program until a trap is running the unpatched one until its pc is a patched address, and the trap is one byte behind it |
| Machine.CleanRunMeaning | src/stepping.c:15-35 | the hypothesis on the program, told of positions: every native state within the budget, up to the first at a stop, executes no int3 of its own and no instruction with a patched address strictly inside |
| Machine.FirstStopMeaning | src/debugger.c:527-539 | the reference found by running the unpatched program is the first state after one or more instructions at one of the addresses; or the program ends before any; or none comes within the budget |
| Invariants.EnableLocKeepsOverlay | src/breakpoint.c:271-288 | patching keeps: the code is the original image with 0xCC at the patched locations, and every patched location has saved the original byte, windows of nearby locations overlapping or not |
| Invariants.DisableLocKeepsOverlay | src/breakpoint.c:290-306 | unpatching keeps the same, in any order |
| Invariants.FreeLocShape | src/breakpoint.c:308-321 | freeing a location removes it from the map and clears exactly the pointers of its breakpoints; nothing else of the engine changes |
| Invariants.FreeLocKeepsCore | src/breakpoint.c:308-321 | after it, rings and pointers are still inverse, patched locations have breakpoints or are temporary, and the code is the image under the remaining patches |
| Invariants.EnableBpKeepsWf | src/breakpoint.c:105-116 | enabling a breakpoint keeps the invariant, all rings and all other pointers |
| Invariants.DisableBpKeepsWf | src/breakpoint.c:118-129 | disabling a breakpoint keeps the invariant, all rings and all other pointers |
| Invariants.RemoveKeepsWf | src/debugger.c:561-567 | deleting a breakpoint keeps the invariant: it is gone from the pending ring, the id map and its location's ring, and the others are where they were |
| Invariants.FreeBpForgets | src/breakpoint.c:136-153 | freeing a breakpoint takes it out of the one ring it is in and out of the id map, and changes no other breakpoint or ring |
| Invariants.AttachShape | src/debugger.c:401-421 | attaching makes or finds the location at the running address, puts the breakpoint last in its ring, points it there, and patches the location iff the breakpoint is enabled; other locations are untouched |
| Invariants.AttachKeepsWf | src/breakpoint.c:231-252 | attaching keeps the invariant |
| Invariants.CleanupKeepsInv | src/debugger.c:214-222 | after the death of the process there is no location map, every location pointer is null, the load address is 0 and ids, flags and pending order are as before; so the assertion before the next resolution holds |
| Invariants.SetTempKeepsRunning | src/debugger.c:504-514 | a temporary location keeps the invariant that holds while the process runs |
| Bulk.EnableAllErasesHistory | src/debugger.c:192-201 | from any reachable state, after enable-all every breakpoint is enabled and exactly the locations with a breakpoint are patched |
| Bulk.DisableAllErasesHistory | src/debugger.c:203-212 | from any reachable state, after disable-all no breakpoint is enabled, no location is patched and the code is the original image |
| Bulk.DeleteAllIsComplete | src/debugger.c:569-584 | from any reachable state, delete-all empties the pending ring and the id map, frees exactly the locations that have a breakpoint, shared ones once, and gives the original code back |
| Resolution.ResolveGroups | src/debugger.c:332-359 | resolution makes a location for exactly the running addresses of the pending breakpoints; each ring is the sub-sequence of the pending ring that belongs there, in order, and is patched iff its last breakpoint is enabled |
| Resolution.Group | src/debugger.c:342-349 | the reference grouping: the breakpoints of the pending ring with a given running address |
| Rules.EnableBpKeepsRule | src/breakpoint.c:104-116 | enabling keeps the rule: a location with all its breakpoints enabled is patched, one with none enabled is not |
| Rules.DisableBpKeepsRule | src/breakpoint.c:118-129 | disabling keeps the rule |
| Rules.SetKeepsRule | src/debugger.c:423-438 | setting a breakpoint keeps the rule |
| Rules.ResolveGivesRule | src/debugger.c:332-359 | the rule holds after every resolution |
| Rules.RemoveKeepsRuleExactly | src/breakpoint.c:136-147 | where the rule holds, deleting a breakpoint keeps it if and only if it is not the only one of a shared location with its flag while the patch follows that flag |
| Rules.RemoveCanBreakRule | src/breakpoint.c:136-147 | from every active state: set two breakpoints at a fresh address, disable the second; the rule, if it held, still holds; then delete the first, and it does not |
| Rules.DissenterBreaksRule | src/breakpoint.c:139-147 | deleting the only breakpoint of a shared location with its flag, while the patch follows that flag, leaves a location that breaks the rule, whatever held before |
| Rules.SetKeepsInv | src/debugger.c:423-438 | setting a breakpoint keeps the invariant and does not move the process |
| Rules.RestartKeepsAgreedPatches | src/debugger.c:371-373 | resolving again after a kill, at the same load address, does not abort, rebuilds exactly the locations that have a breakpoint, with the same breakpoints, and keeps the patch of each whose breakpoints agree |
| Transparency.UnpatchRepatch | src/stepping.c:29-34 | removing a patch and putting it back after the process has moved on is no change at all |
| Transparency.StepOverIsNative | src/stepping.c:23-35 | stepping over a patched location is one native instruction, with the patch back; if that instruction ends the process, a freed location is touched |
| Transparency.StepInstructionIsNative | src/stepping.c:42-50 | `stepi` is one native instruction, except exactly at an unpatched location, where it does nothing |
| Transparency.TrapIsRewound | src/debugger.c:239-254 | a trap at a patched location is rewound to it and the hit message finds a location with a breakpoint |
| Transparency.ContinueIsNative | src/debugger.c:527-539 | `continue` ends, pc rewound, in exactly the first native successor at a patched address, or cleans up if the program ends before; breakpoints, locations, patches and code are unchanged |
| Transparency.ContinueEndsAtFirstStop | src/debugger.c:527-539 | the same by counting: if the native run first meets a patched address after k instructions, a budget of k or more takes `continue` there |
| Stepping.StepWhileIsNative | src/stepping.c:88-92 | each outcome of the loop of `step` and what it says of the native run: ended at the first state on another line, whatever breakpoints were crossed; or still on it when the budget ends or stuck at an unpatched location; or the process ended |
| Stepping.StepEndsWhereLineIsLeft | src/stepping.c:77-92 | if the native run leaves the line without first meeting an unpatched location, `step` ends right there |
| Stepping.StepNeverPassesInert | src/stepping.c:29 | if it meets an unpatched location first, no budget makes `step` end |
| Stepping.StepEndsWithProcess | src/stepping.c:88-92 | if the program ends while still on the line, `step` goes on with a process that is not there |
| Stepping.TempsLeaveNothing | src/debugger.c:504-525 | whatever the processor state is by then, dropping the temporary locations gives back the location map, all patches and the code as they were |
| Stepping.FinishIsNative | src/stepping.c:55-75 | `finish` ends in the first native state at a breakpoint or at the return address, where there was no location at the return address, else at a breakpoint, with the engine and the code as before; a return address of 0 fails the assertion of the location's constructor |
| Stepping.FinishStopsExactly | src/debugger.c:504-514 | once the native run is at the return address, with no stop before, `finish` ends there if and only if there is no unpatched location there and the word can be written; else it goes on |
| Stepping.FinishEndsWhereItCan | src/debugger.c:504-514 | `finish` never ends at an address with an unpatched location or an unwritable word |
| Stepping.ScanFindsLineStarts | src/stepping.c:135-153 | the scan puts a temporary location at every address up to the function's end whose line is not that of the address before and that has none, and nowhere else; the addresses collected are distinct and exactly these |
| Stepping.NextPlaces | src/stepping.c:130-164 | with the return address outside main, the temporary locations are exactly the targets |
| Stepping.NextIsNative | src/stepping.c:100-174 | `next` ends in the first native state at a breakpoint or a target, with the engine and the code as before |
| Stepping.NextMissesNoLine | src/stepping.c:130-153 | between where `next` starts and where it stops, the native run is at no line start further down the function, except one where the process cannot be stopped |
| Stepping.ForwardLinesAreStops | src/stepping.c:130-153 | a line start further down the function is a stop if and only if there is no unpatched location there and the word can be written |
| Stepping.NextStopsExactly | src/stepping.c:130-167 | once the native run is at a line start further down the function, with no stop before, `next` ends there if and only if there is no unpatched location there and the word can be written; else it goes on |
| Stepping.ReturnIsStop | src/stepping.c:157-164 | outside main, once the scan is over, the return address has a location, and the process stops there if and only if there is no unpatched location and the word can be written |
| Stepping.NextReturnsExactly | src/stepping.c:157-167 | outside main, once the native run is back at the return address, with no stop before, `next` ends there if and only if there is no unpatched location there and the word can be written |
| Stepping.NextEndsWhereItCan | src/debugger.c:504-514 | `next` never ends at an address with an unpatched location or an unwritable word |
| Sessions.StartKeepsInv | src/debugger.c:48-80 | a new debugger satisfies the invariant and the rule |
| Sessions.ExecKeepsInv | src/debugger.c:192-584 | every command keeps the invariant: pending ring and id map hold the same breakpoints once each, each is in the ring of exactly the location at its running address, the code is the image under the patches, and the location map exists exactly while the process does |
| Sessions.SessionKeepsInv | src/debugger.c:192-584 | the invariant after every run of commands |
| Sessions.SessionKeepsRule | src/breakpoint.c:104-129 | after every run of commands without single deletions, a location with all its breakpoints enabled is patched and one with none enabled is not |
| Sessions.HitsNeverAbort | src/breakpoint.c:334-347 | from any state with the invariant, deletions included, a command aborts if and only if one of its own assertions fails: an address or a return address of 0, no line, or a process that ends under temporary locations; none ever aborts at a trap: its location is known, has a breakpoint, and does not repeat the first |
| Sessions.SessionsNeverAbortAtHits | src/breakpoint.c:334-347 | the same of every run of commands from the start |
| Sessions.RunningOnlyRuns | src/stepping.c:15-174 | the commands that run the process change nothing of the engine but where the process is, or clean up after it, with no hypothesis on the program |
| Sessions.LaunchIsNative | src/debugger.c:361-377 | starting a process ends in the first state of its native run, from the entry point on and after at least one instruction, at the address of a resolved and patched breakpoint, or cleans up if it ends before; it aborts exactly if a breakpoint's address is 0 |
| Sessions.RestartKeepsAgreement | src/debugger.c:395-399 | after a restart at the same load address, if the process is still there, exactly the locations that had a breakpoint are there, with the same breakpoints, and the same patch where those agree |
| Sessions.ExecAdvances | src/stepping.c:15-174 | every command, launches included, leaves a surviving process exactly as far along its native run as it is for, and one that is gone was killed or its native run ends |
| Sessions.SessionWalks | src/debugger.c:361-539 | every command of a session does so, for every process the session launches |
| Sessions.UnpatchedIsReachable | src/breakpoint.c:118-129 | from every active state, setting a breakpoint at a fresh address and disabling it leaves an unpatched location there, where the process cannot be stopped, and does not move the process |
| Sessions.StutterIsReachable | src/stepping.c:29 | from every active state at a fresh address, after these two commands `stepi` does nothing and `step` never ends, for any budget |
| Sessions.StuttersExactly | src/stepping.c:29 | a command leaves a process where it was exactly if it is `stepi` at an unpatched location, `step` without a line, `next` outside a known function, or a command that is not for running |
| Sessions.SessionSamplesNativeRun | src/debugger.c:361-539 | as long as a process lives, from its launch or any later state on, the states a session shows are states of its one native run, each as many instructions after the last as its command is for |
| Commands.BytesArePatches | src/breakpoint.c:271-306 | between commands a byte of the code is 0xCC if there is a patched location whose eight bytes are mapped, and the byte of the image otherwise |
| Commands.BreakAdds | src/debugger.c:423-438 | `break` adds an enabled breakpoint with the next id and that address, last in the pending ring and, in an active state, last in the ring at its address modulo 2^64, which gets patched; it fails exactly for address 0 of a running process; nothing else changes |
| Commands.DeleteDeletes | src/commands.c:242-255 | `delete` with an id takes that breakpoint out of the id map, the pending ring and its location's ring and no other; a location left empty stays, unpatched, and all other patches are as before; an unknown id changes nothing |
| Commands.EnableEnables | src/commands.c:257-269 | `enable` with an id sets that flag and no other, and patches exactly the location whose ring it is in, if all flags there are set now |
| Commands.DisableDisables | src/commands.c:271-283 | `disable` with an id clears that flag and no other, and unpatches exactly the location whose ring it is in, if no flag there is set now |
| Commands.EnableAllEnables | src/commands.c:257-262 | `enable` alone sets all flags and patches exactly the locations with a breakpoint |
| Commands.DisableAllDisables | src/commands.c:271-276 | `disable` alone clears all flags, no location is patched and the code is the image |
| Commands.DeleteAllDeletes | src/commands.c:242-248 | `delete` alone leaves no breakpoint and only the locations that had none, unpatched, and the code is the image |
| Commands.KillEnds | src/debugger.c:214-229 | killing leaves no process, no location map and load address 0, and every breakpoint with its id, address, flag and place in the pending ring but no location |
| Commands.RefusedChangesNothing | src/commands.c:393-413 | without a process the commands that need one change nothing, and neither does a `run` that is not confirmed |
| Commands.StartResolves | src/debugger.c:332-399 | `run` and `restart` fail if a breakpoint would be at address 0; once they end, every breakpoint has its address plus the new load address for location, locations are exactly there, each with all the breakpoints that belong there, and patched iff the newest of these is enabled; or the process is gone and all are pending |
| Commands.OrderDetermines | src/breakpoint.c:160-162 | a ring in the order of ids is determined by its members |
| Commands.ExecKeepsOrder | src/breakpoint.c:160-162 | every command keeps the pending ring and every location's ring in increasing order of ids |
| Commands.SessionKeepsOrder | src/debugger.c:342-357 | so after every run of commands the rings list breakpoints in the order in which they were set |
| Commands.SessionComposes | src/debugger.c:150-190 | a session is its commands one after the other, up to the first that fails or does not end |
| Commands.SessionOfOne | src/debugger.c:150-190 | a session of one command is that command |
| Moves.TrapIsBehind | src/debugger.c:239-243 | an int3 leaves the pc one byte behind it, modulo 2^64 |
| Moves.TrapGoesBack | src/debugger.c:239-254 | a trap sets the pc back by one, modulo 2^64, exactly if there is a location that is temporary or has a breakpoint and does not repeat the first; else an assertion fails; nothing else changes |
| Moves.ContinueGoesToLocation | src/debugger.c:527-539 | `continue` takes the process to the first state of its own run, after k instructions, at a patched location with eight mapped bytes |
| Moves.ContinueQuits | src/debugger.c:527-539 | a program that ends first leaves the debugger without a process, unless its one instruction was stepped from a patched location |
| Moves.StartRunsToLocation | src/debugger.c:361-399 | wherever `run` or `restart` ends with a process, it is the first state of that program's own run, from its entry point, at a patched location |
| Moves.StartGoesToBreakpoint | src/debugger.c:332-399 | from every state in which the rings are in order, told of the breakpoints before the launch alone: if the program's own run first comes, after k instructions, to a place whose newest breakpoint is enabled, `run` and `restart` end exactly there, with every breakpoint resolved |
| Moves.StepIMoves | src/stepping.c:42-50 | `stepi` is one instruction, and none at an unpatched location |
| Moves.StepMoves | src/stepping.c:77-92 | `step` without a line does nothing; with one, it ends at the first state on another line if no unpatched location comes first, for every budget that reaches it; at an unpatched location it never ends; if the program ends first it goes on without a process |
| Moves.ReturnsToCaller | src/stepping.c:55-60 | in a thread whose frames are linked, the return address `finish` and `next` read is where the caller of the innermost activation resumes |
| Moves.FinishGoesToStop | src/stepping.c:55-75 | `finish` fails for a return address of 0; else it takes the process to the first state of its own run at a patched location or, if no location is there, at the word above the saved frame pointer |
| Moves.FinishStopsInCaller | src/stepping.c:55-75 | once that is where the caller resumes, `finish` stops there, and in the caller's activation exactly if the frame pointer is the caller's |
| Moves.FinishCanStayInFrame | src/stepping.c:55-75 | it need not be: in a recursive function `finish` can stop in the frame it started in |
| Moves.FinishQuits | src/debugger.c:516-525 | a program that ends under `finish` fails the assertion exactly if a temporary location was put in, unless its one instruction was stepped from a location, whose code then goes on with a freed one |
| Moves.NextGoesToStop | src/stepping.c:100-174 | `next` fails without a line and, outside main, for a return address of 0; else it takes the process to the first state of its own run at a patched location or, where no location is, at the beginning of a line further down the function or, outside main, at the return address |
| Moves.NextQuits | src/debugger.c:516-525 | the same of `next`, which puts one in exactly if there is a line start or return address without a location |
| Moves.NextNeedsFunction | src/stepping.c:108-114 | outside every known function `next` does nothing |
| Engine.Tracee.ReplaceByte | src/breakpoint.c:278-286 | the two ptrace requests replace one byte and return the one that was there |
| Engine.BpLocation.Enable | src/breakpoint.c:271-288 | nothing if patched; else the byte is saved, 0xCC is written and the flag is set |
| Engine.BpLocation.Disable | src/breakpoint.c:290-306 | nothing if unpatched; else the saved byte is written, unless the process is gone, and the flag is cleared |
| Engine.Debugger.constructor | src/debugger.c:48-80 | an empty debugger represents the start state |
| Engine.Debugger.EnableBreakpoint | src/breakpoint.c:105-116 | the loop over the ring: the flag is set and the location patched iff all flags of the ring are set |
| Engine.Debugger.DisableBreakpoint | src/breakpoint.c:118-129 | the loop over the ring: the flag is cleared and the location unpatched iff no flag of the ring is set |
| Engine.Debugger.NewLocation | src/breakpoint.c:200-215 | a new location in the map under its address, unpatched, with an empty ring |
| Engine.Debugger.AppendBreakpoint | src/breakpoint.c:231-252 | the loop that looks for the breakpoint first; appended if it is not there, after which the location follows its flag |
| Engine.Debugger.AttachBreakpoint | src/debugger.c:401-421 | lookup, then a new location or an appended breakpoint; fails exactly when a location would be made at address 0 |
| Engine.Debugger.SetBreakpoint | src/debugger.c:423-438 | a new breakpoint with the next id, last in the pending ring, attached if the process is active |
| Engine.Debugger.FreeBreakpoint | src/breakpoint.c:136-153 | out of its ring, whose location is unpatched if left empty, and freed, once, when nothing refers to it |
| Engine.Debugger.RemoveBreakpoint | src/debugger.c:561-567 | one breakpoint out of the pending ring, the id map and its location, and freed |
| Engine.Debugger.FreeLocation | src/breakpoint.c:308-321 | its breakpoints detached by the loop over its ring, its byte restored, out of the map, and freed, once, when nothing points to it |
| Engine.Debugger.EnableAllBreakpoints | src/debugger.c:192-201 | the loop over the pending ring enables each breakpoint, in order |
| Engine.Debugger.DisableAllBreakpoints | src/debugger.c:203-212 | the loop over the pending ring disables each breakpoint, in order |
| Engine.Debugger.RemoveAllBreakpoints | src/debugger.c:569-584 | the loop that deletes while it iterates: each breakpoint is freed, every location is kept or freed, and no freed object is touched or freed again |
| Engine.Debugger.CleanupAtDeath | src/debugger.c:214-222 | every location is freed, in any order, each once, every breakpoint is detached, state and load address are reset |
| Engine.Debugger.ResolvePending | src/debugger.c:332-359 | fails exactly when there is a location map already or an address is 0; else every pending breakpoint is attached, in order |
| Engine.Debugger.HandleEvent | src/debugger.c:231-330 | one wait: clean-up when the process has ended; on a trap the pc is set back by one, and the location must be known and pass the checks of the hit message |
| Engine.Debugger.HasReport | src/breakpoint.c:323-347 | the loop of the hit message succeeds exactly for a temporary location and for a ring that is not empty and does not repeat its first breakpoint |
| Engine.Debugger.SingleStepInstruction | src/stepping.c:15-21 | one instruction of the process as the processor runs it, then the handling of what is reported |
| Engine.Debugger.Repatch | src/stepping.c:32-33 | after the step the patch is put back, and only if the location still exists |
| Engine.Debugger.StepOverLocation | src/stepping.c:23-40 | nothing at an unpatched location; else the patch is away for one instruction; the location is not re-enabled when it has been freed, which is reported instead |
| Engine.Debugger.StepOneInstruction | src/stepping.c:42-50 | a step over the location at pc if there is one, else a plain step |
| Engine.Debugger.ContinueExecution | src/debugger.c:527-539 | a step over the location at pc, then running to the next event |
| Engine.Debugger.StepToOtherLine | src/stepping.c:77-97 | the loop that steps while the line is the same |
| Engine.Debugger.SetTempLocation | src/debugger.c:504-514 | a patched temporary location where there was none; where there is one, patching and undoing it changes no byte and no map entry |
| Engine.Debugger.UnsetTempLocations | src/stepping.c:170-172 | the loop takes the temporary locations out of the map in the order they were collected and frees each |
| Engine.Debugger.StepOut | src/stepping.c:55-75 | a temporary location at the return address for one `continue` |
| Engine.Debugger.Collect | src/stepping.c:142-146 | an address is stored behind the others and the buffer doubled in time: there is always room for one more than the next |
| Engine.Debugger.ScanFunction | src/stepping.c:130-153 | the byte-by-byte scan never overruns its buffer and collects exactly the addresses at which a location was made |
| Engine.Debugger.PlaceReturn | src/stepping.c:157-164 | the return address is stored without a capacity check, for which there is always room |
| Engine.Debugger.StepOver | src/stepping.c:100-174 | scan, `continue`, and dropping of the collected locations |
| Engine.Debugger.KillTracee | src/debugger.c:224-229 | the process is gone, and every location with it |
| Engine.Debugger.SpawnTracee | src/debugger.c:361-377 | load, resolve, continue |
| Engine.Debugger.RestartTracee | src/debugger.c:395-399 | kill, then spawn |
| List.Init | include/list.h:29-32 | a head alone is an empty ring |
| List.Add | include/list.h:35-41 | linking a node between the neighbours at index k inserts it at k of the ring's sequence, with next and prev inverse |
| List.AddFront | include/list.h:43-45 | inserts at the front |
| List.AddBack | include/list.h:47-49 | inserts at the back |
| List.Delete | include/list.h:51-54 | unlinking the node at index k removes it from the sequence and leaves its own links as they were |
| List.Walk | include/list.h:15 | following next from the head visits every node once, in order, and ends |
| List.DeleteEach | include/list.h:17-18 | the safe walk with the current node unlinked in its body still visits every original node once, ends, leaves an empty ring, and does not disturb a ring through other nodes |
| Sequences.WithoutAt | include/list.h:51-54 | taking an element out of a duplicate-free sequence, as the model says of a ring, is removal at its index, as unlinking its node does |
| List.Enlist | src/breakpoint.c:160-162 | putting a breakpoint last in the pending ring leaves the location ring as it was |
| List.Append | src/breakpoint.c:231-245 | the walk of a location's ring finds a breakpoint exactly if it hangs there; if not, it is put last, and the pending ring is as it was |
| List.Unlist | src/breakpoint.c:164-166 | taking a breakpoint off the pending ring leaves the location ring it is also in as it was |
| List.Unlink | src/breakpoint.c:139-141 | taking it off its location's ring leaves the pending ring as it was, and tells whether the location is left empty |
| List.RemoveMember | src/debugger.c:561-567 | deleting a breakpoint takes it out of both rings it is in; each keeps all others in order |
| List.RingIsUnique | include/list.h:24-27 | the links determine the nodes of a ring and their order |
| HashMap.IndexInBounds | src/hashmap.c:23-44 | for every size that does not wrap to 0, even or odd, power of two or not, and every key, the shift is by 33 to 63 bits and the index is below 2^ctz of the rounded size, hence inside the table; the cast to 32 bits loses nothing |
| HashMap.IndexIsUpperPart | src/hashmap.c:23-26 | an index is exactly the part of the 64-bit product above the shift |
| HashMap.CtzSplits | src/hashmap.c:36-38 | the size is 2^ctz times an odd number, so that the shift keeps as many bits as the power of two in it has |
| HashMap.ProductInverts | src/hashmap.c:24 | multiplying by 11400714819323198485 modulo 2^64 loses nothing: each key is got back from its product, so no two keys have the same |
| HashMap.MapInit | src/hashmap.c:28-44 | no table for size 0; else a table of the size rounded up to an even one, which represents the empty map |
| HashMap.Walk | src/hashmap.c:76-81 | the loop along a chain stops at the first entry of the key, with the one before it in hand, or at the end when there is none |
| HashMap.HashMap.Find | src/hashmap.c:76-81 | the walk of the key's chain ends at its entry, with the one before, or at the end iff the map has no such key |
| HashMap.HashMap.Lookup | src/hashmap.c:62-71 | the object of the key in the finite map, or none |
| HashMap.HashMap.Insert | src/hashmap.c:46-60 | fails exactly on a null object or a present key; else the map gains the pair; the chains stay disjoint, acyclic and each key in its bucket |
| HashMap.HashMap.Delete | src/hashmap.c:73-91 | the map loses the key; its object is cleaned up once iff it was there and there is a cleanup function |
| HashMap.HashMap.TakeOut | src/hashmap.c:83-90 | unlinking at the head or behind the previous entry cuts one entry out of one chain |
| HashMap.HashMap.Free | src/hashmap.c:93-106 | every entry is freed: cleanup is called on each object of the map exactly once and on nothing else |
| Backtrace.PrintBacktrace | src/stepping.c:240-266 | the walk lists one frame per activation the saved words describe, up to and including the first in main, or up to the first without a known function, for chains of any depth |
| Backtrace.LinesAreCalls | src/stepping.c:230-235 | a listing of activations in known functions has one frame for each, in order, with its pc and the name of its function |
| Backtrace.ChainIsListed | src/stepping.c:251-264 | on any chain of frames the walk ends at the first activation in main or in no known function, at no other, and shows the chain up to there, frame by frame: the pc and the name of the function around it |
| Backtrace.WholeChainIsListed | src/stepping.c:240-266 | on any chain, of any depth, of known functions with main outermost only, the walk ends and shows one frame for each activation, innermost first, with its pc and function name |
| Backtrace.BacktraceIsCallStack | src/stepping.c:240-266 | after any run of calls, returns and work that writes anything but the saved words of frames with a caller, with main outermost only, the walk ends and shows one frame for each activation of the call stack, innermost first, with its pc and function name |
| Backtrace.RunKeepsLinked | src/stepping.c:245-264 | in any such run each frame's saved words lead to its caller's activation |
| Backtrace.SelfCallerNeverEnds | src/stepping.c:251-264 | in any memory, a frame outside main whose saved words are its own address and return address makes the walk endless, so the hypothesis that the chain ends is needed |

## Left out

- Signals: pending signals, the ones forwarded without another wait, and the process ended by one are not modelled; events are trap, step and exit.
- fork, exec, waitpid and ptrace failures other than those of peek and poke; the process is a deterministic machine and one wait yields one event.
- Raw register and memory writes by the user (src/registers.c); they can break every claim made here.
- Symbol and line information (src/symbols.c): the line of an address, the function around it and their bounds are parameters.
- Breakpoints by function name or line, and finding one by name in the pending ring (src/breakpoint.c:168-198): they end in the same operations as those by address.
- Printing, prompts, completion, argument parsing, disassembly: the answer to the restart prompt is a parameter of the command.
- The breakpoint id as a 64-bit counter: ids are unbounded, so no two coincide.
- Failure of malloc, and a null map: a null map has no entries, rejects every insertion and ignores deletion (src/hashmap.c:47, 63, 74, 94).
- The entry-point case of the backtrace (src/stepping.c:194-213), which moves the process past a prologue of four bytes.
- The rings of `Engine.dfy` are sequences and its maps are finite maps; `List.dfy` and `HashMap.dfy` prove that the linked structures represent just these, also with a breakpoint's nodes in two rings at once, but no method of `Engine.dfy` runs on them.
- The order of writes inside attaching: the source patches a new location before it puts it in the map, the model after. Nothing runs in between.
- Quitting the debugger (src/debugger.c:541-598).
- Engine.Debugger.HandleEvent: an event is a trap, a step or an exit; segmentation faults, aborts, signals that are forwarded and death by a signal are not modelled, as they are choices of the system and not of the program.
- Engine.Debugger.ContinueExecution: passes no pending signal on to the process it resumes, for the same reason.
- Transparency.ContinueIsNative: requires that no patched address is strictly inside an executed instruction and that the program has no int3 of its own, as the trap is otherwise not one of the debugger's.
- HashMap.MapInit: excludes the size 2^32 - 1, which is rounded up to 0; the number of trailing zeros of 0 is undefined (src/hashmap.c:36-38).
