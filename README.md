# gosiuml and obiqualia_gates, modelled in Dafny

This project models the sequential core of two parts of the oobiplp-qualia repository.

- **gosiuml**, the C phenomenological-token library:
  - the `MemFlags` register with its flag bits and reference count, plus the bitfield records and byte macros (`platform.dfy`, module `PhenoPlatform`);
  - the seven-state token state machine `step_state_machine` with its transitions, guards and recovery helpers (`state_machine.dfy`, module `PhenoStateMachine`);
  - the two relation transforms `map_obj_to_obj` and `apply_person_model` on the 16-byte `PhenoRelation` record (`relation.dfy`, module `PhenoRelations`);
  - the token configuration reader `parse_token_file` (`token_parser.dfy`, module `TokenParser`). Its two `sscanf` formats are read by a small interpreter of `fscanf` directives, following section 7.21.6.2 of ISO/IEC 9899:2011.
- **obiqualia_gates**, the two Python polarity trees:
  - the shared search tree, its rotations, deletion, measurements and filtered walks (`polarity_tree.dfy`, module `PolarityTrees`);
  - `RedAVLBridge` with its Morse and message encoders (`black2ered.dfy`, module `BlackToRed`);
  - `RedAVLTree` and its demo (`red2black.dfy`, module `RedToBlack`).

`options.dfy` holds the shared `Option` type.

How the source's forms are kept:
- Objects whose fields the source updates in place are classes with `modifies` frames: `MemFlags`, `Token`, `StateMachine`, the id counter, `PhenoRelation`, `RedAVLBridge` and `RedAVLTree`.
- Every state-changing method is tied to a pure function of the old state.
  - A state-machine step ends where `StepSpec(old view)` says.
  - A tree operation leaves the in-order walk that a map-like function of the old walk gives (`InsertSorted`, `RemoveKey`, `MeasureItems`, `InsertAll`).
- The properties are proved as lemmas about those functions.
- Loops in the source are `while` loops with invariants:
  - the popcount, the line loop of the parser;
  - `find`, `_min_node`, `_rebalance_up`;
  - the encoders.

Where the code and its comments disagree, the model follows the code.
- **Allocated + Lock.** The guard of `transition_allocated_to_locked` treats a successful `test_and_set_flag` as failure. So Alloc, Lock, Validate leaves the machine in Allocated (`AllocLockValidateStaysAllocated`).
- **Value header.** The comment calls it 64 bits, and the six widths do add up to 64. But an `unsigned int` bitfield does not straddle a 32-bit unit under the System V x86-64 ABI or MSVC. So `frame_id` sits at bit 32, `timestamp` at bit 64, and the header takes 12 bytes (`PackValueHeader`).
- **Recover.** It resets `retry_count`, and the step then increments it, leaving one retry.
- **Degraded to Freed.** The transition keeps the token attached.
- **Shared + Free with one reference.** The count drops from 1 to 0 and the machine moves to Freed (`FreeFromShared`). This is the SHARED to FREED step that `src/cli/main.c` expects at line 39.

## Model

| member | source | states |
|---|---|---|
| PhenoPlatform.FlagLayout | gosilang/MVP/gosiuml/include/phenomemory_platform.h:50-68 | the seven flag positions are distinct and below the ref-count shift; each mask is its field width shifted into place; the masks do not overlap each other or the flags; the zone mask is the zone count minus one |
| PhenoPlatform.SetBit | gosilang/MVP/gosiuml/include/phenomemory_platform.h:178-180 | after setting, the bit reads set and every other bit reads as before |
| PhenoPlatform.ClearBit | gosilang/MVP/gosiuml/include/phenomemory_platform.h:182-184 | after clearing, the bit reads clear and every other bit reads as before |
| PhenoPlatform.SetLeavesOtherBit | gosilang/MVP/gosiuml/include/phenomemory_platform.h:178-188 | OR-ing in one bit leaves the test of any other bit unchanged |
| PhenoPlatform.ClearedBitReadsClear | gosilang/MVP/gosiuml/include/phenomemory_platform.h:182-188 | AND-ing with the complement makes the bit test false |
| PhenoPlatform.ClearLeavesOtherBit | gosilang/MVP/gosiuml/include/phenomemory_platform.h:182-188 | AND-ing out one bit leaves the test of any other bit unchanged |
| PhenoPlatform.TestAndSet | gosilang/MVP/gosiuml/include/phenomemory_platform.h:190-193 | the result is true exactly when the bit was clear before; afterwards the bit is set and the word is the set word |
| PhenoPlatform.TestAndSetExclusive | gosilang/MVP/gosiuml/include/phenomemory_platform.h:190-193 | two consecutive test-and-set calls on a bit never both acquire it; the second never does |
| PhenoPlatform.SetClearRoundTrip | gosilang/MVP/gosiuml/include/phenomemory_platform.h:178-184 | setting then clearing a clear bit restores the word |
| PhenoPlatform.MemFlags.constructor | gosilang/MVP/gosiuml/include/phenomemory_platform.h:145-149 | a fresh register has all three words zero |
| PhenoPlatform.MemFlags.SetFlag | gosilang/MVP/gosiuml/include/phenomemory_platform.h:178-180 | the flag word becomes SetBit of the old word; ref count and metrics stay |
| PhenoPlatform.MemFlags.ClearFlag | gosilang/MVP/gosiuml/include/phenomemory_platform.h:182-184 | the flag word becomes ClearBit of the old word; ref count and metrics stay |
| PhenoPlatform.MemFlags.TestAndSetFlag | gosilang/MVP/gosiuml/include/phenomemory_platform.h:190-193 | the result and new word are those of TestAndSet on the old word; the other words stay |
| PhenoPlatform.MemFlags.IncrementRefCount | gosilang/MVP/gosiuml/include/phenomemory_platform.h:196-198 | the ref count grows by one modulo 2^32; the other words stay |
| PhenoPlatform.MemFlags.DecrementRefCount | gosilang/MVP/gosiuml/include/phenomemory_platform.h:200-202 | the ref count drops by one modulo 2^32, and the call returns the value after the decrement |
| PhenoPlatform.MemFlags.StoreDegradationMetrics | gosilang/MVP/gosiuml/src/core/pheno_state_machine.c:306 | the metrics word takes the value stored; the flags and ref count stay |
| PhenoPlatform.RefCountRoundTrip | gosilang/MVP/gosiuml/include/phenomemory_platform.h:196-206 | increment then decrement restores the ref count, and the decrement returns what get_ref_count then reads |
| PhenoPlatform.SetThenTest | gosilang/MVP/gosiuml/include/phenomemory_platform.h:178-188 | test_flag reads true after set_flag and false after clear_flag; any other bit and the other words are as before |
| PhenoPlatform.RotateLeftIsRotation | gosilang/MVP/gosiuml/include/phenomemory_platform.h:74 | the macro on a byte, truncated to 8 bits, is the 8-bit rotation by n mod 8 |
| PhenoPlatform.RotateByTwoFourTimes | gosilang/MVP/gosiuml/include/phenomemory_platform.h:74 | four rotations by two return the byte |
| PhenoPlatform.BitfieldWidths | gosilang/MVP/gosiuml/include/phenomemory_platform.h:76-104 | the declared widths sum to 32, 64 and 32 bits |
| PhenoPlatform.PackTokenType | gosilang/MVP/gosiuml/include/phenomemory_platform.h:77-84 | unpacking a packed token type returns it |
| PhenoPlatform.TokenTypeFillsWord | gosilang/MVP/gosiuml/include/phenomemory_platform.h:77-84 | every 32-bit word is the packing of its unpacking |
| PhenoPlatform.PackValueHeader | gosilang/MVP/gosiuml/include/phenomemory_platform.h:89-96 | the header laid out as three 32-bit bitfield units (frame_id at bit 32, timestamp at bit 64, 12 bytes) unpacks to the fields packed, and its padding bits are zero |
| PhenoPlatform.PackMetrics | gosilang/MVP/gosiuml/include/phenomemory_platform.h:99-104 | unpacking packed metrics returns them |
| PhenoPlatform.MetricsFillWord | gosilang/MVP/gosiuml/include/phenomemory_platform.h:99-104 | every 32-bit word is the packing of its unpacking |
| PhenoPlatform.MetricsRetryBound | gosilang/MVP/gosiuml/include/phenomemory_platform.h:102 | the retry-count field of any word is at most 63, and the zero word holds zero metrics |
| PhenoStateMachine.StateName | gosilang/MVP/gosiuml/src/core/pheno_state_machine.c:8-17 | the name is UNKNOWN exactly for codes outside 0..6 |
| PhenoStateMachine.EventName | gosilang/MVP/gosiuml/src/core/pheno_state_machine.c:20-29 | the name is UNKNOWN exactly for codes outside 0..7 |
| PhenoStateMachine.NamesIdentify | gosilang/MVP/gosiuml/src/core/pheno_state_machine.c:8-29 | distinct states and distinct events have distinct names, none of them UNKNOWN |
| PhenoStateMachine.SentinelFor | gosilang/MVP/gosiuml/src/core/pheno_state_machine.c:271 | the sentinel is PHENO_ followed by the id as eight upper-case hex digits |
| PhenoStateMachine.TokenIds.constructor | gosilang/MVP/gosiuml/src/core/pheno_state_machine.c:269 | the id counter starts at 0x10000000 |
| PhenoStateMachine.AllocToken | gosilang/MVP/gosiuml/src/core/pheno_state_machine.c:52 | the allocator answers null exactly when exhausted, and otherwise a fresh token with zero flag words |
| PhenoStateMachine.AssignId | gosilang/MVP/gosiuml/src/core/pheno_state_machine.c:268-272 | the token takes the counter's value and its sentinel, the counter grows by one, and nothing else changes |
| PhenoStateMachine.AssignTokenId | gosilang/MVP/gosiuml/src/core/pheno_state_machine.c:268-272 | the token and counter end as AssignId says |
| PhenoStateMachine.AssignIdsConsecutive | gosilang/MVP/gosiuml/src/core/pheno_state_machine.c:268-272 | two assignments give 0x10000000 and 0x10000001 and leave the counter at 0x10000002 |
| PhenoStateMachine.StateMachine.constructor | gosilang/MVP/gosiuml/src/core/pheno_state_machine.c:36-40 | a new machine is Nil with no substate, no token, no retries, confidence 1.0, uninitialised |
| PhenoStateMachine.CreateStateMachine | gosilang/MVP/gosiuml/src/core/pheno_state_machine.c:32-46 | null exactly when calloc fails, otherwise a fresh machine with those fields |
| PhenoStateMachine.InitializeSpec | gosilang/MVP/gosiuml/src/core/pheno_state_machine.c:49-57 | success exactly when the allocator grants; the token field is overwritten with the allocator's answer; only the token and initialised flag change |
| PhenoStateMachine.InitializeStateMachine | gosilang/MVP/gosiuml/src/core/pheno_state_machine.c:49-57 | null is refused; otherwise the machine ends as InitializeSpec says |
| PhenoStateMachine.ClearCleanupBits | gosilang/MVP/gosiuml/src/core/pheno_state_machine.c:297-299 | the three cleared bits read clear and every other bit of the flag word reads as before |
| PhenoStateMachine.Cleanup | gosilang/MVP/gosiuml/src/core/pheno_state_machine.c:294-301 | with no token nothing happens; otherwise ALLOCATED, LOCKED and PROCESSING are cleared, every other flag bit reads as before and every other field of the token stays |
| PhenoStateMachine.CleanupResources | gosilang/MVP/gosiuml/src/core/pheno_state_machine.c:294-301 | the machine's token is cleaned up as Cleanup says |
| PhenoStateMachine.InitiateRecoveryStep | gosilang/MVP/gosiuml/src/core/pheno_state_machine.c:284-287 | the confidence is multiplied by 0.9 and nothing else changes |
| PhenoStateMachine.ResetDegradationMetrics | gosilang/MVP/gosiuml/src/core/pheno_state_machine.c:303-307 | retries go to 0, confidence to 1.0 and the metrics word to 0 |
| PhenoStateMachine.TransitionNilToAllocated | gosilang/MVP/gosiuml/src/core/pheno_state_machine.c:73-86 | the machine and counter end as NilToAllocated says |
| PhenoStateMachine.TransitionAllocatedToLocked | gosilang/MVP/gosiuml/src/core/pheno_state_machine.c:89-104 | the machine ends as AllocatedToLocked says |
| PhenoStateMachine.TransitionLockedToActive | gosilang/MVP/gosiuml/src/core/pheno_state_machine.c:107-117 | the machine ends as LockedToActive says |
| PhenoStateMachine.TransitionActiveToDegraded | gosilang/MVP/gosiuml/src/core/pheno_state_machine.c:120-132 | the machine ends as ActiveToDegraded says |
| PhenoStateMachine.TransitionDegradedToActive | gosilang/MVP/gosiuml/src/core/pheno_state_machine.c:135-144 | the machine ends as DegradedToActive says |
| PhenoStateMachine.TransitionDegradedToFreed | gosilang/MVP/gosiuml/src/core/pheno_state_machine.c:147-156 | the machine ends as DegradedToFreed says |
| PhenoStateMachine.TransitionActiveToShared | gosilang/MVP/gosiuml/src/core/pheno_state_machine.c:159-167 | the machine ends as ActiveToShared says |
| PhenoStateMachine.TransitionToFreed | gosilang/MVP/gosiuml/src/core/pheno_state_machine.c:170-182 | the machine ends Freed with the token dropped |
| PhenoStateMachine.BumpRetryCount | gosilang/MVP/gosiuml/src/core/pheno_state_machine.c:235 | only the retry counter changes, by one |
| PhenoStateMachine.StepAllocated | gosilang/MVP/gosiuml/src/core/pheno_state_machine.c:200-206 | the Allocated branch ends as AllocatedStep says |
| PhenoStateMachine.StepLocked | gosilang/MVP/gosiuml/src/core/pheno_state_machine.c:208-217 | the Locked branch ends as LockedStep says |
| PhenoStateMachine.StepActive | gosilang/MVP/gosiuml/src/core/pheno_state_machine.c:219-227 | the Active branch ends as ActiveStep says |
| PhenoStateMachine.StepDegradedBranch | gosilang/MVP/gosiuml/src/core/pheno_state_machine.c:229-234 | the Degraded branch before the increment ends as DegradedBranch says |
| PhenoStateMachine.StepDegraded | gosilang/MVP/gosiuml/src/core/pheno_state_machine.c:229-236 | the Degraded case ends as DegradedStep says |
| PhenoStateMachine.StepShared | gosilang/MVP/gosiuml/src/core/pheno_state_machine.c:238-245 | the Shared case ends as SharedStep says |
| PhenoStateMachine.StepStateMachine | gosilang/MVP/gosiuml/src/core/pheno_state_machine.c:185-260 | a null machine fails and changes nothing; otherwise the machine, its token and the id counter end as StepSpec says, and the machine stays valid |
| PhenoStateMachine.StepPreservesValid | gosilang/MVP/gosiuml/src/core/pheno_state_machine.c:185-260 | a step never leaves a state that dereferences the token without one |
| PhenoStateMachine.StepUninitialized | gosilang/MVP/gosiuml/src/core/pheno_state_machine.c:186 | an uninitialised machine ignores every event |
| PhenoStateMachine.FreedIsTerminal | gosilang/MVP/gosiuml/src/core/pheno_state_machine.c:247-249 | Freed ignores every event |
| PhenoStateMachine.UnhandledEventsChangeNothing | gosilang/MVP/gosiuml/src/core/pheno_state_machine.c:194-250 | an event with no branch changes nothing, except that Degraded still counts a retry |
| PhenoStateMachine.AllocFromNil | gosilang/MVP/gosiuml/src/core/pheno_state_machine.c:73-86 | Alloc succeeds exactly when the allocator grants; the token then carries the next id, its sentinel and only ALLOCATED, and the counter grows by one; on failure the state stays Nil with a null token |
| PhenoStateMachine.LockFromAllocated | gosilang/MVP/gosiuml/src/core/pheno_state_machine.c:89-104 | with LOCKED clear, Lock sets it, reports failure and stays Allocated; with LOCKED set, it records the owner and moves to Locked |
| PhenoStateMachine.AllocLockValidateStaysAllocated | gosilang/MVP/gosiuml/src/cli/main.c:24-31 | Alloc, Lock, Validate from Nil ends in Allocated with LOCKED and ALLOCATED set; Lock and Validate both fail |
| PhenoStateMachine.UnlockFromLocked | gosilang/MVP/gosiuml/src/core/pheno_state_machine.c:208-216 | Unlock clears LOCKED, keeps every other bit and field, and returns to Allocated |
| PhenoStateMachine.ValidateFromLocked | gosilang/MVP/gosiuml/src/core/pheno_state_machine.c:107-117 | Validate succeeds exactly when ALLOCATED is set; it then sets COHERENT and PROCESSING, the Reading substate and Active; otherwise nothing changes |
| PhenoStateMachine.DegradeFromActive | gosilang/MVP/gosiuml/src/core/pheno_state_machine.c:120-132 | Degrade succeeds exactly when more than 60 retries were seen; it then clears COHERENT and scales confidence by 0.9; otherwise nothing changes |
| PhenoStateMachine.ShareFromActive | gosilang/MVP/gosiuml/src/core/pheno_state_machine.c:159-167 | Share always succeeds, adds one reference and sets SHARED |
| PhenoStateMachine.ActiveKeepsRetryCount | gosilang/MVP/gosiuml/src/core/pheno_state_machine.c:219-227 | no event in Active changes the retry counter |
| PhenoStateMachine.RecoverFromDegraded | gosilang/MVP/gosiuml/src/core/pheno_state_machine.c:135-144 | Recover succeeds exactly when confidence exceeds 0.3; it then ends Active with one retry, confidence 1.0, zero metrics and COHERENT set; otherwise only the retry count grows |
| PhenoStateMachine.FreeFromDegraded | gosilang/MVP/gosiuml/src/core/pheno_state_machine.c:147-156 | Free succeeds exactly when 63 or more retries were seen before the increment; the kept token loses ALLOCATED, LOCKED and PROCESSING |
| PhenoStateMachine.ThirdFreeFromDegraded | gosilang/MVP/gosiuml/src/core/pheno_state_machine.c:229-236 | from 61 retries, the first two Free events fail and the third reaches Freed |
| PhenoStateMachine.StepSpecDegraded | gosilang/MVP/gosiuml/src/core/pheno_state_machine.c:229-236 | a Degraded step is its branch followed by the retry increment |
| PhenoStateMachine.DegradedToFreedClears | gosilang/MVP/gosiuml/src/core/pheno_state_machine.c:147-156 | the transition succeeds exactly from 63 retries and then clears the three bits of the kept token |
| PhenoStateMachine.FreeFromShared | gosilang/MVP/gosiuml/src/core/pheno_state_machine.c:238-245 | Free always drops a reference and frees (dropping the token) exactly when the count was one |
| PhenoStateMachine.FreeFromAllocatedOrActive | gosilang/MVP/gosiuml/src/core/pheno_state_machine.c:170-182 | Free from Allocated or Active succeeds, drops the token and ends in Freed |
| PhenoStateMachine.InitialViewSatisfiesInv | gosilang/MVP/gosiuml/src/core/pheno_state_machine.c:32-57 | a created and successfully initialised machine satisfies the invariant |
| PhenoStateMachine.StepPreservesInv | gosilang/MVP/gosiuml/src/core/pheno_state_machine.c:185-260 | every step keeps the invariant: confidence 1.0 outside Degraded and 0.9 inside, ALLOCATED held in live states, LOCKED and an owner in Locked |
| PhenoStateMachine.GuardsNeverFailUnderInv | gosilang/MVP/gosiuml/src/core/pheno_state_machine.c:274-282 | under the invariant, the Recover and Validate guards always pass |
| PhenoRelations.Relation.constructor | gosilang/MVP/gosiuml/include/phenomemory_platform.h:118-142 | the record holds the sixteen given bytes |
| PhenoRelations.MapObjToObj | gosilang/MVP/gosiuml/src/core/pheno_relation.c:4-12 | subject and class ids are XOR-merged, instance state OR-merged, person state the source's rotated by two; nothing else changes, even when source and destination alias |
| PhenoRelations.MapObjToObjTwice | gosilang/MVP/gosiuml/src/core/pheno_relation.c:6-10 | mapping twice restores the ids and keeps the merged instance state |
| PhenoRelations.MapObjToObjGainsBits | gosilang/MVP/gosiuml/src/core/pheno_relation.c:10 | the merged instance state keeps every bit of both records |
| PhenoRelations.MapObjToObjPersonState | gosilang/MVP/gosiuml/src/core/pheno_relation.c:4-12 | the person state ignores the old destination and is the 8-bit rotation; the twelve fields not named stay |
| PhenoRelations.MapObjToObjOntoItself | gosilang/MVP/gosiuml/src/core/pheno_relation.c:6-10 | mapping a record onto itself zeroes its ids and keeps its instance state |
| PhenoRelations.MapObjToObjExample | gosilang/MVP/gosiuml/examples/example.c:96-114 | subjects 0x01 onto 0x04 give 0x05, classes 0x02 onto 0x05 give 0x07 |
| PhenoRelations.PopcountAtMost | gosilang/MVP/gosiuml/src/core/pheno_relation.c:21-26 | a byte with no bits at or above k has at most k one bits |
| PhenoRelations.PersonState | gosilang/MVP/gosiuml/src/core/pheno_relation.c:29-32 | the state is below 8, with bit 0 from a, bit 1 from b and bit 2 from a XOR b |
| PhenoRelations.ApplyPersonModel | gosilang/MVP/gosiuml/src/core/pheno_relation.c:15-33 | id and role take a and b, authority is the popcount of a XOR b (at most 8), state is PersonState; subject, class and instance fields stay |
| PhenoRelations.PopcountStep | gosilang/MVP/gosiuml/src/core/pheno_relation.c:23-26 | one loop pass keeps count plus remaining bits, without byte wrap-around |
| PhenoRelations.PersonModelExample | gosilang/MVP/gosiuml/examples/example.c:121 | 0xAA against 0x55 gives authority 8 and state 0x04 |
| PhenoRelations.RelationExample | gosilang/MVP/gosiuml/examples/example.c:93-121 | the example's records give subject 0x05 and authority 8 |
| TokenParser.SkipSpace | iota/gosilang/MVP/gosiuml/src/core/token_parser.c:29 | the first non-space position at or after i, every skipped character a space |
| TokenParser.MatchHex | iota/gosilang/MVP/gosiuml/src/core/token_parser.c:29 | a %x match consumes at least one character and yields a number |
| TokenParser.MatchWord | iota/gosilang/MVP/gosiuml/src/core/token_parser.c:29 | a %s match yields a non-empty word without white space |
| TokenParser.ScanKinds | iota/gosilang/MVP/gosiuml/src/core/token_parser.c:29-55 | the k-th converted value is a number exactly when the k-th conversion is %x, and there are no more values than conversions |
| TokenParser.FormatKinds | iota/gosilang/MVP/gosiuml/src/core/token_parser.c:29-54 | the token format converts hex, word, word; the relation format hex, hex, word |
| TokenParser.SentinelOf | iota/gosilang/MVP/gosiuml/src/core/token_parser.c:38-39 | the sentinel is the type word's prefix of at most 15 characters, all of it when it fits |
| TokenParser.ScanTokenLineIffThree | iota/gosilang/MVP/gosiuml/src/core/token_parser.c:29 | a token entry exists exactly when sscanf returns 3 |
| TokenParser.ScanRelationLineIffThree | iota/gosilang/MVP/gosiuml/src/core/token_parser.c:54-55 | a relation entry exists exactly when sscanf returns 3 |
| TokenParser.Stored | iota/gosilang/MVP/gosiuml/src/core/token_parser.c:35-41 | the stored token carries the parsed id, the truncated sentinel and the zone as glibc's atoi stores it in a byte, with zero flag words |
| TokenParser.Strtol | iota/gosilang/MVP/gosiuml/src/core/token_parser.c:40 | glibc's atoi value lies within a 64-bit long and equals the numeral's value whenever that fits |
| TokenParser.SaturatedConversions | iota/gosilang/MVP/gosiuml/src/core/token_parser.c:29-40 | a zone numeral beyond a 64-bit long stores 0xFF above and 0 below; an id numeral of magnitude 2^64 or more stores 0xFFFFFFFF whatever its sign |
| TokenParser.ParseTokenFile | iota/gosilang/MVP/gosiuml/src/core/token_parser.c:8-65 | an unopenable file gives -1 and no tokens; otherwise the count of token lines and freshly allocated tokens matching TokenViews |
| TokenParser.ReadLines | iota/gosilang/MVP/gosiuml/src/core/token_parser.c:20-60 | the loop returns the count of token lines and the tokens TokenViews lists |
| TokenParser.ReadLine | iota/gosilang/MVP/gosiuml/src/core/token_parser.c:20-60 | one pass extends the count and tokens of the lines before to the lines up to it |
| TokenParser.ParseLine | iota/gosilang/MVP/gosiuml/src/core/token_parser.c:22-47 | a line is counted exactly when it is a token line; a token is made exactly when counted and the allocator grants |
| TokenParser.MakeToken | iota/gosilang/MVP/gosiuml/src/core/token_parser.c:35-41 | null exactly when the allocator is exhausted, otherwise the Stored token |
| TokenParser.TokenViewsPrefix | iota/gosilang/MVP/gosiuml/src/core/token_parser.c:20-47 | one more line adds its count and at most its token |
| TokenParser.CountTokensMonotone | iota/gosilang/MVP/gosiuml/src/core/token_parser.c:20-30 | a prefix of the file holds no more token lines than the file |
| TokenParser.TokenLineIffFullMatch | iota/gosilang/MVP/gosiuml/src/core/token_parser.c:22-30 | a line is counted exactly when the token format completes all three conversions |
| TokenParser.IndentedTokenLineNotCounted | iota/gosilang/MVP/gosiuml/src/core/token_parser.c:25-29 | an indented TOKEN: line passes strstr but is not counted |
| TokenParser.RelationLineNotCounted | iota/gosilang/MVP/gosiuml/src/core/token_parser.c:50-58 | a relation line is never a token line and never changes the count |
| TokenParser.CountTokensAppend | iota/gosilang/MVP/gosiuml/src/core/token_parser.c:20-30 | the count of two runs of lines is the sum of their counts |
| TokenParser.SkippedLineNotCounted | iota/gosilang/MVP/gosiuml/src/core/token_parser.c:22 | comment and empty lines never count |
| TokenParser.TokensAtMostCount | iota/gosilang/MVP/gosiuml/src/core/token_parser.c:30-36 | at most one token per counted line, and exactly one each when the allocator never fails |
| TokenParser.HexNumeralValue | iota/gosilang/MVP/gosiuml/src/core/token_parser.c:29 | %x reads back the value of the hex digits printf writes |
| TokenParser.TokenLineRoundTrip | iota/gosilang/MVP/gosiuml/src/core/token_parser.c:25-30 | a written TOKEN line reads back as its id and two words and is counted |
| PolarityTrees.NewNode | obiqualia_gates/black2ered.py:29-45 | a new node holds exactly its data with a zero streak |
| PolarityTrees.Flip | obiqualia_gates/black2ered.py:60-63 | flipping changes the colour |
| PolarityTrees.FlipInvolution | obiqualia_gates/black2ered.py:60-63 | flipping twice restores the colour |
| PolarityTrees.UpdateHeight | obiqualia_gates/black2ered.py:47-52 | the height becomes one more than the taller child's, everything else stays |
| PolarityTrees.HeavySideExists | obiqualia_gates/black2ered.py:54-58 | a balance factor above 1 means a taller left child, below -1 a taller right child |
| PolarityTrees.OrderedSorted | obiqualia_gates/black2ered.py:83-106 | an ordered tree walks its keys in increasing order |
| PolarityTrees.KeysLookup | obiqualia_gates/black2ered.py:210-217 | a key is in the tree exactly when the walk maps it |
| PolarityTrees.LookupInsertSorted | obiqualia_gates/black2ered.py:83-106 | sorted insertion is a map update: the key maps to the new data over the old streak |
| PolarityTrees.LookupRemoveKey | obiqualia_gates/black2ered.py:265-292 | removal unmaps the key and keeps every other |
| PolarityTrees.PlugItems | obiqualia_gates/black2ered.py:250-258 | a tree rebuilt from a focus and its parent path walks the path's left part, the focus, then its right part |
| PolarityTrees.SearchFinds | obiqualia_gates/black2ered.py:210-217 | in an ordered tree the search finds a node exactly for keys in the tree, and that node has the key |
| PolarityTrees.FindPath | obiqualia_gates/black2ered.py:210-217 | the find loop stops at the search result, with the path of parents back to the root |
| PolarityTrees.FoundIsLookup | obiqualia_gates/red2black.py:109-115 | find answers nothing exactly for missing keys, and otherwise the node the walk maps the key to |
| PolarityTrees.BstInsert | obiqualia_gates/black2ered.py:83-106 | the key set gains the key; ordering is kept; a repeated key was already there; the root key stays |
| PolarityTrees.BstInsertItems | obiqualia_gates/red2black.py:34-49 | insertion into an ordered tree is sorted insertion into its walk |
| PolarityTrees.BstInsertColor | obiqualia_gates/black2ered.py:94-103 | a repeated key's node flips colour when flipping is on and keeps it otherwise |
| PolarityTrees.RotateLeft | obiqualia_gates/black2ered.py:129-153 | the rotation keeps the walk and keys, and with recolouring the lowered node is red |
| PolarityTrees.RotateRight | obiqualia_gates/black2ered.py:155-179 | the mirror rotation keeps the walk and keys, and with recolouring the lowered node is red |
| PolarityTrees.RotationsOrdered | obiqualia_gates/red2black.py:61-91 | both rotations keep the search-tree property |
| PolarityTrees.RecolorChildren | obiqualia_gates/black2ered.py:196-203 | a red node's children turn black; walk and keys stay |
| PolarityTrees.RebalanceStep | obiqualia_gates/black2ered.py:181-208 | one pass keeps walk and keys, and reports a rotation exactly when it made one |
| PolarityTrees.RebalanceStepOrdered | obiqualia_gates/black2ered.py:181-208 | one pass keeps the search-tree property |
| PolarityTrees.RebalanceUp | obiqualia_gates/red2black.py:93-107 | the rebalancing loop keeps the walk, the keys and the search-tree property of the whole tree |
| PolarityTrees.MinNode | obiqualia_gates/black2ered.py:260-263 | the min loop stops at the leftmost node |
| PolarityTrees.RemoveMinItems | obiqualia_gates/black2ered.py:278-284 | the leftmost node holds the first item and smallest key, and removing it keeps the rest ordered |
| PolarityTrees.RemoveNode | obiqualia_gates/black2ered.py:265-292 | the replacement subtree walks the two children in order and keeps all keys but the deleted one |
| PolarityTrees.InsertBelow | obiqualia_gates/black2ered.py:108-127 | insertion into a non-empty tree is sorted insertion into the walk, keeps order, makes no rotation for a repeated key, and flips a repeated node's colour as asked |
| PolarityTrees.Splice | obiqualia_gates/red2black.py:139-170 | the splice result is RemoveNode of the deleted node |
| PolarityTrees.SpliceInPlace | obiqualia_gates/black2ered.py:265-292 | splicing a node out removes exactly its key from the whole walk and keeps order |
| PolarityTrees.DeleteFrom | obiqualia_gates/black2ered.py:265-292 | the walk loses the key; the key set is the old minus the key; order is kept; a missing key changes nothing |
| PolarityTrees.Measured | obiqualia_gates/black2ered.py:219-236 | a measurement sets the confidence, the polarity when given, and resets or bumps the streak |
| PolarityTrees.MeasureEffect | obiqualia_gates/black2ered.py:219-248 | a good measurement keeps the node with a reset streak; a low one bumps the streak and prunes at the limit; other keys stay |
| PolarityTrees.MeasureAt | obiqualia_gates/red2black.py:117-137 | the new walk is MeasureItems of the old; pruning happens exactly as Prunes says; an unknown key changes nothing |
| PolarityTrees.SearchThroughPath | obiqualia_gates/black2ered.py:210-217 | in an ordered tree the search for a key of a subtree ends inside it |
| PolarityTrees.InorderFilterItems | obiqualia_gates/black2ered.py:332-338 | the filtered walk appends exactly the coherent items in walk order |
| PolarityTrees.CoherentItemsExactly | obiqualia_gates/black2ered.py:323-338 | an item is decoded exactly when it is in the tree, positive and confident enough, and decoding keeps key order |
| PolarityTrees.JoinAppend | obiqualia_gates/black2ered.py:330 | joining two lists concatenates their joins |
| PolarityTrees.InsertAllSnoc | obiqualia_gates/black2ered.py:308-321 | one more entry is one more insertion or none |
| PolarityTrees.LookupInsertAll | obiqualia_gates/black2ered.py:308-321 | a run of insertions maps each present position to its entry over the old streak and keeps absent keys |
| PolarityTrees.InsertAllFresh | obiqualia_gates/red2black.py:172-178 | into an empty tree, positional entries are appended in position order |
| PolarityTrees.Vowels | obiqualia_gates/red2black.py:172-191 | the vowels of a message are no longer than it and are all vowels |
| BlackToRed.MorseDotsOnly | obiqualia_gates/black2ered.py:13-19 | a code is all dots exactly for E, I, S and H |
| BlackToRed.Upper | obiqualia_gates/black2ered.py:298 | lower-case ASCII letters go to upper case, every other character stays |
| BlackToRed.MorseEntry | obiqualia_gates/black2ered.py:296-306 | a node exists exactly for characters in the table; it is keyed by position, positive exactly for E, I, S, H, with confidence 0.95 or 0.35 |
| BlackToRed.MorseEntriesAt | obiqualia_gates/black2ered.py:296-306 | the entries are positional and position i is MorseEntry of character i |
| PolarityTrees.VowelPolarity | obiqualia_gates/black2ered.py:313-314 | the default polarity map is positive exactly for the vowels, in either case; `red2black.py:176`'s extra `isalpha()` test gives the same map |
| BlackToRed.MessageEntry | obiqualia_gates/black2ered.py:308-321 | no node for white space; otherwise keyed by position with the map's polarity and confidence 0.9 or 0.4 |
| BlackToRed.MessageEntriesAt | obiqualia_gates/black2ered.py:308-321 | the entries are positional and position i is MessageEntry of character i |
| BlackToRed.DecodeAfterEncode | obiqualia_gates/black2ered.py:308-338 | encoding a message into an empty bridge and decoding at most 0.9 gives its vowels |
| BlackToRed.RedAVLBridge.constructor | obiqualia_gates/black2ered.py:75-81 | an empty bridge with its parameters and zero counters |
| BlackToRed.RedAVLBridge.Insert | obiqualia_gates/black2ered.py:83-127 | the walk gets the sorted insertion; keys gain the key; the root is black; transitions: none into an empty tree, one for a repeated key, an even number otherwise; a repeated key below the root flips colour |
| BlackToRed.RedAVLBridge.Find | obiqualia_gates/black2ered.py:210-217 | the answer is the walk's entry for the key, present exactly for keys in the tree |
| BlackToRed.RedAVLBridge.Delete | obiqualia_gates/black2ered.py:265-292 | the walk loses the key and keeps every other; transitions grow by an even number; a missing key changes nothing |
| BlackToRed.RedAVLBridge.MeasureAndPrune | obiqualia_gates/black2ered.py:219-248 | the walk becomes MeasureItems; nodes_pruned grows exactly on pruning; an unknown key changes nothing; a kept node flips colour |
| BlackToRed.RedAVLBridge.EncodeNameInMorse | obiqualia_gates/black2ered.py:296-306 | the walk becomes the old walk with the name's Morse entries inserted in order |
| BlackToRed.RedAVLBridge.EncodeMessage | obiqualia_gates/black2ered.py:308-321 | the walk becomes the old walk with the message entries (default or given map) inserted in order |
| BlackToRed.RedAVLBridge.DecodeCoherentSignal | obiqualia_gates/black2ered.py:323-330 | the signal is the join of the coherent items in key order |
| BlackToRed.EncodeMessageEffect | obiqualia_gates/black2ered.py:308-321 | after encoding, each non-space position holds its character and every other key is as before |
| BlackToRed.EncodeNameEffect | obiqualia_gates/black2ered.py:296-306 | after encoding, each position with a Morse code holds its letter and every other key is as before |
| RedToBlack.LetterEntry | obiqualia_gates/red2black.py:172-178 | every position gets a node with its character, positive vowels at 1.0 and the rest at 0.3 |
| RedToBlack.LetterEntriesAt | obiqualia_gates/red2black.py:172-178 | the entries are positional and position i is LetterEntry of character i |
| RedToBlack.InorderPolarityItems | obiqualia_gates/red2black.py:186-191 | the walk appends exactly the items of that polarity in walk order |
| RedToBlack.PolarityItemsExactly | obiqualia_gates/red2black.py:180-191 | an item is decoded exactly when it is in the tree with that polarity, and decoding keeps key order |
| RedToBlack.DecodeAfterEncode | obiqualia_gates/red2black.py:172-191 | encoding a message into an empty tree and decoding the positive path gives its vowels |
| RedToBlack.RedAVLTree.constructor | obiqualia_gates/red2black.py:29-32 | an empty tree with its parameters |
| RedToBlack.RedAVLTree.Insert | obiqualia_gates/red2black.py:34-59 | the walk gets the sorted insertion; keys gain the key; the first node is black; a repeated key keeps its colour |
| RedToBlack.RedAVLTree.Find | obiqualia_gates/red2black.py:109-115 | the answer is the walk's entry for the key, present exactly for keys in the tree |
| RedToBlack.RedAVLTree.Delete | obiqualia_gates/red2black.py:152-170 | the walk loses the key and keeps every other; a missing key changes nothing |
| RedToBlack.RedAVLTree.MarkMeasurement | obiqualia_gates/red2black.py:117-137 | the walk becomes MeasureItems; the result says whether the node was pruned; an unknown key changes nothing; a kept node keeps its colour |
| RedToBlack.RedAVLTree.EncodeMessage | obiqualia_gates/red2black.py:172-178 | the walk becomes the old walk with every character inserted under its position |
| RedToBlack.RedAVLTree.DecodePositivePath | obiqualia_gates/red2black.py:180-184 | the signal is the join of the positive items in key order |
| RedToBlack.EncodeMessageEffect | obiqualia_gates/red2black.py:172-178 | after encoding, each position holds its character and every other key is as before |
| RedToBlack.Example | obiqualia_gates/red2black.py:193-205 | with threshold 0.5 and streak 1, measuring key 2 prunes it and decoding gives AC |

## Left out

- Concurrency: the mutex and spinlock are not modelled, and the atomics are plain sequential updates of `bv32` words. One step of the machine is one atomic step. The thread owner is an opaque value compared by equality.
- The allocator (`pheno_token_alloc`, `pheno_token_free`) is a parameter that either grants a token with zeroed flag words or fails. Memory zones, memory statistics and memory cleanup are not part of this model.
- `destroy_state_machine` only releases memory, so it is left out.
- The token that `initialize_state_machine` allocates and a later Alloc overwrites is leaked; no memory-safety property is stated about it.
- `process_token_operations` and `attempt_hitl_recovery` only print, so they are left out.
- All `printf`/`print` output is left out: the state and event names are used only as values, and `visualize_energy_states`, `_print_tree` and the `main()` of black2ered.py are left out.
- Floating point: confidences are reals with no rounding, and `retry_count / 100.0f > 0.6f` is the integer test `retry_count > 60`.
- PhenoStateMachine.StepStateMachine: requires `sm.Valid()`, meaning a machine in Locked, Active, Degraded or Shared holds a token. The C dereferences the token in those states without a null test. Only `InitializeStateMachine` with an `Exhausted` allocation, called on a machine in one of those four states, can leave such a machine without a token; the model does not say what a step does after that.
- PhenoStateMachine.AllocToken: the new token's owner is None, which stands for the zero `pthread_t` of a fresh token.
- TokenParser.ParseTokenFile: the file is the sequence of lines `fgets` returns. The model requires what keeps the C defined: lines of 1 to 255 characters without NUL, and `%s` words that fit their arrays.
- TokenParser.ParseTokenFile: relation lines are recognised but only printed, so the model stores nothing for them.
- TokenParser.Stored32 and TokenParser.ZoneByte: follow glibc on a 64-bit target, where C leaves the result undefined. `%x` goes through `strtoul`: a magnitude of 2^64 or more stores 0xFFFFFFFF, and a smaller one is negated modulo 2^64 for a minus sign and then truncated to 32 bits. `atoi` is `(int) strtol`, which saturates at -2^63 and 2^63 - 1, and the `uint8_t` store keeps that value modulo 256 (`SaturatedConversions`). Other C libraries may store different values.
- Trees are values: parent pointers, in-place rewiring and aliasing between nodes are not modelled. A parent link is a path of frames from a subtree to the root.
- The node fields `message_letter` and `morse_sequence` are never read, so they are left out.
- PolarityTrees.RebalanceUp: the loop runs at most 1000 passes. With heights that go stale after delete, its termination cannot be shown, so the model stops after that bound. The walk, the keys and the order are proved whatever the bound.
- AVL balance and the red-black colour rules are not proved: the code does not maintain them after delete, and recolouring is ad hoc.
- BlackToRed.RedAVLBridge.Insert: states the colour of a repeated key only when that key is not the root, because the root is painted black afterwards. The colour of a new key after rebalancing is not stated.
- BlackToRed.RedAVLBridge.EncodeMessage: a custom polarity map is a function to `+`/`-`. A Python map returning other strings is not modelled.
- BlackToRed.RedAVLBridge.Insert and RedToBlack.RedAVLTree.Insert: a node's value is always a string. Python's default `val=None` (black2ered.py:108, red2black.py:51) is not modelled. A node stored that way makes `''.join` raise `TypeError` in `decode_coherent_signal` (black2ered.py:330) or `decode_positive_path` (red2black.py:184) once it is selected; the model has no such failure.
- BlackToRed.RedAVLBridge.Insert, BlackToRed.RedAVLBridge.MeasureAndPrune, RedToBlack.RedAVLTree.Insert and RedToBlack.RedAVLTree.MarkMeasurement: a polarity is `+` or `-` only. A polarity string such as `'0'` would make a node that the `== '-'` pruning test (black2ered.py:240, red2black.py:131) would not count as negative and the `== '+'` decoding filters (black2ered.py:336, red2black.py:189) would not keep. The model cannot express such a node.
- BlackToRed.Upper: only ASCII letters are changed. Python's `str.upper()` also maps letters such as ı and ſ to I and S and can change a string's length; that is not modelled.
