# A verified model of the pgrust harness

This project models the logic around the database that has to be right for its verdicts and its stored data to mean
anything, and proves what that logic promises, for every input and every run:

- the crash simulator's transactional oracle and its plan generator (`Ledger`, `LedgerMachine`, `LedgerStore`,
  `Budget`, `Schema`, `Choice`, `Generator`, `ServerLaws`, `GeneratorRun`), and the two working together
  (`Verdicts`, `Properties`, `Campaign`),
- the plan text format, the flat form of a plan and the shrinker (`Plan`, `PlanText`, `PlanRoundTrip`, `PlanFile`,
  `PlanGrammar`, `PlanErrors`, `PlanKnown`, `PlanCode`, `FlatPlan`, `Shrink`),
- the checks and the alignment of runner and oracle (`RowOrder`, `Probe`, `Check`, `Metamorphic`, `Detection`,
  `Alignment`),
- the vendored PostgreSQL kernels: UTF-8 verification, integer parsing and printing, hashing (`Utf8`, `Utf8Scalars`,
  `IntParse`, `IntPrint`, `HashWord`, `Hash`, `HashNumbers`, `HashKnown`),
- the browser build's two-slot snapshots, their binary format and the wire pump (`SnapshotSlots`, `SnapshotWorker`,
  `SnapshotFormat`, `Iteration`, `Crc32`, `CrcKnown`, `VfsPath`, `Vfs`, `Wire`, `WireSession`).

`Common`, `Strings`, `Decimal`, `Bits`, `Quads` and `QuadWords` hold what several of them share. Verify everything with
`dafny verify dfyconfig.toml`.

Code that updates state is written as it is in the source, as classes and loops, and each such method is proved against
a function on values; what the source promises is then proved about those functions. Randomness is arbitrary choice, so
each statement about the generator holds for every seed.

## Main results

- **Two designs, one semantics.** The op-log ledger refines a ledger that copies all tables at every savepoint, over
  every run; its crash view is exactly the replay of what was committed.
- **Generated plans run.** Whatever is drawn, the plan is accepted by a reference transactional server statement by
  statement, and generation ends.
- **Fast equals plain.** The packed shift automaton with strides, restart and walk back returns the longest RFC 3629
  prefix, and what it accepts is exactly the encodings of Unicode scalar values; the table-driven CRC is the bit-serial
  one; the aligned and unaligned hash paths agree; the integer parser decides its grammar and range.
- **Round trips.** Plans through text, plans through their flat form, file systems through a snapshot blob, integers
  through their text in every base, messages through the wire however it cuts them.
- **Exactly this language.** The plan parser accepts exactly the spellings of valid plans, and refuses any other text at
  the first line that no continuation can make good; the snapshot reader accepts exactly the layout the writer writes.
- **The oracle complains exactly of deviations.** Over every block and whatever is reported, the steps complained of are
  those where the engine deviates from the copying ledger; and one answer replaced by another makes a check fail exactly
  if what the check looks at there has changed.
- **No false alarm.** Every check decides its law. End to end, for every sequence of choices: the generator's plan and
  its context never leave the evaluator misaligned; an engine that answers like the copying ledger is never complained
  of; and its answers, in whatever row order, pass every check put to them, so that a campaign of ternary partitioning,
  NoREC, aggregate and index properties reports nothing at all.
- **Durability.** Over every run of saves, clears, cuts of either and reloads below 2^32-1 generations, the loader never
  goes back behind a completed save, unless a removal fails silently in slot b; and the reader refuses every snapshot
  altered within four consecutive bytes.
- **Nothing lost on the wire.** A stream is read alike however it is cut, if and only if it is steady, a test on its
  bytes that every stream without negative lengths passes; until the session dies every message is in exactly one
  batch, collector or inbox, in order.

## Where the source falls short of its own promise

Each of these is proved with the exact condition under which the promise does hold, and with an input or a run on which
it fails.

- A snapshot stores no directory mtimes, so saving and reloading gives the file system back if and only if they are all
  zero (`SnapshotFormat.SaveAndReload`, `SnapshotFormat.DirectoryTimeIsLost`).
- Path normalisation is idempotent if and only if the last segment no ".." removes does not end in NUL
  (`VfsPath.NormIdempotentIff`, `VfsPath.NormNotIdempotent`); paths without a NUL before a slash are safe
  (`VfsPath.NoNulBeforeSlashIsStable`).
- The generation field is 32 bits wide: a completed save is what the next load returns if and only if the generation
  before it was not 2^32-1 (`SnapshotSlots.CompletedSaveLoadsUnlessWrapped`, `SnapshotSlots.WrapLosesASave`).
- A clear that is cut short, or whose removal fails silently, can bring an older snapshot back
  (`SnapshotSlots.InterruptedClearExposesOlder`, `SnapshotSlots.CutClearShowsOldImage`;
  `SnapshotSlots.ClearKeepsInvIff`, `SnapshotSlots.FailedRemovalShadowsNextSave`, `SnapshotSlots.SurvivorShadowsSave`).
- Flattening and nesting a plan is exact if and only if every statement ends in exactly one semicolon
  (`FlatPlan.RoundTripIff`, `FlatPlan.DoubledIsLost`).
- The integer parser's comments allow underscores between digits only; the code accepts exactly the numerals that obey
  this and those with one underscore right after a base prefix (`IntParse.AcceptedIff`, `IntParse.ValueAgainstTheRule`,
  `IntParse.UnderscoreAfterPrefix`). The grammar follows the code.
- The plan parser refuses mark flags out of order to keep the printed form unique. In session statements it does not:
  swapped and repeated flags are read there too (`PlanGrammar.MarkLineIff`, `PlanGrammar.SwappedFlags`).
- A check that compares engine answers with each other is meant to be skipped when a slot it reads errored. It is, if
  and only if it is one of four kinds; sums, pairs, multisets, doublings and baselines report a failure instead
  (`Check.EvalCheck`, `Check.TimedOutArmFails`).
- The wire reader makes progress on a complete message if and only if its length field is neither -1 nor so negative
  that it points before the buffer (`Wire.StuckIff`, `Wire.MinusOneIsStuck`). What it reads depends on chunking if and
  only if some other negative length field has bytes behind it and does not point before the stream (`Wire.AppendIff`,
  `Wire.ChunkingIff`, `Wire.ChunkingShows`).
- The shrinker keeps every transaction step, but a step kept from a block that goes runs in its own session if and only
  if that was the first one (`Shrink.KeptSessionIff`, `Shrink.TransactionMoves`).

## Model

| member | source | states |
|---|---|---|
| `Ledger.FailureChangesNothing` | crash-simulator/src/oracle/ledger.rs:249-374 | for every operation: an expected error or a misuse leaves every table as it was |
| `Ledger.InsertAllOrNothing` | crash-simulator/src/oracle/ledger.rs:285-321 | an INSERT succeeds if and only if the table exists and every row fits and no key clashes, and then adds exactly those rows, counted in `affected` |
| `Ledger.ApplySets` | crash-simulator/src/oracle/ledger.rs:322-355 | an assignment list keeps the row's shape, and fails only as a column out of range or a NOT NULL violation |
| `Ledger.ApplySetsMeaning` | crash-simulator/src/oracle/ledger.rs:322-355 | the assignment list is accepted if and only if each entry is admissible; the last assignment to a column wins |
| `Ledger.FindByKey` | crash-simulator/src/oracle/ledger.rs:64-66 | a row comes back if and only if the key is live, and it holds that key |
| `Ledger.FindByKeyIsUnique` | crash-simulator/src/oracle/ledger.rs:64-66 | on a valid keyed table the row found does not depend on search order |
| `Ledger.DeleteMeaning` | crash-simulator/src/oracle/ledger.rs:356-372 | DELETE by key removes the one row with that key, no other row and no other table, and `affected` says whether it did |
| `Ledger.UpdateMeaning` | crash-simulator/src/oracle/ledger.rs:322-355 | UPDATE of a live row succeeds if and only if the assignments are admissible and the new key is its own or free; then exactly that row is replaced |
| `Ledger.CreateMeaning` | crash-simulator/src/oracle/ledger.rs:257-271 | CREATE TABLE succeeds if and only if the name is free and the key column in range, and then adds exactly that empty table; a taken name is 42P07, a key out of range a misuse |
| `Ledger.DropMeaning` | crash-simulator/src/oracle/ledger.rs:272-277 | DROP TABLE succeeds if and only if the table is there, and then takes away it and nothing else; otherwise 42P01 |
| `Ledger.TruncateMeaning` | crash-simulator/src/oracle/ledger.rs:278-284 | TRUNCATE succeeds if and only if the table is there; columns and key stay, the rows go, other tables are untouched; otherwise 42P01 |
| `Ledger.DropThenCreate` | crash-simulator/src/oracle/ledger.rs:257-277 | a dropped table can be created again, and a created one not a second time |
| `Ledger.OneRowInsert` | crash-simulator/src/oracle/ledger.rs:285-321 | INSERT of one row, spelled out in terms of its cells: wrong arity is a misuse, a null in a NOT NULL column 23502, a key another row has 23505, and otherwise exactly that row is added |
| `Ledger.InsertFirstFault` | crash-simulator/src/oracle/ledger.rs:285-303 | among rows that do not fit the first decides: misuse for its arity, 23502 for a null |
| `Ledger.InsertOutcome` | crash-simulator/src/oracle/ledger.rs:285-321 | a missing table is 42P01; rows that all fit are refused as 23505 if and only if keys clash |
| `Ledger.KeyedOutcome` | crash-simulator/src/oracle/ledger.rs:322-372 | UPDATE and DELETE over a missing table, over one without a key, and over a key that is not live, which is success with no row affected |
| `Ledger.UpdateOutcome` | crash-simulator/src/oracle/ledger.rs:322-355 | UPDATE of a live row: the first inadmissible assignment decides, then 23505 if and only if another row has the new key, else one row affected |
| `Ledger.OpKeepsTables` | crash-simulator/src/oracle/ledger.rs:249-374 | every operation keeps arity, NOT NULL columns and one row per key value |
| `Ledger.AffectedIsCardinalityChange` | crash-simulator/src/oracle/ledger.rs:285-372 | `affected` is the cardinality change of INSERT and DELETE; UPDATE changes no cardinality |
| `LedgerMachine.SimulatesRollbackTo` | crash-simulator/src/oracle/ledger.rs:188-213 | truncating the op-log and replaying it reaches the state the reference kept as a full copy, with the same answer |
| `LedgerMachine.SimulatesStep` | crash-simulator/src/oracle/ledger.rs:159-247 | one call keeps the op-log ledger and the copying reference related and gives one answer |
| `LedgerMachine.LedgerRefinesCopies` | crash-simulator/src/oracle/ledger.rs:159-247 | over every run without a nested BEGIN the op-log ledger and a ledger that copies all tables at each savepoint hold the same tables and answer every call alike; no replay fails |
| `LedgerMachine.RefRollbackToRestores` | crash-simulator/src/oracle/ledger.rs:179-213 | on the reference, SAVEPOINT, any run that leaves it live and in the end the newest of its name, ROLLBACK TO is the same as the SAVEPOINT alone; others of that name may have come and gone |
| `LedgerMachine.RollbackToRestores` | crash-simulator/src/oracle/ledger.rs:179-213 | on the op-log ledger, ROLLBACK TO restores exactly the tables of the newest live savepoint of that name, and can be repeated |
| `LedgerMachine.CrashCommittedIsCommittedLog` | crash-simulator/src/oracle/ledger.rs:159-247 | over every run the crash view is the replay from nothing of the autocommitted operations and the surviving operations of committed transactions |
| `LedgerMachine.CrashCommittedConstantInTx` | crash-simulator/src/oracle/ledger.rs:159-236 | the crash view stands still from BEGIN to the end of the transaction and is the working state outside one |
| `LedgerMachine.ReachableTablesValid` | crash-simulator/src/oracle/ledger.rs:36-76 | in every reachable ledger every row has its table's arity, no NOT NULL column is null, and keys are unique |
| `LedgerStore.SearchKey` | crash-simulator/src/oracle/ledger.rs:64-66 | the search loop over the rows, in whatever order it meets them, returns the one row the key addresses, or nothing if and only if the key is not live |
| `LedgerStore.CheckShape` | crash-simulator/src/oracle/ledger.rs:285-305 | the loop reports the first arity or NOT NULL fault of the statement |
| `LedgerStore.CheckKeys` | crash-simulator/src/oracle/ledger.rs:306-315 | the loop reports a clash if and only if a new key repeats an earlier new key or a live one |
| `LedgerStore.AssignColumns` | crash-simulator/src/oracle/ledger.rs:334-343 | assignments made one by one, stopping at the first complaint |
| `LedgerStore.NewestMark` | crash-simulator/src/oracle/ledger.rs:193-197 | the newest savepoint of that name |
| `LedgerStore.LedgerObject.BeginTx` | crash-simulator/src/oracle/ledger.rs:159-167 | the object takes the machine's BEGIN step, whether or not a transaction is open |
| `LedgerStore.LedgerObject.CommitTx` | crash-simulator/src/oracle/ledger.rs:169-171 | the object takes the machine's COMMIT step |
| `LedgerStore.LedgerObject.RollbackTx` | crash-simulator/src/oracle/ledger.rs:173-177 | the object takes the machine's ROLLBACK step |
| `LedgerStore.LedgerObject.MarkSavepoint` | crash-simulator/src/oracle/ledger.rs:179-186 | the object takes the machine's SAVEPOINT step |
| `LedgerStore.LedgerObject.InsertInto` | crash-simulator/src/oracle/ledger.rs:285-321 | in-place insert: tables and verdict are those of the specified statement |
| `LedgerStore.LedgerObject.UpdateRow` | crash-simulator/src/oracle/ledger.rs:322-355 | in-place update: tables and verdict are those of the specified statement |
| `LedgerStore.LedgerObject.DeleteRow` | crash-simulator/src/oracle/ledger.rs:356-372 | in-place delete: tables and verdict are those of the specified statement |
| `LedgerStore.LedgerObject.ApplyTo` | crash-simulator/src/oracle/ledger.rs:249-374 | the object's tables and verdict after any operation are those `ApplyOp` specifies, whose laws for each operation are the rows above; the table invariant is kept |
| `LedgerStore.LedgerObject.ApplyStatement` | crash-simulator/src/oracle/ledger.rs:238-247 | the machine's APPLY step: only a success inside a transaction enters the op-log |
| `LedgerStore.LedgerObject.ReplayLog` | crash-simulator/src/oracle/ledger.rs:205-212 | the replay loop computes the replay of the log and stops at the first misuse |
| `LedgerStore.LedgerObject.RollbackToSavepoint` | crash-simulator/src/oracle/ledger.rs:188-213 | the machine's ROLLBACK TO step, tables and answer |
| `LedgerStore.LedgerObject.CrashView` | crash-simulator/src/oracle/ledger.rs:220-233 | clone, roll the clone back, list it: the result lists the tables as they would be with any open transaction rolled back, and the object itself is untouched |
| `LedgerStore.ExpandRows` | crash-simulator/src/oracle/ledger.rs:67-75 | the rows in ascending order, each as often as the table holds it |
| `LedgerStore.ListTables` | crash-simulator/src/oracle/ledger.rs:223-232 | every table once, in name order, with its column names and its sorted rows |
| `LedgerStore.ListingUnique` | crash-simulator/src/oracle/ledger.rs:215-219 | such a listing is unique, so it depends on the tables alone and not on any iteration order |
| `Utf8.LeadAnnounces` | proofs/utf8/wchar_full.c:555-577 | the lead byte of every legal character announces exactly its length |
| `Utf8.VerifyCharIsRfc` | proofs/utf8/wchar_full.c:1789-1844 | for every length: the checker accepts exactly the non-NUL characters of RFC 3629 section 4 |
| `Utf8.VerifyFromIsLongestPrefix` | proofs/utf8/wchar_full.c:1750-1772 | the byte-wise loop stops at the end of the longest prefix made of such characters |
| `Utf8.ShiftIsNext` | proofs/utf8/wchar_full.c:1579-1684 | one masked shift of the packed 32-bit table entry is one step of the nine-state automaton, for every state and byte |
| `Utf8.CharReturnsToStart` | proofs/utf8/wchar_full.c:1579-1684 | a verified character takes the automaton from its start state back to it |
| `Utf8.NoCharMeansErrOrUnfinished` | proofs/utf8/wchar_full.c:1721-1747 | with no character at the front the automaton is in its error state, or the bytes are an unfinished character |
| `Utf8.StateLocatesStop` | proofs/utf8/wchar_full.c:1705-1748 | the state after any prefix says where the plain loop over that prefix stopped |
| `Utf8.Advance` | proofs/utf8/wchar_full.c:1673-1689 | the shift loop, with garbage in the high bits until the final mask, computes the automaton |
| `Utf8.Backtrack` | proofs/utf8/wchar_full.c:1740-1746 | the walk back stops at the lead byte of the unfinished character |
| `Utf8.FastPath` | proofs/utf8/wchar_full.c:1705-1748 | for any positive stride: chunks, ASCII skip, restart and walk back leave a position from which the plain loop ends where it would have from the start |
| `Utf8.VerifyStr` | proofs/utf8/wchar_full.c:1691-1773 | for every byte string and stride: exactly the length of the longest RFC 3629 prefix |
| `Utf8Scalars.CharIsEncoding` | proofs/utf8/wchar_full.c:1789-1844 | the characters accepted are exactly the encodings, by section 3 of RFC 3629, of Unicode scalar values other than NUL |
| `Utf8Scalars.StringIsEncoding` | proofs/utf8/wchar_full.c:1691-1773 | the strings accepted are exactly the encodings of strings of such values |
| `Utf8Scalars.EncodingUnique` | proofs/utf8/wchar_full.c:1691-1773 | and each is the encoding of one only |
| `Budget.Shares` | crash-simulator/src/gen/budget.rs:45-60 | floors, remainders and their ranking; what is spent plus the remainders accounts for the total exactly |
| `Budget.HandOut` | crash-simulator/src/gen/budget.rs:61-70 | the leftover units go one each to the largest remainders, ties by kind, never to a kind without weight |
| `Budget.LargestRemainder` | crash-simulator/src/gen/budget.rs:45-70 | for every weight vector with positive sum: the shares add up to the total; each is its floor or one more, the ones in order of remainder |
| `Budget.LargestDonor` | crash-simulator/src/gen/budget.rs:84-86 | the largest other allocation, the first kind among equals; none only if all are empty |
| `Budget.RaiseFault` | crash-simulator/src/gen/budget.rs:79-96 | the fault budget reaches two, the total is unchanged, and units come only from what is largest |
| `Budget.Allocate` | crash-simulator/src/gen/budget.rs:32-98 | exact total before and after the fault floor; a weighted fault kind gets at least two when the total allows; kinds without weight get nothing |
| `Budget.ConsumeLowers` | crash-simulator/src/gen/budget.rs:104-107 | consuming never raises the total remaining and strictly lowers it when the kind had budget |
| `Budget.ConsumeFootprintLowers` | crash-simulator/src/gen/budget.rs:109-119 | a property item strictly lowers the total remaining |
| `Schema.SpellInjective` | crash-simulator/src/gen/schema.rs:186-240 | different names are spelled as different identifiers, across table, renamed table, index and foreign names |
| `Schema.TracksUnderLaterCounters` | crash-simulator/src/gen/schema.rs:249-264 | a restored snapshot still tracks its database under the counters that kept growing |
| `Schema.BeyondCountersIsFree` | crash-simulator/src/gen/schema.rs:186-225 | a name the counters have not reached is free on the server |
| `Schema.DropTableTracks` | crash-simulator/src/gen/schema.rs:227-247 | dropping a table succeeds on the server and removes it with its indexes on both sides |
| `Schema.RenameTracks` | crash-simulator/src/gen/schema.rs:218-225 | a rename succeeds and moves the table to its new name on both sides |
| `Schema.ForeignChainTracks` | crash-simulator/src/gen/noise.rs:123-182 | the foreign-table chain creates extension and server at most once and its foreign table under a fresh name |
| `Schema.RemoveTableTracks` | crash-simulator/src/gen/noise.rs:184-407 | dropping the last table creates a fresh one at once; otherwise the others are untouched |
| `Schema.DdlTracks` | crash-simulator/src/gen/noise.rs:184-407 | every DDL decision's statements succeed on any database the model tracks, and the model tracks the result |
| `Schema.DdlNamesFresh` | crash-simulator/src/gen/noise.rs:184-407 | every name a DDL decision creates is new, and counters never go back |
| `Schema.InsertTracks` | crash-simulator/src/gen/noise.rs:462-557 | inserting from the key counter upwards meets no live key, and the counter stays above all keys |
| `Schema.DmlTracks` | crash-simulator/src/gen/noise.rs:462-557 | every DML decision's statement succeeds and the model stays in step |
| `ServerLaws.CreatedTwice` | crash-simulator/src/gen/schema.rs:186-240 | the server plans are held to takes no name twice, be it as table, index, foreign table or new name of a table |
| `ServerLaws.MissingIsRefused` | crash-simulator/src/gen/noise.rs:184-407 | it refuses every statement over a relation that is not there |
| `ServerLaws.GoneIsGone` | crash-simulator/src/gen/schema.rs:218-247 | what was dropped is gone, and what was renamed is found, unchanged, under its new name only |
| `ServerLaws.ForeignNeeds` | crash-simulator/src/gen/noise.rs:123-182 | a foreign table needs its server, and that its extension |
| `ServerLaws.KeysOnce` | crash-simulator/src/gen/noise.rs:462-557 | it takes each key of a table once, until it is deleted or the table truncated |
| `Choice.WeightedIndex` | crash-simulator/src/gen/weights.rs:8-21 | no pick if and only if all weights are zero; a pick is the index its draw falls on, so it always has positive weight |
| `Choice.IndexAt` | crash-simulator/src/gen/weights.rs:13-19 | the loop finds the one index whose weights before it add up to at most the draw and with its own to more |
| `Choice.RangeIncl` | crash-simulator/src/gen/weights.rs:24-27 | a draw within its bounds |
| `Generator.BeginKeepsStep` | crash-simulator/src/gen/generator.rs:231-262 | BEGIN is accepted when the model sees no transaction, and the snapshot it takes is the server's |
| `Generator.RollbackToKeepsStep` | crash-simulator/src/gen/generator.rs:283-310 | ROLLBACK TO names a live savepoint and the model's saved schema is the server's at that savepoint |
| `Generator.TxKeepsStep` | crash-simulator/src/gen/generator.rs:231-310 | COMMIT, ROLLBACK, SAVEPOINT and ROLLBACK TO are accepted and keep model and server in step |
| `ServerLaws.RollbackUndoes` | crash-simulator/src/gen/generator.rs:231-310 | whatever a transaction did on the server, ROLLBACK and a lost connection give back the database of BEGIN, and COMMIT keeps all of it |
| `ServerLaws.SavepointRestores` | crash-simulator/src/gen/generator.rs:283-310 | ROLLBACK TO gives back database and settings of its SAVEPOINT, which stays |
| `ServerLaws.TxDiscipline` | crash-simulator/src/gen/generator.rs:231-310 | the server takes BEGIN outside a transaction only, the other controls inside one only, and property blocks outside only |
| `ServerLaws.DownIsDown` | crash-simulator/src/gen/generator.rs:472-490 | a server that is down takes nothing but the next connection |
| `Generator.ArmKeepsStep` | crash-simulator/src/gen/generator.rs:312-348 | setting GUCs is accepted and remembered |
| `Generator.FaultKeepsStep` | crash-simulator/src/gen/generator.rs:472-490 | disconnect and reconnect lose the open transaction and the GUCs on both sides alike |
| `Generator.PropertyKeepsStep` | crash-simulator/src/gen/generator.rs:350-394 | a property block outside a transaction keeps the step |
| `Generator.DdlKeepsStep` | crash-simulator/src/gen/generator.rs:421-436 | DDL inside or outside a transaction keeps live schema and every saved one in step |
| `Generator.DmlKeepsStep` | crash-simulator/src/gen/generator.rs:437-450 | DML keeps the step; a decision without a statement changes nothing |
| `Generator.QueryKeepsStep` | crash-simulator/src/gen/generator.rs:451-461 | a query over live relations is accepted and changes nothing |
| `Generator.CleanupKeepsStep` | crash-simulator/src/gen/generator.rs:169-189 | the tail closes an open transaction and resets the GUCs |
| `GeneratorRun.GeneratorObject.DecideDdl` | crash-simulator/src/gen/generator.rs:421-436 | queues at least one item, keeps the invariant and strictly lowers the remaining budget |
| `GeneratorRun.GeneratorObject.DecideDml` | crash-simulator/src/gen/generator.rs:437-450 | keeps the invariant and strictly lowers the remaining budget |
| `GeneratorRun.GeneratorObject.DecideQuery` | crash-simulator/src/gen/generator.rs:451-461 | keeps the invariant and strictly lowers the remaining budget |
| `GeneratorRun.GeneratorObject.DecideTx` | crash-simulator/src/gen/generator.rs:462-466 | queues a transaction step the server accepts and strictly lowers the remaining budget |
| `GeneratorRun.GeneratorObject.DecideArm` | crash-simulator/src/gen/generator.rs:467-471 | queues an arm step and strictly lowers the remaining budget |
| `GeneratorRun.GeneratorObject.DecideFault` | crash-simulator/src/gen/generator.rs:472-490 | queues the disconnect pair and strictly lowers the remaining budget |
| `GeneratorRun.GeneratorObject.InstantiateProperty` | crash-simulator/src/gen/generator.rs:350-394 | nothing changes if the property cannot be lowered; otherwise its instance is recorded and its block queued under the next number, the block's steps aligned with the recorded ones, which are those the property came up with, its noise slots filled; the number counter stays one past the number of instances |
| `GeneratorRun.GeneratorObject.DecideProperty` | crash-simulator/src/gen/generator.rs:350-394 | commits what is open, instantiates the property if it can be, and strictly lowers the remaining budget either way |
| `GeneratorRun.GeneratorObject.Cleanup` | crash-simulator/src/gen/generator.rs:169-189 | queues the tail and marks the plan finished |
| `GeneratorRun.GeneratorObject.KindWeights` | crash-simulator/src/gen/generator.rs:193-229 | each kind has its budget as weight exactly when it can be generated now: DML and queries need a table, arms an arm set, faults a budget of two, properties an eligible one |
| `GeneratorRun.FitsIff` | crash-simulator/src/gen/generator.rs:30-45 | a property is offered if and only if consuming its footprint takes all of it off the budgets, none running out |
| `GeneratorRun.GeneratorObject.NextItem` | crash-simulator/src/gen/generator.rs:397-523 | hands out the next item in order; each call lowers a termination measure of phase, budget and queue |
| `GeneratorRun.GeneratorObject.Decide` | crash-simulator/src/gen/generator.rs:412-521 | the draw loop ends: it queues an item with less budget left, or emits the tail |
| `GeneratorRun.GeneratePlan` | crash-simulator/src/gen/generator.rs:530-563 | for every sequence of choices the plan runs on a fresh reference server without a rejected statement, ends with no transaction open and no GUC set, never creates a name twice, and its k-th block has the name and number of the k-th recorded instance and steps aligned with its steps; every instance comes from a registered property |
| `GeneratorRun.PairInstances` | crash-simulator/src/bridge.rs:476-486 | the context holds instance k under number k, none missing and none left over; every block of the plan finds an instance of its own name whose recorded steps are aligned with the block's steps |
| `GeneratorRun.GenerateWithContext` | crash-simulator/src/bridge.rs:465-488 | the plan runs, its context covers every block, holds as many instances as there are blocks, and holds none that is not of a registered property |
| `Campaign.FollowBlock` | crash-simulator/src/bridge.rs:656-797 | on a covered block the evaluator never goes dead; if the engine answers in the expected kinds, a complaint is made at exactly the steps where it deviates from the copying reference; if it answers like it, every check put to answers passes, and ledger and engine stay in step for the next block |
| `Campaign.FollowPlan` | crash-simulator/src/bridge.rs:656-797 | the same over all blocks of a plan, the ledger carried from block to block |
| `Campaign.Run` | crash-simulator/src/bridge.rs:465-488 | end to end, for every sequence of choices and every engine: the generated plan runs and its evaluator is never dead on any block; an engine that answers like the copying reference is never complained of, every check put to answers passes, and if all registered properties are answerable no check fails or is skipped |
| `Campaign.FourAnswerable` | crash-simulator/src/oracle/props/l1_tlp.rs:178-265 | a generator of the four properties modelled is answerable, whatever it draws |
| `Properties.TlpPosed` | crash-simulator/src/oracle/props/l1_tlp.rs:178-265 | every instance of ternary partitioning, for every predicate and every question, puts its check to answers, whatever fills its noise slot |
| `Properties.NorecPosed` | crash-simulator/src/oracle/props/l2_norec.rs:43-104 | the same for NoREC, with or without an arm set around the optimized query |
| `Properties.AggPosed` | crash-simulator/src/oracle/props/f6_agg_consistency.rs:15-84 | the same for the three checks of the aggregate identities |
| `Properties.IndexPosed` | crash-simulator/src/oracle/props/x2_index_invariance.rs:14-53 | the same for the two checks of index invariance |
| `Verdicts.AnsweredSoFar` | crash-simulator/src/bridge.rs:713-796 | against an engine that answers like the copying reference, after every step of every block each slot that counts as answered holds a correct answer over the rows the engine has then, and each table that counts as present is there |
| `Verdicts.PosedPassed` | crash-simulator/src/bridge.rs:657-696 | then a check that asks about such answers passes, for all kinds of check that compare them with each other or with the ledger |
| `SnapshotSlots.StepKeepsInv` | wasm/worker.js:211-228 | every reload, edit, toggle, save (completed, failed or cut at any point) and clear (completed, cut at any point, or failing to remove slot a) keeps generations ordered like the saves they came from |
| `SnapshotSlots.LoadMeaning` | wasm/snapshot.js:131-145 | the loader finds nothing if and only if no slot validates, and picks slot b if and only if only it validates or its generation is strictly higher |
| `SnapshotSlots.ReloadMeaning` | wasm/worker.js:278-289 | a reload shows image and generation of the slot the loader picks; persistence is on if and only if there was one |
| `SnapshotSlots.FailedSaveKeepsSession` | wasm/worker.js:211-228 | a failed save switches persistence off and changes neither the session, nor its counters, nor the slot it did not target |
| `SnapshotSlots.SlotChanges` | wasm/worker.js:211-228 | a slot changes only by a removal, or by a save with persistence on, in the slot it targets, to what it wrote or to what a cut leaves |
| `SnapshotSlots.OffWritesNothing` | wasm/worker.js:211-228 | over every run with persistence off and never switched on again, each slot stays as it was or is cleared |
| `SnapshotSlots.ClearedStartsPristine` | wasm/worker.js:425-443 | switching off and clearing both slots leaves nothing to restore, whatever happened before |
| `SnapshotSlots.ClearKeepsInvIff` | wasm/snapshot.js:156-160 | a clear keeps the invariant if and only if it does not leave, on a page that lives on, a snapshot in slot b |
| `SnapshotSlots.NeverLosesACompletedSave` | wasm/snapshot.js:131-160 | over every run below 2^32-1 generations in which no silent failure leaves a snapshot in slot b, cut saves and cut clears included, the loader never returns anything older than the last save completed since a clear was begun, two valid slots never share a generation, and the pick is the newest whole snapshot |
| `SnapshotSlots.SaveSparesTheCurrentSlot` | wasm/snapshot.js:147-154 | a save never targets the slot its page loaded or last completed, that slot is at least as new as the last completed save, and once the save completes a reload restores exactly its image |
| `SnapshotSlots.CompletedSaveLoadsUnlessWrapped` | wasm/snapshot.js:148-149 | where the guarantee ends: a completed save is what a reload restores if and only if the previous generation was not 2^32-1 |
| `SnapshotSlots.SavesReach` | wasm/snapshot.js:147-154 | n completed saves from a fresh start reach generation n, for every n below 2^32 |
| `SnapshotSlots.WrapLosesASave` | wasm/snapshot.js:148-149 | a whole run on which a completed save is lost: 2^32-1 saves, an edit, one more completed save and a reload, for every image |
| `SnapshotSlots.InterruptedClearExposesOlder` | wasm/snapshot.js:156-160 | a page that dies over a clear leaves an older snapshot to be loaded if and only if the newest was removed and the other slot still holds one |
| `SnapshotSlots.CutClearShowsOldImage` | wasm/snapshot.js:156-160 | the run on which a clear cut after its first removal makes a reload show the image of the save before the last, for every pair of images |
| `SnapshotSlots.FailedRemovalShadowsNextSave` | wasm/snapshot.js:156-160 | after a clear on a page that lives on, whichever removals fail, the next completed save is what a reload restores if and only if nothing above generation 1 survived in slot b |
| `SnapshotSlots.SurvivorShadowsSave` | wasm/snapshot.js:156-160 | the run on which a removal that failed silently makes a reload show an image from before the clear instead of the completed save after it |
| `SnapshotWorker.Worker.LoadLatest` | wasm/snapshot.js:131-145 | the loop over the slots picks the highest generation among the valid ones, the first slot among equals |
| `SnapshotWorker.Worker.Boot` | wasm/worker.js:278-289 | the machine's reload step |
| `SnapshotWorker.Worker.WriteSlot` | wasm/snapshot.js:147-154 | next generation and other slot; what a cut write leaves behind |
| `SnapshotWorker.Worker.SnapshotNow` | wasm/worker.js:211-228 | the machine's save step; a failed save switches persistence off and keeps the counters |
| `SnapshotWorker.Worker.ClearSnapshots` | wasm/snapshot.js:156-160 | the loop of best-effort removals is the machine's clear step, whichever removals fail and wherever the page dies |
| `SnapshotWorker.Worker.HandleReset` | wasm/worker.js:406-424 | reset is edit, clear and save of the machine when persistence is on, a plain edit otherwise |
| `SnapshotWorker.Worker.HandlePersist` | wasm/worker.js:425-443 | turning persistence on saves at once; turning it off clears |
| `Crc32.TableStep` | wasm/snapshot.js:46-52 | one lookup of the low byte is eight bit steps of the whole register |
| `Crc32.FeedIsSteps` | wasm/snapshot.js:46-52 | xoring a byte in and stepping eight times is feeding its bits one by one |
| `Crc32.CrcIsReference` | wasm/snapshot.js:46-52 | the register form equals the bit-serial CRC-32 of RFC 1952 section 8 |
| `Crc32.BuildTable` | wasm/snapshot.js:36-44 | entry n is eight bit steps from n |
| `Crc32.Compute` | wasm/snapshot.js:46-52 | for every byte string and seed the table-driven loop computes the bit-serial CRC-32 |
| `CrcKnown.CheckValue` | wasm/snapshot.js:36-52 | the CRC of the nine digits 1 to 9 is 0xCBF43926, the check value published for CRC-32 |
| `Crc32.WindowIsWord` | wasm/snapshot.js:46-52 | feeding up to four bytes is xoring them in as one word and stepping the register |
| `Crc32.CatchesFourByteBursts` | wasm/snapshot.js:46-52 | any change within four consecutive bytes changes the CRC, whatever surrounds it |
| `Crc32.StoredIffResidue` | wasm/snapshot.js:46-52 | four bytes are the CRC of what is before them if and only if the register, run over all of it, ends in one fixed state |
| `VfsPath.Normalize` | wasm/pgrust-wasi.js:68-79 | the segment loop computes the normal form |
| `VfsPath.NormShape` | wasm/pgrust-wasi.js:68-79 | every normal form is the root or clean segments joined by slashes |
| `VfsPath.NormStep` | wasm/pgrust-wasi.js:68-79 | one more segment behind a normal path: nothing and "." stay, ".." goes up and stops at the root, a name goes down |
| `VfsPath.NormOfRelative` | wasm/pgrust-wasi.js:68-71 | a relative path is taken from the root, trailing NULs do not count, nothing at all is the root |
| `VfsPath.NormIdempotentIff` | wasm/pgrust-wasi.js:68-79 | normalising twice is normalising once if and only if the last segment of the input that no ".." removes does not end in NUL, once trailing NULs are stripped |
| `VfsPath.LastKeptIsLast` | wasm/pgrust-wasi.js:72-77 | that segment, found by reading the input backwards and counting "..", is the last one on the stack the segment loop builds |
| `VfsPath.NoNulBeforeSlashIsStable` | wasm/pgrust-wasi.js:68-79 | normalising is idempotent on every path in which no NUL stands before a slash |
| `VfsPath.NormNotIdempotent` | wasm/pgrust-wasi.js:68-79 | the input on which normalising is not idempotent |
| `VfsPath.AncestorsAreClosed` | wasm/pgrust-wasi.js:81-90 | ancestors of an ancestor are ancestors |
| `VfsPath.AncestorIff` | wasm/pgrust-wasi.js:81-90 | a normal path other than the root is above another if and only if that one begins with it and a slash |
| `Vfs.FileSystem.EnsureAncestors` | wasm/pgrust-wasi.js:81-90 | adds the missing directories above a path, and nothing else |
| `Vfs.FileSystem.constructor` | wasm/pgrust-wasi.js:54-66 | from any image and manifest: the listed nodes, plus ancestor directories only, closed under ancestors |
| `Vfs.CompletedIsClosed` | wasm/pgrust-wasi.js:54-66 | completing every listed path closes the whole tree |
| `Vfs.ClosedNeedsNothing` | wasm/pgrust-wasi.js:54-66 | a listing already closed under ancestors gains nothing |
| `SnapshotFormat.ReadOfU32` | wasm/snapshot.js:76-78 | a little-endian 32-bit field reads back as the number modulo 2^32 |
| `SnapshotFormat.SetBytes` | wasm/snapshot.js:79-81 | copies the bytes to their place and leaves the rest of the buffer alone |
| `SnapshotFormat.Collect` | wasm/snapshot.js:58-70 | the loop over the nodes gathers the manifest and the file bytes, offsets included |
| `SnapshotFormat.WriteHeader` | wasm/snapshot.js:75-78 | magic, version, generation and manifest length in place |
| `SnapshotFormat.WriteDatas` | wasm/snapshot.js:80-81 | file data end to end after the manifest |
| `SnapshotFormat.SerializeVfs` | wasm/snapshot.js:57-84 | the buffer is header, manifest, data and CRC of all before it |
| `SnapshotFormat.MagicMatches` | wasm/snapshot.js:92-94 | the loop compares the eight magic bytes |
| `SnapshotFormat.CheckHeader` | wasm/snapshot.js:89-100 | the checks on length, magic, version and manifest length, in their order |
| `SnapshotFormat.CheckCrc` | wasm/snapshot.js:101-103 | the stored CRC is that of everything before it |
| `SnapshotFormat.CheckEntries` | wasm/snapshot.js:115-119 | the loop accepts if and only if no file entry overruns the data |
| `SnapshotFormat.Unpack` | wasm/snapshot.js:104-122 | manifest, image and generation of a checked blob, or the complaint |
| `SnapshotFormat.RestoreVfs` | wasm/snapshot.js:88-123 | for every byte string: the snapshot or the first complaint |
| `SnapshotFormat.RegionsEndToEnd` | wasm/snapshot.js:62-70 | file regions are disjoint and consecutive and fill the data exactly |
| `SnapshotFormat.EntriesHold` | wasm/snapshot.js:62-70 | every entry's region holds its file's bytes, with its mtime |
| `SnapshotFormat.ListingComplete` | wasm/snapshot.js:62-70 | exactly the directories and exactly the files are listed |
| `SnapshotFormat.RestoreOfBlob` | wasm/snapshot.js:57-123 | reading a written blob gives back generation, manifest and data |
| `SnapshotFormat.RestoreExact` | wasm/snapshot.js:57-123 | for every byte string: it is accepted as a snapshot if and only if it is the written layout of that generation and data with a manifest text that decodes to that manifest, its entries within the data, sealed by the CRC |
| `SnapshotFormat.FirstComplaint` | wasm/snapshot.js:88-103 | each complaint about length, magic, version, manifest length and CRC is made if and only if it is the first that applies, in terms of the literal bytes |
| `SnapshotFormat.HeaderKnown` | wasm/snapshot.js:72-78 | the header of generation 0x04030201 with five bytes of manifest, byte by byte |
| `SnapshotFormat.KeptIsAllIff` | wasm/snapshot.js:63-64 | directory mtimes are not stored: the round trip keeps everything if and only if they are all zero |
| `SnapshotFormat.ListedIsKept` | wasm/pgrust-wasi.js:54-63 | the listing of a normal file system names exactly its nodes, whatever the order |
| `SnapshotFormat.RebuiltIsKept` | wasm/pgrust-wasi.js:54-66 | the constructor's added ancestors change nothing on a closed file system |
| `SnapshotFormat.SaveAndReload` | wasm/snapshot.js:57-123 | serialize, restore and rebuild return every normal, ancestor-closed file system with paths, kinds, bytes and file mtimes; what comes back is the same file system if and only if every directory mtime is zero |
| `SnapshotFormat.MatchesIffResidue` | wasm/snapshot.js:101-103 | a blob passes the CRC check if and only if the register ends in that state over the whole blob, its CRC field included |
| `SnapshotFormat.DirectoryTimeIsLost` | wasm/snapshot.js:57-123 | a file system of one directory with a nonzero mtime does not come back as it was |
| `SnapshotFormat.AlteredBlobIsRefused` | wasm/snapshot.js:101-103 | any accepted blob altered within four consecutive bytes, anywhere in it, is rejected |
| `PlanRoundTrip.MarkLineRoundTrip` | crash-simulator/src/plan.rs:550-640 | a mark with its flags reads back, for the strict and the session form alike |
| `PlanRoundTrip.TxRoundTrip` | crash-simulator/src/plan.rs:367-443 | every transaction control reads back |
| `PlanRoundTrip.ArmRoundTrip` | crash-simulator/src/plan.rs:644-738 | every valid arm reads back, GUC values containing '=' included |
| `PlanRoundTrip.FaultRoundTrip` | crash-simulator/src/plan.rs:644-738 | every fault point reads back |
| `PlanRoundTrip.StepHead` | crash-simulator/src/plan.rs:367-443 | no step starts with a blank line or a block border |
| `PlanRoundTrip.StepRoundTrip` | crash-simulator/src/plan.rs:644-738 | every valid step, printed anywhere in a file, is read back and the position after it is right; session steps under the second header only |
| `PlanRoundTrip.TablesRoundTrip` | crash-simulator/src/plan.rs:740-777 | a sorted table list reads back |
| `PlanRoundTrip.BeginRoundTrip` | crash-simulator/src/plan.rs:740-777 | a block's opening line gives back name, number and tables |
| `PlanRoundTrip.HeaderRoundTrip` | crash-simulator/src/plan.rs:514-548 | the two header lines give back the header and the version |
| `PlanFile.BlockRoundTrip` | crash-simulator/src/plan.rs:779-830 | the steps of a block read back up to its own end line |
| `PlanFile.ItemRoundTrip` | crash-simulator/src/plan.rs:779-830 | a single step or a block reads back |
| `PlanFile.ItemsRoundTrip` | crash-simulator/src/plan.rs:779-830 | all items of a file read back |
| `PlanFile.PlanLinesPlain` | crash-simulator/src/plan.rs:453-484 | no printed line contains a line break or ends in a carriage return, so splitting the text recovers the lines |
| `PlanFile.ParseOfRender` | crash-simulator/src/plan.rs:453-830 | the law of the format: every valid plan, first or second version, printed and read back is the same plan |
| `PlanFile.AcceptedIsValid` | crash-simulator/src/plan.rs:779-830 | the parser accepts valid plans only, and session steps only under the second header |
| `PlanFile.ReprintIsStable` | crash-simulator/src/plan.rs:453-830 | printing what any accepted text parsed to, and parsing that, changes nothing more |
| `PlanGrammar.MarkLineIff` | crash-simulator/src/plan.rs:550-590 | a mark line is accepted if and only if it is the printed one, or, in session steps, its mark followed by known flags in any order and number |
| `PlanGrammar.SwappedFlags` | crash-simulator/src/plan.rs:626-634 | a mark line with its flags swapped is read in a session step although it is never printed; a strict step refuses it |
| `PlanGrammar.StepExact` | crash-simulator/src/plan.rs:644-738 | what is read as a step is exactly a spelling of that step, the step valid, session steps under the second header only; other steps have one spelling, the printed one |
| `PlanGrammar.BeginIsSpelled` | crash-simulator/src/plan.rs:740-777 | an opening line is accepted only as name, number and ascending tables in their places |
| `PlanGrammar.BeginReads` | crash-simulator/src/plan.rs:740-777 | and always then |
| `PlanGrammar.PlanExact` | crash-simulator/src/plan.rs:514-830 | the language of the format: a text is read as a plan if and only if its lines spell that plan and the plan is valid; what the printer leaves free is blank lines between items, zeros and a plus sign before numbers, flags of session steps, and the second header |
| `Decimal.ParsesIff` | crash-simulator/src/plan.rs:514-548 | a number is accepted if and only if it is the numeral of a value in range, with zeros and one plus sign allowed before it |
| `PlanErrors.StepLocal` | crash-simulator/src/plan.rs:644-738 | a step is read, or refused, by the lines up to where it ends or fails |
| `PlanErrors.ErrorExact` | crash-simulator/src/plan.rs:486-830 | a refused text is refused at line n if and only if n is the first bad line: what comes before it can be continued to an accepted file, and with it nothing can |
| `PlanKnown.SerialPlanKnown` | crash-simulator/src/plan.rs:453-484 | a file with a single step and a block under the first header, line by line |
| `PlanKnown.SessionPlanKnown` | crash-simulator/src/plan.rs:444-484 | the same with a session step in the block, under the second header |
| `PlanKnown.TransactionsKnown` | crash-simulator/src/plan.rs:372-383 | transaction controls by their text |
| `PlanKnown.SavepointsKnown` | crash-simulator/src/plan.rs:379-380 | savepoint steps by their text |
| `PlanKnown.ArmsKnown` | crash-simulator/src/plan.rs:384-390 | setting steps by their text |
| `PlanKnown.ChecksKnown` | crash-simulator/src/plan.rs:391-396 | assumptions and assertions by their text |
| `PlanKnown.FaultsKnown` | crash-simulator/src/plan.rs:397-406 | fault points by their text |
| `PlanKnown.FaultPointsKnown` | crash-simulator/src/plan.rs:397-406 | named fault points by their text |
| `PlanKnown.SessionsKnown` | crash-simulator/src/plan.rs:407-412 | session switches and joins by their text |
| `PlanKnown.StatementsKnown` | crash-simulator/src/plan.rs:354-371 | the three statement steps, marks and flags by their text |
| `PlanKnown.SessionStatementsKnown` | crash-simulator/src/plan.rs:413-440 | the two session statements by their text |
| `PlanKnown.BordersKnown` | crash-simulator/src/plan.rs:469-482 | the border lines of a block by their text, with and without tables |
| `PlanKnown.HeaderSpelledOut` | crash-simulator/src/plan.rs:460-464 | the header line of every plan, piece by piece |
| `PlanKnown.StatementsRefused` | crash-simulator/src/plan.rs:118-140 | which statement texts are refused: empty ones, comments, several lines, no final semicolon |
| `PlanKnown.NamesRefused` | crash-simulator/src/plan.rs:267-321 | which identifiers and settings are refused |
| `PlanKnown.StepsRefused` | crash-simulator/src/plan.rs:292-321 | which savepoint names, fault points and session numbers are refused |
| `PlanKnown.BlocksRefused` | crash-simulator/src/plan.rs:322-332 | which block and table names are refused |
| `PlanKnown.HeadersRefused` | crash-simulator/src/plan.rs:277-290 | which header fields are refused |
| `PlanCode.RenderMark` | crash-simulator/src/plan.rs:354-365 | the mark line, flags appended in order |
| `PlanCode.RenderStep` | crash-simulator/src/plan.rs:367-443 | appends exactly the step's lines to the buffer |
| `PlanCode.RenderSteps` | crash-simulator/src/plan.rs:453-484 | the loop appends all steps of a block |
| `PlanCode.RenderItem` | crash-simulator/src/plan.rs:453-484 | appends one step or one bordered block |
| `PlanCode.RenderPlan` | crash-simulator/src/plan.rs:453-484 | the buffer is the plan's text, header version included |
| `PlanCode.Lines.NextLine` | crash-simulator/src/plan.rs:499-505 | hands out the line at the cursor and moves past it; at the end nothing is handed out |
| `PlanCode.ReadFlags` | crash-simulator/src/plan.rs:565-582 | the loop over the flag words; the strict form refuses a repeated flag, the session form does not, both refuse an unknown one |
| `PlanCode.ReadMarkLine` | crash-simulator/src/plan.rs:555-590 | a mark with its flags; the strict form insists on the canonical order |
| `PlanCode.Lines.TakeMarkedSql` | crash-simulator/src/plan.rs:609-640 | takes the mark line and the statement line, or stops at the line at fault |
| `PlanCode.Lines.TakeSqlStep` | crash-simulator/src/plan.rs:550-605 | the same for the three statement steps |
| `PlanCode.Lines.TakeSession` | crash-simulator/src/plan.rs:652-671 | one session step: a switch, a join, or a statement form with the mark and statement lines that follow it |
| `PlanCode.Lines.TakeStep` | crash-simulator/src/plan.rs:644-738 | the cursor moves line by line and stops after the step, or the error carries the line at fault; for every file and position this is the specified step |
| `PlanCode.Lines.TakeBlock` | crash-simulator/src/plan.rs:779-830 | the inner loop takes steps up to the end line of the block |
| `PlanCode.Lines.TakeItem` | crash-simulator/src/plan.rs:779-830 | the cursor takes a block or a step |
| `PlanCode.TakeItems` | crash-simulator/src/plan.rs:779-830 | the outer loop skips blank lines and takes every item |
| `PlanCode.ParseText` | crash-simulator/src/plan.rs:779-830 | for every text: the plan, or the first error with its line |
| `PlanCode.SaveAndLoad` | crash-simulator/src/plan.rs:453-830 | the printer and the parser as written: a valid plan comes back |
| `FlatPlan.Flatten` | crash-simulator/src/runner/planface.rs:191-210 | the loops compute the flat form, block borders as steps |
| `FlatPlan.Nest` | crash-simulator/src/runner/planface.rs:212-252 | the loop with its one open block computes the nested plan, or nothing when borders do not fit or a step is not valid |
| `Strings.SortedSet` | crash-simulator/src/runner/planface.rs:212-252 | table names come out in order, each once |
| `Strings.LessIff` | crash-simulator/src/oracle/check.rs:16-24 | texts are ordered lexically: one is before another if and only if they agree up to a place where it ends or has the smaller character |
| `RowOrder.OrderByValue` | crash-simulator/src/oracle/check.rs:16-38 | null before booleans before integers before texts, each kind by its own order, a row before its extensions |
| `FlatPlan.StepThereAndBack` | crash-simulator/src/runner/planface.rs:106-188 | a step converted both ways comes back with one semicolon after its statement |
| `FlatPlan.NestOfFlatten` | crash-simulator/src/runner/planface.rs:191-252 | flattening a valid plan and nesting it again gives the plan with one semicolon per statement |
| `FlatPlan.RoundTripIff` | crash-simulator/src/runner/planface.rs:191-252 | the round trip is exact if and only if every statement ends in exactly one semicolon |
| `FlatPlan.DoubledIsLost` | crash-simulator/src/runner/planface.rs:191-252 | a valid plan whose statement ends in two semicolons nests again, and not to itself |
| `Shrink.Spans` | crash-simulator/src/runner/shrink.rs:23-40 | the loop finds exactly the closed blocks, with their tables |
| `Shrink.FailingTables` | crash-simulator/src/runner/shrink.rs:48-51 | the tables of the block around the failing step |
| `Shrink.Goes` | crash-simulator/src/runner/shrink.rs:58-66 | a block goes if and only if it ended before the failing step and shares no table with a failing block that names some |
| `Shrink.DropPositions` | crash-simulator/src/runner/shrink.rs:57-76 | exactly the positions of such blocks that are no fault, transaction or setting step |
| `Shrink.KeptMeaning` | crash-simulator/src/runner/shrink.rs:78-85 | the kept positions are in order and are exactly those not dropped |
| `Shrink.ShrinkCandidate` | crash-simulator/src/runner/shrink.rs:44-87 | no candidate if and only if the index is out of range; otherwise the kept positions up to the failing step |
| `Shrink.CandidateKeeps` | crash-simulator/src/runner/shrink.rs:44-87 | the candidate is a subsequence ending in the failing step, keeps every earlier fault, transaction and setting step, and keeps whole every earlier block sharing a table with the failing one |
| `Shrink.CandidateExact` | crash-simulator/src/runner/shrink.rs:44-87 | a step up to the failing one goes if and only if it is no fault, transaction or setting step and stands in a block that ended before the failure and shares no table with the failing block, which names some |
| `Shrink.UnknownKeepsAll` | crash-simulator/src/runner/shrink.rs:48-66 | a failure outside every block, or in one that names no table, keeps every step up to it |
| `Shrink.SessionsFollow` | crash-simulator/src/runner/shrink.rs:57-86 | if every block begins in the first session, dropping leaves the active session alone outside the blocks that go and leaves it at the first one within them |
| `Shrink.KeptSessionIff` | crash-simulator/src/runner/shrink.rs:66-75 | a kept step runs in its original session if and only if it is outside the blocks that go or ran in the first session |
| `Shrink.TransactionMoves` | crash-simulator/src/runner/shrink.rs:66-75 | the plan on which a transaction opened in another session is opened in the first one after shrinking |
| `Shrink.NestsIff` | crash-simulator/src/runner/planface.rs:212-252 | a flat plan nests if and only if its header is valid, its borders fit and each step is valid |
| `Shrink.CandidateFits` | crash-simulator/src/runner/shrink.rs:44-87 | dropping keeps borders matched at every prefix |
| `Shrink.CandidateNests` | crash-simulator/src/runner/shrink.rs:44-87 | whatever nests to a valid plan still does after shrinking |
| `RowOrder.SortedUnique` | crash-simulator/src/oracle/check.rs:216-220 | two sorted lists of the same rows are equal |
| `RowOrder.SortDecides` | crash-simulator/src/oracle/check.rs:216-220 | comparing sorted rows compares multisets |
| `Probe.PartitionsExact` | crash-simulator/src/oracle/pstep.rs:180-232 | for every predicate and row exactly one of the three arms selects the row |
| `Probe.KleeneTables` | crash-simulator/src/oracle/pstep.rs:207-219 | AND, OR and NOT are the least, the greatest and the mirror image on the order false, unknown, true |
| `Probe.Dominance` | crash-simulator/src/oracle/pstep.rs:208-217 | false decides a conjunction and true a disjunction, whatever the other side is |
| `Probe.DeMorgan` | crash-simulator/src/oracle/pstep.rs:207-219 | De Morgan's laws and double negation, unknown included |
| `Probe.IntComparison` | crash-simulator/src/oracle/pstep.rs:186-203 | the six comparisons of integers are those of arithmetic |
| `Probe.TextComparison` | crash-simulator/src/oracle/pstep.rs:186-203 | the six comparisons of texts are those of the lexical order |
| `Probe.ComparisonUnknownIff` | crash-simulator/src/oracle/pstep.rs:186-195 | a comparison is unknown if and only if an operand is missing, null or of another kind |
| `Probe.NullTest` | crash-simulator/src/oracle/pstep.rs:204-206 | a null test is never unknown, and true if and only if the column is null or missing |
| `Probe.RemainderTest` | crash-simulator/src/oracle/pstep.rs:182-185 | a remainder test is unknown if and only if the column holds no integer; on integers it asks whether the column is r more than a multiple |
| `Probe.TwoValued` | crash-simulator/src/oracle/pstep.rs:176-222 | where no null and no text comes in, the verdict is that of ordinary two-valued logic |
| `Probe.ArmsMean` | crash-simulator/src/oracle/pstep.rs:224-232 | the arms are the rows of the predicate, of its negation, and those on which it is unknown |
| `Probe.LargestAndSmallest` | crash-simulator/src/oracle/drive.rs:410-434 | the extreme of a column is one of its integers that none exceeds, or that none is below |
| `Probe.SelectWhere` | crash-simulator/src/oracle/drive.rs:378-392 | the filter loop returns the selected rows |
| `Probe.CountWhere` | crash-simulator/src/oracle/drive.rs:327-335 | the counting loop returns the number of selected rows |
| `Probe.SumColumn` | crash-simulator/src/oracle/drive.rs:336-353 | the sum of a column's integers modulo 2^64, null when there are none |
| `Probe.ExtremeColumn` | crash-simulator/src/oracle/drive.rs:410-434 | the least or greatest integer of the selected rows |
| `Probe.DistinctColumn` | crash-simulator/src/oracle/drive.rs:393-409 | the distinct values of the selected rows, in order |
| `Probe.SelectColumn` | crash-simulator/src/oracle/drive.rs:364-377 | the values of a column, one row each |
| `Probe.ProjectPred` | crash-simulator/src/oracle/drive.rs:435-452 | the predicate's verdict on every row, true as t, false as f, unknown as null |
| `Probe.VerdictSpelled` | crash-simulator/src/oracle/drive.rs:435-452 | how the three verdicts are spelled |
| `Probe.AnswerProbe` | crash-simulator/src/oracle/drive.rs:272-464 | for every ledger table and probe modelled, the answer over the table's rows in whatever order; an error for a missing table |
| `Check.EvalPartitionUnion` | crash-simulator/src/oracle/check.rs:395-417 | holds if and only if the parts' rows together are the whole's rows as multisets |
| `Check.EvalDistinctUnion` | crash-simulator/src/oracle/check.rs:418-442 | holds if and only if the parts' values together are the whole's as sets |
| `Check.EvalScalarSum` | crash-simulator/src/oracle/check.rs:338-349 | holds if and only if the parts' numbers add up to the whole's under wrapping 64-bit addition |
| `Check.EvalScalarExtreme` | crash-simulator/src/oracle/check.rs:443-479 | holds if and only if the whole is the extreme of the parts |
| `Check.EvalNorec` | crash-simulator/src/oracle/check.rs:480-505 | holds if and only if as many rows came back as verdicts are true |
| `Check.EvalMultiset` | crash-simulator/src/oracle/check.rs:366-378 | holds if and only if both slots hold the same rows as multisets |
| `Check.EvalDoubling` | crash-simulator/src/oracle/check.rs:379-394 | holds if and only if the doubled rows are the single ones twice, as multisets |
| `Check.EvalScalarPair` | crash-simulator/src/oracle/check.rs:329-337 | holds if and only if both slots hold one value and it is the same |
| `Check.EvalLedgerTable` | crash-simulator/src/oracle/check.rs:528-542 | holds if and only if the slot's rows are the ledger's, as multisets |
| `Check.EvalPlain` | crash-simulator/src/oracle/check.rs:287-328 | each check over one slot, against a constant or the ledger, holds if and only if its law does |
| `Check.EvalCheck` | crash-simulator/src/oracle/check.rs:258-574 | for all nineteen kinds: skipped if and only if a slot of one of the four listed kinds errored or the hook is missing, and otherwise passes if and only if its law holds; over an errored slot it reads, a check is skipped if and only if it is of the four kinds, and every other one fails, but for the one that asks for an error |
| `Check.ErroredBreaksLaw` | crash-simulator/src/oracle/check.rs:166-170 | no law holds over an errored slot, but for the one that asks for an error |
| `Check.TimedOutArmFails` | crash-simulator/src/oracle/check.rs:258-279 | one timed-out slot: sum, pair, multiset and doubling checks report a failure where the partition check is skipped |
| `Detection.ChangedAnswer` | crash-simulator/src/oracle/check.rs:258-574 | for all nineteen kinds: a law that held still holds after one answer is replaced by any other if and only if what the check looks at there is the same: rows as multisets, values as sets, numbers, counts, classes |
| `Detection.OneWrongAnswer` | crash-simulator/src/oracle/check.rs:258-574 | of an engine otherwise correct over the ledger's rows: a partition, NoREC, doubling, repetition or ledger check put to it holds if and only if the one answer in question is alike to the correct one |
| `Detection.JudgeChanged` | crash-simulator/src/oracle/check.rs:258-574 | the outcome in that case: skipped if and only if the answer is an error and the kind is one of the four, passed if and only if alike, a failure otherwise |
| `Detection.TrueCells` | crash-simulator/src/oracle/check.rs:480-505 | which cells count as true |
| `Metamorphic.PartitionUnionPasses` | crash-simulator/src/oracle/check.rs:395-417 | correct answers to the three arms and the whole, each in any row order, satisfy the partition law |
| `Metamorphic.DistinctUnionPasses` | crash-simulator/src/oracle/check.rs:418-442 | the same for distinct values |
| `Metamorphic.ScalarSumPasses` | crash-simulator/src/oracle/check.rs:338-349 | the same for sums under wrapping 64-bit addition |
| `Metamorphic.CountSumPasses` | crash-simulator/src/oracle/check.rs:338-349 | the same for row counts |
| `Metamorphic.ScalarExtremePasses` | crash-simulator/src/oracle/check.rs:443-479 | the same for minimum and maximum |
| `Metamorphic.NorecPasses` | crash-simulator/src/oracle/check.rs:480-505 | the same for the row count against the projected predicate |
| `Metamorphic.DoublingPasses` | crash-simulator/src/oracle/check.rs:379-394 | the same for a union with itself, each column in any order |
| `Metamorphic.MultisetPasses` | crash-simulator/src/oracle/check.rs:366-378 | the same for the same rows asked for twice |
| `Metamorphic.CountPairPasses` | crash-simulator/src/oracle/check.rs:329-337 | the same for the same count asked for twice |
| `Metamorphic.LedgerTablePasses` | crash-simulator/src/oracle/check.rs:528-542 | the same for all rows against the ledger's |
| `Metamorphic.LedgerCountPasses` | crash-simulator/src/oracle/check.rs:543-553 | the same for a count against the ledger's |
| `Metamorphic.PosedPasses` | crash-simulator/src/oracle/check.rs:258-279 | a check put to correct answers in any of these ways has its law and is not skipped |
| `Metamorphic.CheckPartitions` | crash-simulator/src/oracle/drive.rs:272-464 | for every ledger table and predicate, probing the engine double and evaluating any of the five partition checks gives Pass |
| `Metamorphic.CheckNorec` | crash-simulator/src/oracle/drive.rs:272-464 | for every ledger table and predicate the NoREC check gives Pass |
| `IntParse.ScanRun` | proofs/strtoint/numutils_master.c:222-321 | the digit loop with its underscore rule and its limit test: a well-formed run within the limit is accumulated exactly, the accumulator never wraps, and otherwise the loop stops at the first digit past the limit or the first wrong character, whichever comes first |
| `IntParse.FastDigits` | proofs/strtoint/numutils_master.c:154-186 | the fast path's digit loop accumulates a run exactly, or reports that it is too large |
| `IntParse.FastPath` | proofs/strtoint/numutils_master.c:144-202 | whenever the fast path answers, its answer is the correct one |
| `IntParse.ReadSign` | proofs/strtoint/numutils_master.c:209-220 | spaces and one optional sign |
| `IntParse.ReadNumeral` | proofs/strtoint/numutils_master.c:222-344 | base prefix, digits and trailing spaces against the grammar |
| `IntParse.SlowPath` | proofs/strtoint/numutils_master.c:204-357 | a value if and only if the text matches the grammar and the exact value is in range; otherwise exactly the error the source reports |
| `IntParse.StrToInt` | proofs/strtoint/numutils_master.c:126-357 | for all three widths and every string: a value if and only if the text denotes one in range, and that value; otherwise the range error if and only if the digits overrun before anything malformed is met, the syntax error in all other cases; a value breaks the documented underscore rule if and only if its digits start with an underscore after a base prefix |
| `IntParse.DigitsSpelled` | proofs/strtoint/numutils_master.c:87-96 | each of the sixteen digits, in either case, counts its place in the alphabet, in the bases that have it and in no other |
| `IntParse.DigitsOnly` | proofs/strtoint/numutils_master.c:87-96 | nothing else is a digit |
| `IntParse.NumeralRoundTrip` | proofs/strtoint/numutils_master.c:204-344 | every number written in any of the four bases, with either case of prefix letter and digits, any sign and any blanks around it, denotes itself |
| `IntParse.ParseNumeral` | proofs/strtoint/numutils_master.c:126-357 | the parser on such a text gives the number if the type holds it and the range error otherwise |
| `IntParse.UnderscoresCountNothing` | proofs/strtoint/numutils_master.c:222-321 | underscores do not change the number |
| `IntParse.TooBigMeaning` | proofs/strtoint/numutils_master.c:222-321 | a run overruns if and only if some well-formed part before one of its digits is already above the limit |
| `IntParse.RunDocumentedIff` | proofs/strtoint/numutils_master.c:222-321 | the underscore rule of the comments, read as a condition on neighbours, holds of a run if and only if the code accepts it and it does not start with an underscore |
| `IntParse.AcceptedIff` | proofs/strtoint/numutils_master.c:222-321 | the code accepts a numeral if and only if it obeys the documented rule or is one base prefix, one underscore and a documented run; never both |
| `IntParse.ValueAgainstTheRule` | proofs/strtoint/numutils_master.c:223-246 | which accepted texts break the documented rule: exactly those with an underscore right after the base prefix |
| `IntParse.UnderscoreAfterPrefix` | proofs/strtoint/numutils_master.c:223-246 | the input: an underscore right after a base prefix is accepted, one before a decimal run is not |
| `IntPrint.ByteTableRight` | proofs/bitutils/c_bitutils.c:51-68 | the byte table holds the position of the highest set bit |
| `IntPrint.LeftmostOnePos` | proofs/bitutils/c_bitutils.c:111-135 | for every nonzero 32- and 64-bit word the loop and the table give the highest set bit |
| `IntPrint.NearEverywhere` | proofs/strtoint/numutils_master.c:43-85 | the estimate from bits times 1233/4096 is within one digit, for each of the 64 bit positions |
| `IntPrint.DecimalLength` | proofs/strtoint/numutils_master.c:43-85 | the approximate logarithm and one comparison give the exact number of digits of every nonzero input |
| `IntPrint.CopyPair` | proofs/strtoint/numutils_master.c:1069-1101 | a two-byte copy inside the buffer changes exactly two characters |
| `IntPrint.CopyFour` | proofs/strtoint/numutils_master.c:1071-1080 | two pairs, the lower first |
| `IntPrint.PrintFour` | proofs/strtoint/numutils_master.c:1069-1082 | one turn of the 32-bit loop takes four digits off and keeps within the number's own room |
| `IntPrint.PrintEight` | proofs/strtoint/numutils_master.c:1155-1176 | one turn of the 64-bit loop takes eight digits off |
| `IntPrint.PrintTail` | proofs/strtoint/numutils_master.c:1083-1105 | the last one to four digits complete the canonical text |
| `IntPrint.PrintU32` | proofs/strtoint/numutils_master.c:1053-1108 | exactly the canonical decimal digits, nothing outside them touched |
| `IntPrint.PrintU64` | proofs/strtoint/numutils_master.c:1138-1216 | the same for 64 bits |
| `IntPrint.PrintI32` | proofs/strtoint/numutils_master.c:1118-1132 | sign, digits and NUL for every 32-bit value, the most negative included |
| `IntPrint.PrintI64` | proofs/strtoint/numutils_master.c:1225-1240 | sign, digits and NUL for every 64-bit value |
| `IntPrint.MeaningOfText` | proofs/strtoint/numutils_master.c:648-879 | canonical text denotes its number in the parser's grammar |
| `IntPrint.PrintThenParse32` | proofs/strtoint/numutils_master.c:387-618 | every 32-bit value printed and parsed is itself |
| `IntPrint.PrintThenParse64` | proofs/strtoint/numutils_master.c:648-879 | every 64-bit value printed and parsed is itself |
| `HashWord.LoadIsSum` | proofs/hash/pg_hashfn.c:70-130 | a little-endian word fetch is the byte-wise sum |
| `Hash.MixBijective` | proofs/hash/pg_hashfn.c:37-46 | mixing has an inverse on both sides |
| `Hash.FinalBijective` | proofs/hash/pg_hashfn.c:48-57 | the final scramble has an inverse on both sides |
| `Hash.MixInPlace` | proofs/hash/pg_hashfn.c:37-46 | the assignments as written compute the mixing |
| `Hash.FinalInPlace` | proofs/hash/pg_hashfn.c:48-57 | the assignments as written compute the scramble |
| `Hash.AbsorbBlocks` | proofs/hash/pg_hashfn.c:60-276 | for every length the block loop gives the same state by word fetches and byte by byte |
| `Hash.AddLast` | proofs/hash/pg_hashfn.c:60-276 | the tail switch adds the same words on the aligned and the unaligned path |
| `Hash.HashBytes` | proofs/hash/pg_hashfn.c:60-276 | for every key both paths return the hash `HashOf` specifies, whose constants and rotations the known answers below fix |
| `Hash.HashExtended` | proofs/hash/pg_hashfn.c:278-507 | for every key and seed both paths return the pair `ExtendedOf` specifies; a zero seed skips the extra mixing |
| `Hash.ExtendedLowHalf` | proofs/hash/pg_hashfn.c:278-507 | with seed zero the low half is the plain hash |
| `Hash.HashU32` | proofs/hash/pg_hashfn.c:509-523 | the one-word form is the hash of the word's four little-endian bytes |
| `Hash.HashU32Extended` | proofs/hash/pg_hashfn.c:525-545 | the same for the extended hash |
| `Hash.OneBlockApart` | proofs/hash/pg_hashfn.c:60-276 | keys of one length that differ in one twelve-byte block never end in the same state |
| `Hash.TailOnlyApart` | proofs/hash/pg_hashfn.c:60-276 | keys of one length that differ only in the tail never end in the same state |
| `Hash.ZerosCount` | proofs/hash/pg_hashfn.c:60-276 | zero bytes at the end of a key count: the key without them ends in a different state, because its length enters the hash |
| `HashKnown.EmptyKey` | proofs/hash/pg_hashfn.c:60-276 | the hash of the empty key is 0xa7ea466d, and 0x9fb1b765 is its high half under seed zero |
| `HashKnown.RisingKey` | proofs/hash/pg_hashfn.c:278-507 | the 23 bytes 1 to 23 under the seed with halves 1 and 2 hash to 0x503a53ff and 0x02111570; one block, a full tail and the seed all take part |
| `Wire.ReadAppend` | wasm/wire.js:78-91 | on a steady stream what is read from a first part stays read, and the rest is read from its leftover and what follows |
| `Wire.AppendIff` | wasm/wire.js:78-91 | more bytes behind a complete message change neither it nor what follows it, if and only if there are none, or the length field is at least -1, or it points before the front of all of them |
| `Wire.PiecesRead` | wasm/wire.js:58-92 | however it is cut, a steady stream is read as if it had come at once, stuck readings included |
| `Wire.ChunkingIff` | wasm/wire.js:58-92 | a stream is read alike however it is cut if and only if it is steady: every negative length field in reach is -1, stands in the last five bytes, or points before the front |
| `Wire.FramesRead` | wasm/wire.js:78-91 | messages sent as type, big-endian length and body are read back, in order, up to the first incomplete one |
| `Wire.SentIsReceived` | wasm/wire.js:58-92 | and so they are however the bytes are cut on the way |
| `Wire.NonNegativeIsSteady` | wasm/wire.js:78-91 | every stream without a negative length field in reach is steady, and its reading ends |
| `Wire.UnsteadyShows` | wasm/wire.js:58-92 | any other stream can be cut in two so that the reading differs, right behind the offending field |
| `Wire.WireReader.Feed` | wasm/wire.js:64-66 | appends the bytes |
| `Wire.WireReader.Compact` | wasm/wire.js:68-74 | joins the chunks and changes no byte |
| `Wire.WireReader.Next` | wasm/wire.js:78-91 | for every length field, negative ones included: a message if and only if one is complete; it is the first, and what remains is what the host's slicing leaves |
| `Wire.Drain` | wasm/wiresession.js:110-126 | all complete messages, in order, leaving the incomplete rest, on every buffer on which the loop ends |
| `Wire.ReadChunks` | wasm/wire.js:58-92 | for every chunking on which the loop ends, the messages are those of the pieces read one by one; for a steady stream they are those of the concatenated stream |
| `Wire.StuckIff` | wasm/wire.js:78-91 | a message consumes nothing if and only if its length field is -1 or points before the start of the buffer |
| `Wire.MinusOneIsStuck` | wasm/wire.js:78-91 | the input: after a length field of -1 the buffer is the same again, so the pump never ends |
| `Wire.ChunkingShows` | wasm/wire.js:78-91 | the input: a length field of -2 is read differently when one more byte has arrived |
| `WireSession.KeepReady` | wasm/wiresession.js:115-121 | a ReadyForQuery completes the armed collector: a batch with exactly one, as its last message |
| `WireSession.ReadyIsZ` | wasm/wiresession.js:115-121 | ReadyForQuery is the message of type Z |
| `WireSession.KeepFront` | wasm/wiresession.js:130-136 | a batch waiting in the inbox is delivered from its front |
| `WireSession.Pump.Deliver` | wasm/wiresession.js:113-125 | one message goes to exactly one place, and order is kept |
| `WireSession.Pump.OnStdout` | wasm/wiresession.js:110-126 | until the session dies, for every bytes on which the loop ends: outcomes, collector and inbox together are all messages read off the pieces received, in order; for a steady stream those are the messages of the stream |
| `WireSession.Pump.CollectUntilReady` | wasm/wiresession.js:128-140 | delivers the batch at hand, waits, or rejects on a dead session; no message is lost |
| `WireSession.Pump.Fail` | wasm/wiresession.js:142-150 | a waiting collection is rejected and the session is dead |
| `WireSession.Stdin.Push` | wasm/wiresession.js:95-100 | the bytes are queued behind what is there |
| `WireSession.Stdin.Take` | wasm/wiresession.js:79-88 | bytes taken plus bytes queued are the bytes pushed, in order; nothing is handed out if and only if nothing is queued |
| `Alignment.LoweredCorresponds` | crash-simulator/src/bridge.rs:235-250 | a lowered step and its recorded step correspond in kind and text |
| `Alignment.LoweredSql` | crash-simulator/src/bridge.rs:235-250 | a statement is lowered if and only if it is one line and no comment; the step has the kind its text shows and the text with a semicolon |
| `Alignment.Lower` | crash-simulator/src/bridge.rs:328-430 | each step is lowered and recorded as specified for it, as many oracle steps as plan steps, pairwise corresponding, noise slots filled; the property is given up if and only if a step cannot be lowered |
| `Alignment.OracleEval.SkipSilent` | crash-simulator/src/bridge.rs:554-569 | the loop moves to the next step that is not silent |
| `Alignment.OracleEval.EvalCheck` | crash-simulator/src/bridge.rs:657-696 | goes dead if and only if the next loud step is missing or no check; alive, the verdict is a failure for undecodable text and otherwise that of the decoded check over slots, ledger and hooks; slots and ledger are untouched |
| `Alignment.OracleEval.OnPropertyBegin` | crash-simulator/src/bridge.rs:698-704 | the cursor starts at the recorded instance, dead if and only if there is none; the slots are emptied and the ledger lives on |
| `Alignment.OracleEval.OnPropertyEnd` | crash-simulator/src/bridge.rs:706-711 | cursor and session are reset; the ledger lives on |
| `Alignment.Judge` | crash-simulator/src/bridge.rs:682-695 | undecodable check text fails; otherwise pass, failure or skip as the check decides |
| `Alignment.OracleEval.Reconcile` | crash-simulator/src/bridge.rs:731-750 | the statement is applied to the ledger and its expected outcome compared with the engine's; complaint, ledger and slot are those of `See`, which `Alignment.ComplainsIff` measures against the copying reference, and a complaint leaves the slot unfilled |
| `Alignment.OracleEval.FollowTx` | crash-simulator/src/bridge.rs:751-770 | the ledger follows transaction control of the first session only; a complaint if and only if the ledger refuses the savepoint |
| `Alignment.OracleEval.OnStepOutcome` | crash-simulator/src/bridge.rs:713-796 | goes dead if and only if the next loud step is missing or reports no outcome; otherwise slots, ledger and complaint are those of that step |
| `Alignment.RunProperty` | crash-simulator/src/bridge.rs:656-797 | on an aligned block the cursor never goes dead and meets every step that is not silent, in order; the complaints and verdicts are those of ledger and slots at each step, and ledger and slots end as the reports say |
| `Alignment.KindsAgree` | crash-simulator/src/oracle/pstep.rs:296-304 | which steps are silent, checked or reported is the same on both sides of the alignment |
| `Alignment.LoudMeaning` | crash-simulator/src/bridge.rs:554-569 | the steps the cursor meets are exactly those that are no session switch, no asynchronous statement and no wait |
| `Alignment.WorkThrough` | crash-simulator/src/bridge.rs:656-797 | the runner's loop over a block keeps the cursor on the recorded step the reports belong to |
| `Alignment.NoFalseComplaint` | crash-simulator/src/oracle/ledger.rs:404-431 | over every list of steps and every engine that answers like the copying reference, reconciliation complains of nothing and the op-log ledger stays in step with the engine |
| `Alignment.ComplainsIff` | crash-simulator/src/oracle/ledger.rs:404-430 | of one step: a complaint if and only if the report deviates from what the copying reference does: a misuse, an error on one side only, different counts, or SQLSTATEs that differ in their first two characters |
| `Alignment.ComplaintsExact` | crash-simulator/src/oracle/ledger.rs:404-430 | over every block and whatever is reported: the steps complained of are exactly those whose report deviates from the copying reference |
| `Alignment.TxMeaning` | crash-simulator/src/bridge.rs:751-770 | what each transaction control does to the copying reference |
| `Alignment.SlotHolds` | crash-simulator/src/bridge.rs:731-750 | a result is in its slot for the next step if and only if it was not complained of |

## Left out

Stated more weakly than the code behaves:

- PlanCode.ParseText: errors carry their line number, not their message text.
- GeneratorRun.GeneratorObject.PickEligible: a draw may find no eligible property although there is one, which allows
  more runs than the code has.
- Probe.AnswerProbe: covers the probes whose answers are compared; probes by key, hook scalars and cursor answers are
  left out. A distinct or whole-column probe asks for a column every row has, because the code indexes it unchecked.
- Wire.Drain: for buffers on which the loop ends, which `Wire.StuckIff` tells; a single read is covered for all.
- Wire.ReadChunks: the same.
- WireSession.Pump.OnStdout: the same, because it drains.
- Detection.OneWrongAnswer: for the slots each check is sensitive to: an arm of a distinct or extreme partition can be
  wrong unseen when another arm has the same value.
- Detection.JudgeChanged: the same.
- Shrink.KeptSessionIff: for plans whose blocks begin in the first session, as the runner's own invariant has it.

Modelled on values or as an environment:

- Schema state is a value that the generator object's field holds and reassigns; update in place inside one table is not
  captured. The same holds for the budget array.
- Column types and capabilities, literal text and the SQL of generated queries: a query is the set of relations it names.
- Property generators: a property block is assumed to leave the database as it found it and may clear the session's
  settings; queries are effect-free, and errors they raise inside an open transaction are not modelled.
- 64-bit overflow of the generator's counters, keys and budgets; sums in the metamorphic checks do wrap.
- Isolation levels are carried by the plan format and ignored by the ledger.
- JSON is a parameter: a validity test in the plan format, and in the snapshot format a codec that decodes what it
  encodes, into fewer than 2^32 bytes. Inode numbers are not part of a node.
- The evaluator takes statement results; turning a driver's outcome into one is not modelled. Decoding a check's text is
  a parameter.
- An engine is a function from a block and a step to a result; statements between blocks do not touch what the ledger
  tracks.
- The chunk-wide ASCII test of the UTF-8 verifier and the overflow-checked negations are given their documented meaning.
- The tables of two-digit pairs and of highest set bits are given by their contents.

Not modelled:

- `check_table_multiset` and the remaining probe kinds: one comparison or one branch each.
- The remaining properties, among them those over live tables, whose steps carry no probe, and those over several
  sessions.
- The executors of the simulator, the driver, the run loop, scheduling, warts, screens and the outcome classifier.
- The remaining encodings of the character-set file, the unsigned parsers `uint32in_subr` and `uint64in_subr`, padding
  printers, the other bit utilities and all big-endian and vector branches.
- File operations of the in-memory file system beyond construction: create, unlink, rename, growing and descriptors.
- The message encoders and decoders of the wire format above its framing, the read-eval loop and the storage back ends.
