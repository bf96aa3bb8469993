# Verified models of the cloud tooling

This project models, in Dafny, the algorithmic parts of the repository and proves what they promise.

| file | models |
|---|---|
| `MqttCodec.dfy` | the hand-written MQTT 3.1.1 codec of the load engine |
| `Apportion.dfy`, `Schedule.dfy` | proportional apportionment of commands; telemetry slots, jittered offsets, command budgets, token retries and pacing |
| `Totals.dfy`, `ConnectPool.dfy` | the I/O counters and the paced worker pool that connects devices, over every interleaving of its workers |
| `CommandExecutor.dfy`, `StagedRun.dfy` | the concurrent command executor of a stage, and the staged run that keeps sessions across stages |
| `Shadow.dfy` | when a device shadow counts as settled |
| `Publish.dfy`, `PublishScript.dfy` | publishers racing on an object store with conditional writes, and the script as a client of that store |
| `JsonPointer.dfy`, `Graph.dfy`, `RefWalker.dfy` | the OpenAPI reference walker over a heap of possibly cyclic documents |
| `SqlScan.dfy`, `Ddl.dfy`, `DdlRename.dfy`, `DdlSchema.dfy` | the SQL scanners and the DDL interpreter behind the ER atlas |
| `ClientCa.dfy` | the factory client CA: registry, CRL, and the order in which its files are replaced |
| `Validation.dfy` | the verdict of a cloud validation run |
| `Poller.dfy` | the CI dashboard's wake-up protocol and failure backoff |
| `SchemaDiff.dfy` | the comparison of two schema snapshots and the report made from it |

Code that runs step by step is imperative here too: loops are loops with invariants, objects whose
fields change are classes, and each such method is proved equal to a specification function or
predicate about which the properties are then proved. Concurrent code is a step system: a run is any
sequence of moves, one move being one goroutine, worker or publisher passing one lock, channel
operation, counter update or reply, so a statement about all runs is one about all interleavings.

Time is an integer (nanoseconds in the load engine). Hash functions, random serials, network replies, HTTP
timing, file contents, parsed JSON, YAML and command exits are parameters that the statements quantify
over. `None` stands for an uncaught exception or a returned error where the model has no use for its text.

## Statements that do not hold as one might expect

Each of these is stated for every input, with the exact condition under which the code does what is
expected; where no input can be read off the condition, a lemma gives one.

- Jittered command offsets leave the window for some hash as soon as a third of the spacing is zero
  (`Schedule.JitterRangeExactly`); commands overrun their stage when the action window is shorter than the
  budget (`Schedule.ScheduleCommands`); pacing overruns when the token reserve does not fit
  (`Schedule.PacingFitsExactly`).
- Telemetry reports come in order exactly when the window holds a nanosecond for each
  (`Schedule.TelemetryInOrder`).
- `mqttDecodePublish` takes the packet id of a QoS > 0 publish for granted (`MqttCodec.PanicsExactly`,
  `MqttCodec.EmptyPublishPanics`).
- The deferred close of a staged run is given the session list of the moment of the `defer`, which is empty
  (`StagedRun.RunStages`); after a partly connected stage the next slice repeats or skips assignments
  (`StagedRun.NextSliceExactly`, `StagedRun.PartialStageRepeats`), and any subset of a stage can be what
  connects (`ConnectPool.AnySubsetConnects`).
- A sustained command takes the correlation marker of its desired state and that of its reported state from
  two readings of the clock. With a run id of which nothing is left after sanitizing, the markers differ when
  the second changes in between, and the shadow delta never clears (`Shadow.CommandSettlesExactly`,
  `Shadow.BlankRunMissesItsSecond`).
- Renaming a column over an existing one loses a column (`DdlRename.ColumnRenameUndoneExactly`,
  `DdlRename.CollisionIsNotUndone`); a renamed table captures references that dangled under its new name
  (`DdlRename.TableRenameUndoneExactly`, `DdlRename.CaptureIsNotUndone`); dropping columns or tables leaves
  the references of other tables behind (`DdlSchema.DropColumnExactly`, `DdlSchema.DropTableExactly`,
  `DdlSchema.DroppedTarget`).
- A revocation cut off between its two file replacements is in the CRL but not in the registry, and the next
  refresh takes it out again (`ClientCa.HalfRevocationIsLost`); a certificate whose signing is cut off
  there cannot be revoked (`ClientCa.SignCutExactly`).
- The CA tool takes no lock. Two revocations keep every moment safe exactly when they do not overlap
  (`ClientCa.OverlapIsUnsafe`, `ClientCa.RevocationsSafeExactly`); a signing beside a revocation loses the
  certificate or the mark exactly when they overlap (`ClientCa.OverlapLosesOne`, `ClientCa.BothKeptExactly`),
  and a stale signing takes a completed revocation back (`ClientCa.RevocationDropped`).
- The evidence file of a validation run without an evidence command is not read: a pass shows the evidence
  of its scenarios exactly when there is an evidence command (`Validation.PassShowsEvidenceExactly`,
  `Validation.PassWithoutEvidence`).
- A client whose activity takes its time just before its idle time is up, and the lock only after the poller
  found it gone, is forgotten: the loop sleeps although the client is active
  (`PollerLoop.ActivityCanBeLost`, `PollerLoop.AttentionKeptExactly`, `PollerLoop.LostByRecord`).
- The schema report shortens metadata links of tables whose names contain a dot
  (`SchemaDiff.MetadataLinkedExactly`).

## Model

| member | source | states |
|---|---|---|
| MqttCodec.LengthRoundTrip | scripts/go/cloud-mqtt-test/main.go:6085-6147 | the reader's digit loop, started at any place, recovers the length from the encoder's digits when they fit in the places left and rejects them otherwise |
| MqttCodec.PacketRoundTrip | scripts/go/cloud-mqtt-test/main.go:6077-6110 | a packet written in front of any bytes is read back with exactly those bytes left over; a body of 128^4 bytes or more is malformed |
| MqttCodec.StreamRoundTrip | scripts/go/cloud-mqtt-test/main.go:6077-6110 | packets written back to back are read back exactly if and only if every body is below 128^4 bytes |
| MqttCodec.CutPacket | scripts/go/cloud-mqtt-test/main.go:6085-6110 | no proper prefix of a legal packet is taken for a packet; all are truncated |
| MqttCodec.PublishRoundTrip | scripts/go/cloud-mqtt-test/main.go:5929-5942 | a QoS 0 or 1 publish decodes to its own topic and payload if and only if the topic is below 65536 bytes |
| MqttCodec.PanicsExactly | scripts/go/cloud-mqtt-test/main.go:6111-6127 | the decoder runs past the end exactly on a QoS > 0 body of two bytes or more that ends less than two bytes behind the topic its first two bytes announce; equivalently, on one topic field with a tail too short for a packet id |
| MqttCodec.EmptyPublishPanics | scripts/go/cloud-mqtt-test/main.go:6085-6127 | read off the wire, a QoS 1 publish with an empty topic and nothing behind it does so |
| MqttCodec.PublishOverWire | scripts/go/cloud-mqtt-test/main.go:5929-5933 | a publish written as a packet in front of any bytes arrives with topic, payload and the rest of the stream intact |
| MqttCodec.RemainingLength | scripts/go/cloud-mqtt-test/main.go:6134-6147 | the encoder loop computes the base-128 digits that the round trips are about |
| MqttCodec.ReadPacket | scripts/go/cloud-mqtt-test/main.go:6085-6110 | the reader loop is the specification that the round trips are about, truncated and malformed input included |
| MqttCodec.WritePacket | scripts/go/cloud-mqtt-test/main.go:6077-6084 | the writer emits type, length digits and body |
| Apportion.WeightedSlots | scripts/go/cloud-mqtt-test/main.go:2624-2646 | m commands over total weight W > 0: sorted slots, m in all, none for weight zero, and floor or ceiling of m*w/W for every session of weight w; nothing otherwise |
| Apportion.PositionInRange | scripts/go/cloud-mqtt-test/main.go:2636-2646 | the clamp at the end of the weighted list is never taken |
| Apportion.ShareOf | scripts/go/cloud-mqtt-test/main.go:2624-2646 | midpoint sampling of any weighted list gives each session its rounded share |
| Apportion.BelowBounds | scripts/go/cloud-mqtt-test/main.go:2636-2646 | the number of samples below a weight bound is that bound's share rounded to the nearest integer |
| Schedule.TelemetrySlot | scripts/go/cloud-mqtt-test/main.go:2664-2690 | for any hash, report e of n lies in the e-th of n equal consecutive slots inside the window if and only if the window holds a nanosecond for each of the n |
| Schedule.TelemetryInOrder | scripts/go/cloud-mqtt-test/main.go:2664-2690 | the reports of a device are strictly ordered, whatever their hashes, if and only if the window holds a nanosecond for each |
| Schedule.DeterministicOffsets | scripts/go/cloud-mqtt-test/main.go:3578-3587 | offset i is floor((i+1) window / (count+1)); nothing for an empty count or window |
| Schedule.BaseSpacing | scripts/go/cloud-mqtt-test/main.go:3578-3587 | base offsets are at least one spacing apart and from both ends of the window |
| Schedule.JitteredOffsets | scripts/go/cloud-mqtt-test/main.go:2691-2727 | the offsets are the sorted clamped jitters: one per slot, in order, inside the window, for any hash |
| Schedule.JitterKeepsOrder | scripts/go/cloud-mqtt-test/main.go:2691-2727 | when a third of the spacing is nonzero, sorting and clamping change nothing |
| Schedule.JitterRangeExactly | scripts/go/cloud-mqtt-test/main.go:2691-2727 | the raw offsets stay in the window for every hash if and only if a third of the spacing is nonzero |
| Schedule.ScheduleCommands | scripts/go/cloud-mqtt-test/main.go:2026-2031 | every command leaves the budget before the stage deadline, for every hash, if and only if the action window holds the budget; the offsets are those of the window that is left |
| Schedule.DispatchWindow | scripts/go/cloud-mqtt-test/main.go:1396-1416 | the dispatch window is what the pace window leaves after the reserve, or half of it when the reserve does not fit |
| Schedule.RequestToken | scripts/go/cloud-mqtt-test/main.go:5077-5148 | for any replies that respect their limits, the retry loop ends within the reserve of its start and, started before its deadline, never after it |
| Schedule.ReserveIsWorstCase | scripts/go/cloud-mqtt-test/main.go:1396-1416 | the reserve is the exact duration of the slowest retry loop, for every timeout and retry count |
| Schedule.TokenWithinReserve | scripts/go/cloud-mqtt-test/main.go:5077-5148 | from any attempt on, the loop takes no longer than the attempts and backoffs that are left |
| Schedule.PacingFitsExactly | scripts/go/cloud-mqtt-test/main.go:1389-1416 | every device's dispatch delay plus its worst-case token loop ends inside the pace window if and only if the reserve fits in it |
| Totals.MergeKeepsLaws | scripts/go/cloud-mqtt-test/main.go:4322-4401 | merging stage totals keeps every counter law of the device path and of the commands, and overwrites only the gauge |
| ConnectPool.NextSettles | scripts/go/cloud-mqtt-test/main.go:2298-2410 | no step of a worker changes a law, once what the worker still owes is counted in |
| ConnectPool.RunInv | scripts/go/cloud-mqtt-test/main.go:2285-2410 | in every reachable state of every interleaving the counters with the workers' debts are balanced and assignments are held, queued or done exactly once |
| ConnectPool.PoolAccounts | scripts/go/cloud-mqtt-test/main.go:2285-2410 | a finished connect call leaves balanced counters; it returns as many sessions as it counted successes, distinct assignments of this call |
| ConnectPool.AnySubsetConnects | scripts/go/cloud-mqtt-test/main.go:2285-2410 | for any options, any number of workers and any set of assignments, some finished call connects exactly those of the set |
| ConnectPool.AttemptsAlwaysExplained | scripts/go/cloud-mqtt-test/main.go:2298-2410 | at any moment attempts = successes + failures + busy workers |
| CommandExecutor.Concurrency | scripts/go/cloud-mqtt-test/main.go:1372-1388 | the command limit is positive, no larger than the number of sessions, and otherwise the command concurrency, else the concurrency, else 25 |
| CommandExecutor.RunInv | scripts/go/cloud-mqtt-test/main.go:2037-2134 | semaphore slots, session locks, the claim and every command's counters agree in every reachable state |
| CommandExecutor.ExecutorSafety | scripts/go/cloud-mqtt-test/main.go:2037-2134 | at most the limit in flight, at most one command per session, and the first dispatched command alone holds the policy probe, under every interleaving |
| CommandExecutor.ExecutorAccounts | scripts/go/cloud-mqtt-test/main.go:2754-3010 | at the end acks = passed <= reported <= deltas <= desired writes <= attempted, and every slot is back |
| CommandExecutor.PassMeansEveryCommandPassed | scripts/go/cloud-mqtt-test/main.go:2037-2134 | a stage that ends ok ran every scheduled command through every phase |
| CommandExecutor.NeverStuck | scripts/go/cloud-mqtt-test/main.go:2037-2134 | semaphore, locks and claim never deadlock: a stage that is not over can go on, also when the dispatcher is past its checks and can only wait for a slot of a full semaphore |
| CommandExecutor.MoveDecreases | scripts/go/cloud-mqtt-test/main.go:2037-2134 | every move that changes the stage lowers the phases left over all commands and events |
| CommandExecutor.EveryRunEnds | scripts/go/cloud-mqtt-test/main.go:2037-2134 | so under every interleaving the stage ends after at most twelve effective moves an event and one more, and it can go on if and only if it is not over |
| StagedRun.ParseStages | scripts/go/cloud-mqtt-test/main.go:1280-1337 | exactly the lists of equal nonzero length with positive nondecreasing targets, positive durations and nonnegative minimums are accepted, and each stage is its row |
| StagedRun.RunStage | scripts/go/cloud-mqtt-test/main.go:1952-2145 | one stage keeps the sessions it got, connects only missing assignments, and passes only when all its commands passed and the live sessions are the first ones up to its target |
| StagedRun.RunStages | scripts/go/cloud-mqtt-test/main.go:1923-2145 | the books balance over all stages; a passing run ran every stage, and after each the live sessions are exactly the first assignments up to the largest target so far, each once; nothing is closed by the deferred call |
| StagedRun.ConnectMissing | scripts/go/cloud-mqtt-test/main.go:1960-1984 | connecting the whole missing slice, in any finishing order, extends the first n assignments to the first target |
| StagedRun.PeakIsTarget | scripts/go/cloud-mqtt-test/main.go:1323-1325 | for a parsed list the largest target so far is the stage's own |
| StagedRun.FirstNCovers | scripts/go/cloud-mqtt-test/main.go:1960-1984 | the first n sessions leave out none of the first n assignments |
| StagedRun.NextSliceExactly | scripts/go/cloud-mqtt-test/main.go:1961 | the next slice neither repeats nor skips assignments if and only if the live sessions are the first ones |
| StagedRun.PartialStageRepeats | scripts/go/cloud-mqtt-test/main.go:1960-1984 | an example where it does both, after a finished connect call with any options and any number of workers |
| Shadow.ShadowSatisfied | scripts/go/cloud-mqtt-test/main.go:4804-4823 | the recursive loop decides whether every desired field, at any depth, is reported with an equal value |
| Shadow.SatisfiedIsAnOrder | scripts/go/cloud-mqtt-test/main.go:4804-4823 | "satisfied by" is reflexive, transitive and antisymmetric on JSON trees |
| Shadow.GainingKeepsSatisfied | scripts/go/cloud-mqtt-test/main.go:4804-4823 | a reported state that only gains fields, at any depth, keeps satisfying |
| Shadow.DeltaCleared | scripts/go/cloud-mqtt-test/main.go:4790-4802 | a documents message clears the delta exactly when it has a current state whose desired fields, none if absent, are satisfied |
| Shadow.SettlesExactly | scripts/go/cloud-mqtt-test/main.go:5820-5878 | for every capability, the generated report satisfies the generated desired state exactly when run and command markers are the same |
| Shadow.CommandSettlesExactly | scripts/go/cloud-mqtt-test/main.go:2863-2864 | a sustained command's own report settles its shadow exactly when something is left of the run id or both clock readings fall into one second |
| Shadow.BlankRunMissesItsSecond | scripts/go/cloud-mqtt-test/main.go:4032-4041 | an example where it does not |
| Shadow.DecimalReads | scripts/go/cloud-mqtt-test/main.go:4032-4041 | a second printed in decimal reads back as itself, so different seconds give different markers |
| Publish.KeyInjective | tools/pro2/publish_examples.py:21-30 | the key of a release object determines version and file name |
| Publish.ReleaseObjectsAreImmutable | tools/pro2/publish_examples.py:29-40 | under every interleaving of any number of publishers a release object never changes once it exists |
| Publish.RunInv | tools/pro2/publish_examples.py:24-56 | every publisher past a file has it stored and verified, entity tags identify contents, and the log of activations chains, in every reachable state |
| Publish.LatestNamesCompleteRelease | tools/pro2/publish_examples.py:24-56 | latest.json is absent or names a version of which every manifest file is stored with its size and digest |
| Publish.ActivationsSaveWhatTheyReplace | tools/pro2/publish_examples.py:43-56 | every activation saved exactly the pointer it replaced, which is the one the previous activation wrote |
| Publish.ActivationsOfOneVersionAgree | tools/pro2/publish_examples.py:24-56 | two activations of one version published the same files with the same contents |
| PublishScript.CheckFile | tools/pro2/publish_examples.py:30-35 | one lookup with anything the others do before it is a run of the protocol; a different stored digest stops the script |
| PublishScript.PutMissing | tools/pro2/publish_examples.py:36-40 | the write-once upload of a missing file likewise |
| PublishScript.VerifyStored | tools/pro2/publish_examples.py:41-42 | the read-back comparison likewise |
| PublishScript.ReadPointer | tools/pro2/publish_examples.py:44-54 | reading latest.json remembers its body and tag, or its absence, as the condition of the later write |
| PublishScript.WritePointer | tools/pro2/publish_examples.py:55-56 | the conditional replacement, whose reply may be lost, is one protocol step |
| PublishScript.RunScript | tools/pro2/publish_examples.py:21-56 | the whole script, whatever the others do between its requests, is a run of the protocol that ends with its outcome |
| PublishScript.ScriptIsSafe | tools/pro2/publish_examples.py:24-56 | so a script that reports success published a complete release, and the pointer only ever names complete ones |
| JsonPointer.DecodeEncode | scripts/validate_openapi.py:69-71 | unescaping undoes the escaping of section 4 of RFC 6901 for every token |
| JsonPointer.PointerRoundTrip | scripts/validate_openapi.py:69-71 | every list of tokens is read back from its printed pointer |
| RefWalker.Walker.Load | scripts/validate_openapi.py:29-35 | a file is cached exactly when it is inside the workspace and readable, as it was parsed |
| RefWalker.Walker.Walk | scripts/validate_openapi.py:37-103 | terminates on any, also cyclic, heap; a normal return leaves every new site expanded and reachable, an exception means a site that raises is reachable |
| RefWalker.Walker.WalkChildren | scripts/validate_openapi.py:75-103 | every entry of a dict is walked in the context its name and place give it, or skipped, or raises |
| RefWalker.Walker.ResolveRef | scripts/validate_openapi.py:60-71 | the loops over scheme, file and pointer tokens find exactly the target, which is then cached |
| RefWalker.Walker.LocalDocuments | scripts/validate_openapi.py:25-107 | returns normally exactly when the file loads and no reachable site raises, and then the visited set is exactly the set of reachable (document, node, context) sites |
| RefWalker.ReferencesChecked | scripts/validate_openapi.py:60-74 | after that every reachable reference is local, inside the workspace, resolvable, and its target was walked in the context of its site |
| RefWalker.Walker.CachedFile | scripts/validate_openapi.py:111-118 | the resolver gets only documents that the preflight cached, unchanged |
| SqlScan.SplitSql | scripts/generate_database_er_atlas.py:41-60 | the scanner loop, doubled quotes stepped over, computes the nonblank stripped pieces between top-level delimiters |
| SqlScan.PiecesRejoin | scripts/generate_database_er_atlas.py:41-60 | the unstripped pieces rejoin with the delimiter to the text |
| SqlScan.BalancedPieces | scripts/generate_database_er_atlas.py:41-60 | a text has paired parentheses and closed literals if and only if each of its pieces has |
| SqlScan.PiecesAreWhole | scripts/generate_database_er_atlas.py:41-60 | no piece can be cut again |
| SqlScan.SplitJoin | scripts/generate_database_er_atlas.py:41-60 | balanced pieces without a delimiter to cut are returned by splitting their join |
| SqlScan.BodyAt | scripts/generate_database_er_atlas.py:63-73 | from an open parenthesis the result is b if and only if the text reads "(" b ")" there with b balanced; an error if and only if there is no such b |
| SqlScan.TogglesAgree | scripts/generate_database_er_atlas.py:41-73 | the two scanners agree on being inside a literal at every character but a quote |
| DdlRename.ColumnRenameKeeps | scripts/generate_database_er_atlas.py:121-132 | a fresh column rename keeps keys, unique sets and the foreign keys of every table, self references included, well formed |
| DdlRename.ColumnRenameUndoneExactly | scripts/generate_database_er_atlas.py:121-132 | a column rename that goes through is undone by the reverse rename if and only if the old column exists and the new name is fresh, or both names are one; the tolerated rename of a missing column is not |
| DdlRename.CollisionIsNotUndone | scripts/generate_database_er_atlas.py:125 | an example where it does not |
| DdlRename.TableRenameUndoneExactly | scripts/generate_database_er_atlas.py:165-175 | the reverse table rename restores any catalogue if and only if no foreign key already named the new table |
| DdlRename.CaptureIsNotUndone | scripts/generate_database_er_atlas.py:165-175 | an example where it does not |
| DdlRename.TableRenameKeeps | scripts/generate_database_er_atlas.py:165-175 | a fresh table rename keeps the schema well formed |
| DdlRename.RenamesUndone | scripts/generate_database_er_atlas.py:121-175 | any sequence of fresh column and table renames goes through, keeps the schema well formed and is undone by the reverse sequence |
| DdlRename.RenamesKeepCardinality | scripts/generate_database_er_atlas.py:247-257 | ... and leaves both ends of every foreign key of every table as they were |
| DdlSchema.EventsKeepShape | scripts/generate_database_er_atlas.py:225-246 | whatever events are parsed, tables stay filed under their names, columns keep unique names and foreign keys their child |
| DdlSchema.DropColumnExactly | scripts/generate_database_er_atlas.py:153-160 | dropping a column keeps the schema well formed if and only if no surviving foreign key points at it |
| DdlSchema.DropTableExactly | scripts/generate_database_er_atlas.py:234-237 | dropping a table does if and only if no other table refers to it |
| DdlSchema.DroppedTarget | scripts/generate_database_er_atlas.py:153-160 | an example of either: a child table left with a reference to a dropped column or table |
| DdlSchema.Schema.ToColumn | scripts/generate_database_er_atlas.py:121-132 | the loops over all tables perform the column rename, or report an unknown column and change nothing |
| DdlSchema.Schema.ToTable | scripts/generate_database_er_atlas.py:165-175 | the loops over all tables perform the table rename, or report a duplicate and change nothing |
| DdlSchema.Schema.AlterAll | scripts/generate_database_er_atlas.py:135-187 | the actions of one ALTER TABLE act in order, the table followed through its own renames |
| DdlSchema.Schema.Replay | scripts/generate_database_er_atlas.py:225-246 | the event loop computes the meaning of the event list and keeps the shape |
| DdlSchema.MarkKeys | scripts/generate_database_er_atlas.py:248-250 | the columns of the primary key, and no others, become NOT NULL; a key over an unknown column is an error |
| DdlSchema.ResolveKeys | scripts/generate_database_er_atlas.py:251-257 | accepts exactly when every reference resolves, and gives each foreign key its optionality and multiplicity |
| DdlSchema.Schema.FinalPass | scripts/generate_database_er_atlas.py:247-257 | succeeds if and only if keys and references name existing columns and tables, and then draws every foreign key as its columns' nullability and unique sets demand |
| HexSerial.SerialRoundTrip | scripts/go/factory-client-cert/main.go:240 | a serial printed in base 16 passes the hex check and reads back as itself |
| ClientCa.HexIsSound | scripts/go/factory-client-cert/main.go:240-288 | base 16 meets the one assumption that the statements below make about numerals: what is printed is hexadecimal and reads back |
| ClientCa.EntriesExact | scripts/go/factory-client-cert/main.go:274-296 | a CRL made from a registry lists exactly the serials it marks revoked |
| ClientCa.RevokeInExact | scripts/go/factory-client-cert/main.go:255-264 | a revocation marks the named serial and no other number, and keeps every earlier mark |
| ClientCa.RunKeeps | scripts/go/factory-client-cert/main.go:155-296 | from an empty directory, through any operations stopped between any two file replacements: every serial the registry marks revoked is in the CRL on disk, which the key on disk signed, and every registered serial was issued |
| ClientCa.RecordedStays | scripts/go/factory-client-cert/main.go:155-296 | no step, complete or cut off, takes a revocation out of the registry |
| ClientCa.RevocationIsFinal | scripts/go/factory-client-cert/main.go:247-296 | after a completed revocation the serial is in the CRL of every later state of every run |
| ClientCa.RefreshListsExactly | scripts/go/factory-client-cert/main.go:83-88 | a refreshed CRL lists a serial exactly when the registry marks it |
| ClientCa.HalfRevocationIsLost | scripts/go/factory-client-cert/main.go:268-271 | so a revocation cut off after its CRL disappears with the next refresh |
| ClientCa.RevokeAcceptedExactly | scripts/go/factory-client-cert/main.go:247-267 | a revocation is accepted exactly for the canonical spelling of a registered serial |
| ClientCa.SignCutExactly | scripts/go/factory-client-cert/main.go:240-244 | an issued certificate stays unregistered exactly when signing is cut off between its two replacements |
| ClientCa.OverlapIsUnsafe | scripts/go/factory-client-cert/main.go:247-272 | for any two registered, unmarked serials, every interleaving of two revocations that read the same directory leaves a marked serial out of the CRL at some moment |
| ClientCa.RevocationsSafeExactly | scripts/go/factory-client-cert/main.go:247-272 | a second revocation that reads the directory after j of the two replacements of the first: however the rest interleaves, every moment is safe if and only if the first was done, j = 2 |
| ClientCa.OverlapLosesOne | scripts/go/factory-client-cert/main.go:236-272 | a signing and a revocation that read the same registry: in every interleaving one of the two, the new certificate or the mark, is missing from the final registry |
| ClientCa.BothKeptExactly | scripts/go/factory-client-cert/main.go:236-272 | with the second one reading after j replacements of the first, whichever comes first, both are kept if and only if the first was done |
| ClientCa.RevocationDropped | scripts/go/factory-client-cert/main.go:236-272 | a signing that read the registry before a completed revocation and writes after it takes the mark out, and the next refreshed CRL omits the serial |
| ClientCa.Directory.WritePrivate | scripts/go/factory-client-cert/main.go:348-373 | either the file has the new content or nothing changes; that a file is replaced as a whole is an assumption here, since the temporary file, its sync and the rename are one step |
| ClientCa.Directory.UpdateCrl | scripts/go/factory-client-cert/main.go:274-296 | writes the CRL of the given registry, or changes nothing when the CA or a serial is unusable or the write fails |
| ClientCa.Directory.InitCa | scripts/go/factory-client-cert/main.go:155-192 | an existing key is never replaced; otherwise key, certificate, empty registry and CRL appear in this order, as far as the writes go |
| ClientCa.Directory.SignCsr | scripts/go/factory-client-cert/main.go:194-245 | certificate first, registry second, as far as the writes go; success means both |
| ClientCa.Directory.RevokeSerial | scripts/go/factory-client-cert/main.go:247-272 | CRL first, registry second, as far as the writes go; success means both |
| ClientCa.Directory.RefreshCrl | scripts/go/factory-client-cert/main.go:83-88 | rewrites the CRL from the registry, or nothing |
| Validation.LoadScenarios | e2e_test/cloud_validation/cloudvalidation/scenario.go:16-47 | loads exactly manifests of version 1 whose scenarios are well formed, at least one in all and no id twice |
| Validation.AggregateStatus | e2e_test/cloud_validation/cloudvalidation/runner.go:577-595 | failed if any result failed, then skipped if all are, then blocked if any is, passed otherwise |
| Validation.OverallStatus | e2e_test/cloud_validation/cloudvalidation/report.go:170-192 | a failure anywhere fails the run, then a block blocks it, then a skipped result skips it |
| Validation.ReadPlatformResult | e2e_test/cloud_validation/cloudvalidation/runner.go:538-575 | accepts exactly results of this run and platform whose items are well formed, correctly correlated and reasoned, with the status they add up to |
| Validation.CorrelationInjective | e2e_test/cloud_validation/cloudvalidation/runner.go:560-563 | a correlation id names its run, platform and scenario when the last two have no dashes |
| Validation.AcceptedCorrelations | e2e_test/cloud_validation/cloudvalidation/runner.go:538-575 | so accepted results of iOS and Android runs share a correlation id only if they are of one run, one platform and one scenario, since the scenario ids of manifests have no dashes |
| Validation.AttachTestIds | e2e_test/cloud_validation/cloudvalidation/runner.go:120-136 | sets the test id its scenario gives on every result, or fails exactly when a result reports another one |
| Validation.ValidateCoverage | e2e_test/cloud_validation/cloudvalidation/runner.go:158-172 | accepts exactly when no scenario is reported twice and none is missing |
| Validation.ValidateExpected | e2e_test/cloud_validation/cloudvalidation/runner.go:138-156 | accepts exactly when every scenario's result is a pass, or the skip or block of an expected missing capability |
| Validation.ValidateEvidence | e2e_test/cloud_validation/cloudvalidation/runner.go:234-295 | accepts exactly when every event belongs to a reported result and every passed scenario has all its evidence |
| Validation.PlatformPhase | e2e_test/cloud_validation/cloudvalidation/runner.go:86-102 | yields a result exactly when the command succeeds and all validations accept, and blocks the run otherwise |
| Validation.Run | e2e_test/cloud_validation/cloudvalidation/runner.go:19-118 | passes if and only if all its parts do; past the readiness gate it ends with exactly one cleanup, right behind the one stop of a started device, and before the gate it starts and cleans up nothing |
| Validation.PassMeans | e2e_test/cloud_validation/cloudvalidation/runner.go:19-295 | a passing run with an evidence command has for each scenario exactly one result, correlated with this run, that passed with all evidence seen under its correlation id or skipped an expected missing capability |
| Validation.PassWithoutEvidence | e2e_test/cloud_validation/cloudvalidation/runner.go:114-116 | for every configuration without an evidence command, and whatever the evidence file says, some run over it passes whose passed scenario demands evidence that the file does not decide |
| Validation.PassShowsEvidenceExactly | e2e_test/cloud_validation/cloudvalidation/runner.go:104-116 | every passing run shows all the evidence of its passed scenarios if and only if there is an evidence command |
| PollerLoop.RunKeeps | tools/ci-dashboard/github.go:164-228 | over every run a webhook without a later refresh is a token in the channel or in the loop's hand, the timer runs exactly when the loop listens to it, and a tick's refresh restarts a stopped timer |
| PollerLoop.HookIsServed | tools/ci-dashboard/github.go:164-206 | wherever an uncancelled run leaves the loop with a webhook not yet served, at most three moves of the loop alone start a refresh that serves it |
| PollerLoop.AsleepMeansGone | tools/ci-dashboard/github.go:164-234 | when activity times are taken in order, a sleeping loop has seen the client go, and the client's next activity wakes it |
| PollerLoop.AttentionKeptExactly | tools/ci-dashboard/github.go:164-234 | over any run, the loop is never asleep beside a client it has not found gone if and only if no activity reaches a sleeping loop with a time within the idle time of the activity before and of the last finding |
| PollerLoop.LostByRecord | tools/ci-dashboard/github.go:164-234 | in a run that does end so, one such activity came while the loop had found the client gone, and nothing woke the loop from then on |
| PollerLoop.ActivityCanBeLost | tools/ci-dashboard/github.go:164-234 | a run of ten steps to a loop asleep beside an active client |
| PollerBackoff.BackoffIs | tools/ci-dashboard/github.go:338-358 | after any history the backoff of runs and that of pull requests are min(15 * 2^(k-1), 300) seconds for the k failures in a row of that lane alone |
| PollerBackoff.DueExactly | tools/ci-dashboard/github.go:472-492 | after a failure the lane is due again exactly at its Retry-After moment when that is in the future, else exactly when the backoff is over |
| PollerBackoff.Poller.RecordRuns | tools/ci-dashboard/github.go:472-492 | a runs reply doubles or resets the backoff of the runs of that repository and touches nothing else |
| PollerBackoff.Poller.RecordPulls | tools/ci-dashboard/github.go:338-358 | a pull request reply likewise |
| PollerBackoff.Poller.Refresh | tools/ci-dashboard/github.go:236-273 | one refresh takes exactly the replies of the lanes that are due, repository by repository |
| SchemaDiff.KeyRoundTrip | scripts/database_schema_catalog.py:312-335 | every flattened key made of separator-free names is read back, so no two objects share a key |
| SchemaDiff.Flatten | scripts/database_schema_catalog.py:312-335 | the nested loops store every object of the snapshot under its key |
| SchemaDiff.Compare | scripts/database_schema_catalog.py:309-339 | a change for exactly the keys whose values differ, added, removed or changed; an error exactly for different formats |
| SchemaDiff.EmptyExactly | scripts/database_schema_catalog.py:309-339 | the comparison is empty if and only if both snapshots hold the same objects with the same values |
| SchemaDiff.EmptyUpToOrder | scripts/database_schema_catalog.py:309-339 | for snapshots listing each object once, if and only if they agree up to order |
| SchemaDiff.SwapExchanges | scripts/database_schema_catalog.py:337-339 | exchanging the snapshots exchanges added and removed |
| SchemaDiff.TableLinked | scripts/database_schema_catalog.py:434-450 | from the key of a table, its primary key or any of its parts the report recovers service and table |
| SchemaDiff.MetadataLinkedExactly | scripts/database_schema_catalog.py:440-442 | from a table's or column's metadata it recovers the table if and only if its name has no dot |
| SchemaDiff.OthersUnlinked | scripts/database_schema_catalog.py:443-446 | views, migrations and other metadata are linked to no table |

## Left out

- Floating point in the apportionment and schedule formulas: they are computed exactly, so rounding of `float64` and overflow of `int64` nanoseconds are not captured.
- HTTP, TLS, MQTT brokers, shadow merging in the cloud, SQLite, Docker, kubectl, subprocesses, clocks and randomness: their replies are parameters.
- The regular expressions of the DDL parser: the interpreter starts from parsed definitions, actions and events; comments and the check for unsupported DDL are not modelled.
- DdlSchema.Schema.AlterAll: says nothing about the tables after an exception, because the run ends there.
- Table and foreign key sources, tables' order in the dictionary and rendering are not modelled; columns keep their order.
- ConnectPool.RunInv: dispatch timing and pacing are not part of a move; any interleaving in time is allowed.
- ConnectPool and CommandExecutor are step relations on values rather than objects with locks: one move is one critical section.
- The policy probe's own requests, runtime log recording and telemetry publishing in the executor are single moves without counters of their own.
- StagedRun.RunStages: the order by device id in which results are returned is an arbitrary permutation; endpoints, brand names and event logs are not modelled.
- Publish.ActivationsOfOneVersionAgree: assumes that SHA-256 has no collisions among the files involved, that entity tags identify contents, and that the pointer written for a version reads back as that version; CORS rules and console output are left out.
- RefWalker.Walker.Walk: Python's recursion limit is not modelled; URL splitting, unquoting, path joining and `int()` are arbitrary functions, and a file that does not parse is missing.
- Redaction, HTML and Markdown reports, host metadata and the format checks on scenario fields other than the id: one boolean stands for the latter.
- ClientCa.Directory.WritePrivate: the temporary file, its sync and the rename are not modelled; a replacement happens as a whole or not at all.
- ClientCa.RunKeeps: operations do not overlap (`ClientCa.RevocationsSafeExactly` and `ClientCa.BothKeptExactly` say that this is needed); expiry times, X.509 contents and publication to a cluster are not modelled; files are not removed by others.
- Validation.Run: preflight checks other than the configured commands are replies of the surroundings.
- PollerBackoff.Poller.Refresh: the dashboard's last-success and next-refresh times, the caches (the completed-job cache is keyed by run id alone), ETags and page handling are not modelled.
- SchemaDiff.Compare: changes are a map, not a sorted list; values are compared as canonical text, and a null value is not distinguished from an absent one by the source but cannot occur here.
- Shadow.SettlesExactly: capabilities are taken trimmed and lower-cased, for all strings; numbers are exact.
- `brand_plan.go`, the factory enrolment runner, percentiles, shard assignment and the dashboard's cards: easy members beside the above.
