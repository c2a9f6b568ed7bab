# Verified model of agent-client-protocol-go

A Dafny model of the parts of this Go library where mutable state meets a guarantee over whole runs
or over all inputs, with proofs of those guarantees.

- **Outgoing calls** (`CallQueue.dfy`, `CallResults.dfy`, `CallProgress.dfy`): many concurrent `Call`s,
  one bounded channel, one processor, a one-slot reply channel for each call, cancellation and
  `Close`, as a transition system whose executions are lists of enabled actions.
- **Connection states** (`ConnectionStates.dfy`, `ConnectionRaces.dfy`): the transition table and its
  callbacks, serially as a class and, for racing transitions, split into check, swap, copy of the
  registry and each callback.
- **Stream broadcast** (`Broadcasts.dfy`, `BroadcastRaces.dfy`): bounded buffers that drop messages,
  one operation at a time as classes, and split at the atomic actions.
- **Discriminated unions** (`Json.dfy`, `ContentBlocks.dfy`, `SessionUpdates.dfy`,
  `ToolCallContents.dfy`): encoding to and decoding from abstract JSON, into values used before.
- **Versions** (`Decimals.dfy`, `Versions.dfy`): printing, parsing, order and negotiation.
- **Terminals and sessions** (`Terminals.dfy`, `TerminalRaces.dfy`, `Sessions.dfy`,
  `TerminalLeaks.dfy`, `SessionRaces.dfy`, `CleanupRaces.dfy`): ownership of handles and sessions,
  serially and under interleaving.
- **Containers** (`Slices.dfy`, `Plans.dfy`): array-backed slices whose snapshots never change.
- **Code generator** (`Sorting.dfy`, `Schema.dfy`, `Filter.dfy`): output that does not depend on the
  order in which Go iterates over a map, and the line filter.

`Wrappers.dfy`, `Sequences.dfy` and `Characters.dfy` hold shared definitions.
`dafny verify dfyconfig.toml` checks the whole project.

Where a guarantee one might expect does not hold of the code, the code is modelled as it is, a lemma
shows a run in which it fails, and another says exactly when it holds: a call behind a stopped
processor (`CallProgress.ReturnsUnlessStranded`), racing state transitions that leave the table
(`ConnectionRaces.SwapsStayInTableIff`, `ConnectionRaces.StaysInTableIffSettled`) or reach a callback
out of order (`ConnectionRaces.AlwaysInOrderIffSwapsInTurn`), a broadcast that overlaps `Close`
(`BroadcastRaces.PanicIffBroadcastInFlight`), a pointer to a nil interface in a content block
(`ContentBlocks.RoundTrip`), the type left behind by a failed decode
(`ContentBlocks.FailedDecodeKeepsVariants`), a terminal id used twice
(`Terminals.TerminalManager.CreateTerminal`), a terminal stored while others, or its session, are
released (`TerminalLeaks.NothingIsLostIffGuarded`), and a clean-up that overlaps a removal
(`SessionRaces.DelayedRemoval`, `CleanupRaces.OneCallbackIffFair`, `CleanupRaces.CountIsExactIff`). The
comment on `IsCompatible` promises a patch comparison when the minors match; the code never reaches
it, and the model follows the code.

## Model

| member | source | states |
|---|---|---|
| `CallResults.FirstInFirstOut` | acp/connection_core.go:93-154 | Over a whole run of any interleaving, the calls enqueued are distinct and are exactly those dequeued, in order, followed by the channel's content; the channel holds at most 100, and at most one dequeued call is unfinished. |
| `CallResults.HistoriesRecordTheRun` | acp/connection_core.go:93-154 | The histories the other results use are those of the run: one entry for each enqueue and each dequeue, in order. |
| `CallResults.ResultIsForOwnRequest` | acp/connection_core.go:156-173 | A call that returns through its result branch was dequeued, got the outcome of its own request and left its reply channel empty; its error is that outcome's error, if there is one, and nil only if there is none. |
| `CallResults.ConversionDecides` | acp/connection_core.go:156-173 | Over whole runs: a result without an error, wanted by the caller, returns the error of converting it into the caller's variable, as found when the reply was taken; a result not wanted, or none, returns nil. |
| `CallResults.CallsKeepWhatTheyWant` | acp/connection_core.go:131-171 | Each call wants a result throughout exactly as it was started. |
| `CallResults.VerdictsAreTruthful` | acp/connection_core.go:148-178 | A call reports its context, or a closed connection, only if that is the case. |
| `CallResults.DeliveryNeverBlocks` | acp/connection_core.go:104-109 | Each reply channel is sent to at most once, so the processor's send is always ready, also after the caller has left. |
| `CallResults.CloseFreesEveryCaller` | acp/connection_core.go:191-202 | Over every run the signal is closed once if `Close` ran, however often, and else not; at every point after a `Close`, or after its own cancellation, each call has returned or can in one step, and it blames neither without it. |
| `CallResults.CallRecordsTheRun` | acp/connection_core.go:139-179 | A context once done stays done, and a call that has returned keeps its verdict, in every continuation. |
| `CallResults.EnqueueingHasRoomBelow100` | acp/connection_core.go:139-154 | The enqueue branch is ready exactly while fewer than 100 calls wait. |
| `CallProgress.StopsForGood` | acp/connection_core.go:93-99 | The processor stops on its context or the closed signal, only if that is on, and for good. |
| `CallProgress.WorkIsConserved` | acp/connection_core.go:93-112 | Over any run, processor steps taken plus steps remaining equal three for each call enqueued; so with nothing enqueued every processor step brings the drained queue one step closer. |
| `CallProgress.ReturnsUnlessStranded` | acp/connection_core.go:93-179 | In every reachable state a blocked caller can still return without `Close` and without its own cancellation, iff it is not left waiting behind a stopped processor on an open connection. |
| `CallProgress.SomeCallerIsStranded` | acp/connection_core.go:96-97 | Such a caller exists: the processor leaves on its own context, and a later call waits for good. |
| `ConnectionStates.ConnectionCore.OnStateChange` | acp/connection_core.go:233-235 | Registers the callback behind those registered before, and changes nothing else. |
| `ConnectionStates.ConnectionCore.CanTransitionTo` | acp/connection_core.go:240-253 | True iff the table lists the new state for the current one. |
| `ConnectionStates.ConnectionCore.SetState` | acp/connection_core.go:222-230 | Swaps the state and runs every registered callback once, in registration order, with the old and the new state. |
| `ConnectionStates.ConnectionCore.TransitionTo` | acp/connection_core.go:258-266 | Succeeds iff the table allows it; a failure changes nothing and notifies nobody. |
| `ConnectionStates.TableHasFiveEntries` | acp/connection_core.go:36-41 | The five transitions that are allowed, by name. |
| `ConnectionStates.ChangesArePath` | acp/connection_core.go:36-41 | Over any serial run the changes are a path through the transition table from Uninitialized to the current state. |
| `ConnectionStates.NeverStepsBack` | acp/connection_core.go:36-41 | No later state ranks lower, and SessionReady is never left. |
| `ConnectionStates.CallbackSeesEveryLaterChange` | acp/connection_core.go:222-235 | A callback registered once, at any point of any run, is told of precisely the changes made since, in order, each once. |
| `ConnectionRaces.RacingChangesChain` | acp/connection_core.go:222-266 | However the steps of concurrent transitions and registrations interleave, each change starts from the state the previous one ended in. |
| `ConnectionRaces.CallsFollowTheSnapshot` | acp/connection_core.go:222-230 | In every interleaving the callbacks called with a change are, in order, those its goroutine got through of its copy of the registry, and in the end precisely that copy. |
| `ConnectionRaces.CompletesInOrderIffInTurn` | acp/connection_core.go:222-230 | Every way to finish the calls under way tells a callback the changes in the order they were made, iff it heard them so far in order and no change is owed to it that a later one, told or owed, overtook. |
| `ConnectionRaces.AlwaysInOrderIffSwapsInTurn` | acp/connection_core.go:222-230 | Over whole runs: a registered callback is safe from hearing changes out of order iff no swap happens while an earlier change is still owed to it. |
| `ConnectionRaces.AlwaysInSequenceIffSwapsInTurn` | acp/connection_core.go:222-235 | Over whole runs: a callback registered once is safe from missing a change, hearing of one twice or out of order, iff no swap happens while an earlier change is owed to it. |
| `ConnectionRaces.TraceChains` | acp/connection_core.go:222-235 | In such a run it is told of every change since, but for the last while that is being told; so its trace chains. |
| `ConnectionRaces.RegistrationKeepsPace` | acp/connection_core.go:222-235 | That goes from its registration on, also when the last change has not read the registry yet, which then counts among those it is told. |
| `ConnectionRaces.SomeTraceDoesNotChain` | acp/connection_core.go:222-230 | Otherwise its trace need not chain, even when every change is in the table and told. |
| `ConnectionRaces.SwapsStayInTableIff` | acp/connection_core.go:258-266 | Whatever requests are pending, every order of their swaps stays in the transition table iff the current state allows each of them and there is at most one or all are for SessionReady. |
| `ConnectionRaces.StaysInTableIffSettled` | acp/connection_core.go:258-266 | With further requests at any time, every continuation stays in the table iff the state is past Initialized and all pending requests are for SessionReady. |
| `ConnectionRaces.SomeRaceLeavesTable` | acp/connection_core.go:258-266 | On a fresh connection, two goroutines that both initialize it leave the table. |
| `ConnectionRaces.SomeStaleRequestLeavesTable` | acp/connection_core.go:258-266 | A single stale request does, too: SessionReady back to Authenticated. |
| `Broadcasts.ReceivedAndBufferedIsKept` | acp/stream.go:198-206 | Messages received followed by messages buffered are exactly the arrivals minus those that met a buffer of 64. |
| `Broadcasts.KeptInOrder` | acp/stream.go:198-206 | What a receiver keeps is in broadcast order. |
| `Sequences.SubsequenceIff` | acp/stream.go:198-206 | In order: what is kept is found in what was broadcast from left to right. |
| `Broadcasts.First64AreKept` | acp/stream.go:177-206 | The first min(n, 64) of n messages are never lost, whatever the receiver does. |
| `Broadcasts.ReceiversAreIndependent` | acp/stream.go:168-207 | In every run a receiver's state is a function of the broadcasts since its subscription and its own takes: other receivers' speed does not matter. |
| `Broadcasts.ReceiverGetsWhatItKept` | acp/stream.go:124-207 | In every run each receiver has got, and holds, exactly what was broadcast since its subscription minus what met its own full buffer. |
| `Broadcasts.StreamBroadcast.Subscribe` | acp/stream.go:168-181 | A new empty buffer is added behind the others; on a closed stream the receiver is born closed. |
| `Broadcasts.StreamBroadcast.Broadcast` | acp/stream.go:186-207 | Every receiver's buffer gets the message if it has room; nothing blocks, and a closed stream changes nothing. |
| `Broadcasts.StreamBroadcast.Close` | acp/stream.go:210-226 | Closes `done` and each channel once, keeps what is buffered, and does nothing the second time. |
| `Broadcasts.StreamBroadcast.Recv` | acp/stream.go:124-136 | Takes the oldest buffered message, or reports the stream closed or the context done only if they are; blocks iff nothing is ready. |
| `BroadcastRaces.ClosedOnceAndWoken` | acp/stream.go:210-226 | In every interleaving of the atomic actions each channel is closed at most once, and `done`, on which every receiver waits too, exactly once from the moment `Close` is past that. |
| `BroadcastRaces.SomeReceiverChannelIsNeverClosed` | acp/stream.go:168-226 | A subscription that races with `Close` can end with a channel nobody closes, so `done` is what frees its receiver. |
| `BroadcastRaces.LateSubscriberGetsClosedChannel` | acp/stream.go:168-173 | A subscription that finds the stream closed gets a new channel that is closed already, in every reachable state. |
| `BroadcastRaces.BroadcastNeverBlocks` | acp/stream.go:186-207 | Whatever the state, a broadcast gets to its end by its own steps alone, one send for each channel. |
| `BroadcastRaces.CloseWithoutBroadcastsIsSafe` | acp/stream.go:186-226 | If no broadcast is past its check when `Close` starts, no send ever meets a closed channel. |
| `BroadcastRaces.PanicIffBroadcastInFlight` | acp/stream.go:186-226 | In every reachable state, however far `Close` is, the operations in progress and a `Close` can be scheduled into a send on a closed channel iff some broadcast past its check has, or can still pick up, a channel that is closed or going to be. |
| `BroadcastRaces.EndangeredWhileOpen` | acp/stream.go:186-226 | While nobody has closed the stream, that is any channel: one ahead of a broadcast, in the list, or of a subscription under way. |
| `BroadcastRaces.EndangeredWhenClosed` | acp/stream.go:213-226 | Once `Close` is done the list holds no closed channel; only a broadcast with a closed channel from an earlier snapshot is endangered. |
| `BroadcastRaces.LateSnapshotIsSafe` | acp/stream.go:191-226 | A broadcast that takes its snapshot after `Close` is done has only open channels to send to. |
| `BroadcastRaces.PanicIffOpenOrInFlight` | acp/stream.go:186-226 | Over all continuations, new operations included, a panic can come iff nobody has begun to close the stream or a broadcast is in that danger. |
| `Json.GetOfPack` | acp/api/unions_generated.go:94-102 | Flattening a variant beside its discriminator loses no field, because no two keys are equal. |
| `ContentBlocks.AudioIsWritten` | acp/api/unions_generated.go:90-102 | What an audio block says under each literal key, `"type"` and omitted fields included, and no other key. |
| `ContentBlocks.ImageIsWritten` | acp/api/unions_generated.go:103-115 | The same for an image. |
| `ContentBlocks.ResourceIsWritten` | acp/api/unions_generated.go:116-128 | The same for an embedded resource: null and the nil pointer differ. |
| `ContentBlocks.ResourceLinkIsWritten` | acp/api/unions_generated.go:129-141 | The same for a resource link. |
| `ContentBlocks.TextIsWritten` | acp/api/unions_generated.go:142-154 | The same for text. |
| `ContentBlocks.WrittenIff` | acp/api/unions_generated.go:84-158 | Encoding succeeds iff the type is one of the five and its variant is there, and with which error not. |
| `ContentBlocks.OnlyTypedObjectsAreRead` | acp/api/unions_generated.go:161-214 | Decoding succeeds only for an object whose `"type"` is one of five strings, and then shows that variant alone. |
| `ContentBlocks.OthersAreRejected` | acp/api/unions_generated.go:161-175 | Anything else is an error that leaves the value alone. |
| `ContentBlocks.AudioIsRead` | acp/api/unions_generated.go:179-184 | From which literal key each field of an audio block is read, and exactly when that is an error. |
| `ContentBlocks.ImageIsRead` | acp/api/unions_generated.go:185-190 | The same for an image. |
| `ContentBlocks.ResourceIsRead` | acp/api/unions_generated.go:191-196 | The same for an embedded resource, which is never an error. |
| `ContentBlocks.ResourceLinkIsRead` | acp/api/unions_generated.go:197-202 | The same for a resource link. |
| `ContentBlocks.TextIsRead` | acp/api/unions_generated.go:203-208 | The same for text. |
| `ContentBlocks.RoundTrip` | acp/api/unions_generated.go:84-214 | Every successful encoding decodes into a fresh value without error, and to the same type and active variant with the others absent, iff no pointer to a nil interface was encoded. |
| `ContentBlocks.DecodedValuesRoundTrip` | acp/api/unions_generated.go:84-214 | What decoding produced always encodes, and decodes to itself. |
| `ContentBlocks.DecodeOverwrites` | acp/api/unions_generated.go:161-306 | Success does not depend on the receiver's old value; after it, the getters and the encoding are those of a fresh decode. |
| `ContentBlocks.StaleVariantsSurvive` | acp/api/unions_generated.go:161-214 | Old variants of other types are never cleared: the value itself is a fresh one iff there were none. |
| `ContentBlocks.FailedDecodeKeepsVariants` | acp/api/unions_generated.go:161-214 | A failed decode changes no variant; it leaves the value untouched iff the discriminator was rejected or names the type already there. |
| `ContentBlocks.ContentBlockReceiver.UnmarshalJSON` | acp/api/unions_generated.go:161-214 | The stepwise decoder computes the specified final value and error. |
| `ContentBlocks.PointerRoundTrip` | acp/api/unions_generated.go:357-369 | The same round trip for a nested content block behind a pointer, nil included. |
| `SessionUpdates.ChunksAreWritten` | acp/api/unions_generated.go:412-489 | What each of the three chunk updates says under each literal key, the nested block included. |
| `SessionUpdates.PlanIsWritten` | acp/api/unions_generated.go:438-450 | The same for a plan. |
| `SessionUpdates.ToolCallIsWritten` | acp/api/unions_generated.go:451-463 | A tool call encodes iff its kind and status are among the values of their enums, by name. |
| `SessionUpdates.ToolCallFieldsAreWritten` | acp/api/unions_generated.go:451-463 | What it then says under each of its nine keys. |
| `SessionUpdates.ToolCallUpdateIsWritten` | acp/api/unions_generated.go:464-476 | The same for a tool call update. |
| `SessionUpdates.OnlyTypedObjectsAreRead` | acp/api/unions_generated.go:485-555 | Decoding succeeds only for an object whose `"sessionUpdate"` is one of six strings, and then shows that variant alone. |
| `SessionUpdates.ChunksAreRead` | acp/api/unions_generated.go:514-549 | The content of a chunk is read from `"content"` as a block, with its error; missing or null is the nil pointer. |
| `SessionUpdates.PlanIsRead` | acp/api/unions_generated.go:526-531 | From which key a plan is read, and exactly when that is an error. |
| `SessionUpdates.ToolCallIsRead` | acp/api/unions_generated.go:532-537 | The same for a tool call, its enum values by name. |
| `SessionUpdates.ToolCallUpdateIsRead` | acp/api/unions_generated.go:538-543 | The same for a tool call update. |
| `SessionUpdates.RoundTrip` | acp/api/unions_generated.go:406-555 | The round trip for session updates, through nested content blocks, omitted empty fields and validated enums, with the same exact condition. |
| `SessionUpdates.DecodedValuesRoundTrip` | acp/api/unions_generated.go:406-555 | What decoding produced always encodes, and decodes to itself. |
| `SessionUpdates.CallKeysAreDistinct` | acp/api/unions_generated.go:377-398 | No field of a tool call has the key of the discriminator or of another field. |
| `SessionUpdates.DecodeOverwrites` | acp/api/unions_generated.go:485-555 | Success does not depend on the old value; after it, getters and encoding are those of a fresh decode. |
| `SessionUpdates.FailedDecodeKeepsVariants` | acp/api/unions_generated.go:485-555 | A failed decode changes no variant, and the type exactly as for content blocks. |
| `SessionUpdates.SessionUpdateReceiver.UnmarshalJSON` | acp/api/unions_generated.go:485-555 | The stepwise decoder computes the specified final value and error. |
| `ToolCallContents.ContentIsWritten` | acp/api/unions_generated.go:739-751 | What tool call content says under each literal key, the nested block and its error included. |
| `ToolCallContents.DiffIsWritten` | acp/api/unions_generated.go:752-764 | The same for a diff. |
| `ToolCallContents.TerminalIsWritten` | acp/api/unions_generated.go:765-777 | The same for a terminal. |
| `ToolCallContents.OnlyTypedObjectsAreRead` | acp/api/unions_generated.go:784-825 | Decoding succeeds only for an object whose `"type"` is one of three strings, and then shows that variant alone. |
| `ToolCallContents.ContentIsRead` | acp/api/unions_generated.go:802-807 | The content is read from `"content"` as a block, with its error; missing or null is the nil pointer. |
| `ToolCallContents.DiffIsRead` | acp/api/unions_generated.go:808-813 | From which key each field of a diff is read, and exactly when that is an error. |
| `ToolCallContents.TerminalIsRead` | acp/api/unions_generated.go:814-819 | The same for a terminal. |
| `ToolCallContents.RoundTrip` | acp/api/unions_generated.go:733-825 | The round trip for tool call contents, through the nested content block, with the same exact condition. |
| `ToolCallContents.DecodedValuesRoundTrip` | acp/api/unions_generated.go:733-825 | What decoding produced always encodes, and decodes to itself. |
| `ToolCallContents.DecodeOverwrites` | acp/api/unions_generated.go:784-825 | Success does not depend on the old value; after it, getters and encoding are those of a fresh decode. |
| `ToolCallContents.FailedDecodeKeepsVariants` | acp/api/unions_generated.go:784-825 | A failed decode changes no variant, and the type exactly as for content blocks. |
| `ToolCallContents.ToolCallContentReceiver.UnmarshalJSON` | acp/api/unions_generated.go:784-825 | The stepwise decoder computes the specified final value and error. |
| `Decimals.AtoiOfItoa` | acp/version.go:100-108 | Parsing undoes printing on every 64-bit integer, the smallest included; what is printed has no dot. |
| `Decimals.ItoaIsCanonical` | acp/version.go:100-108 | What is printed: a minus sign if negative, then the decimal digits without leading zeros. |
| `Decimals.AtoiIff` | acp/version.go:46-48 | Exactly the strings that are a number: an optional sign of either kind, digits, a value in range. |
| `Decimals.JoinOfSplit` | acp/version.go:44 | Splitting at dots loses nothing and leaves no dot in a part. |
| `Versions.NumbersAreMajors` | acp/version.go:33-39 | Integers and floats are majors; nothing but numbers and strings is a version. |
| `Versions.StringsAreReadInParts` | acp/version.go:40-97 | Of a string the first three parts are read up to the first that is no number; the rest is zero. |
| `Versions.PartsOfToString` | acp/version.go:100-108 | How many parts are printed: trailing zeros are left out. |
| `Versions.ParseOfToString` | acp/version.go:42-108 | `ParseVersion(v.String())` is `v` for every triple of machine integers, negatives and zeros included. |
| `Versions.ToStringIsInjective` | acp/version.go:100-108 | Different versions print differently. |
| `Versions.ParsePrintParse` | acp/version.go:42-97 | Every string parses, and printing and parsing the result changes nothing. |
| `Versions.CompareSaysNewer` | acp/version.go:144-167 | 1, -1 or 0 as the first version is newer, older or neither, major before minor before patch. |
| `Versions.CompareIsTotalOrder` | acp/version.go:144-167 | The comparison is antisymmetric and transitive, and zero exactly for equal versions. |
| `Versions.CompatibilityIgnoresPatch` | acp/version.go:115-136 | Compatible means equal major and no smaller minor; the patch never decides. |
| `Versions.NegotiationIsDetermined` | acp/version.go:222-254 | The requirement on a negotiation determines its result, so the order of the supported list cannot matter. |
| `Versions.VersionNegotiator.constructor` | acp/version.go:192-203 | Starts with versions 1 and 0 supported, 1 preferred, none current. |
| `Versions.VersionNegotiator.AddSupported` | acp/version.go:206-214 | Adds the version unless it is there; the list stays pairwise distinct. |
| `Versions.VersionNegotiator.Negotiate` | acp/version.go:222-254 | Succeeds iff some supported version has the same major and at least the minor; returns the exact version if supported, otherwise the one with the largest minor and, among those, the largest patch; failure leaves `current` alone, success makes it a supported version. |
| `Terminals.TerminalHandle.Release` | acp/terminal.go:65-77 | Sends one request and returns its error the first time, does nothing afterwards. |
| `Terminals.TerminalManager.CreateTerminal` | acp/terminal.go:126-143 | Stores a new handle under its own id and the manager's session; nothing leaks iff the id was not held by an unreleased terminal; errors change nothing. |
| `Terminals.TerminalManager.ReleaseTerminal` | acp/terminal.go:161-168 | Removes and releases exactly the named terminal; an unknown id is an error that changes nothing. |
| `Terminals.TerminalManager.ReleaseAll` | acp/terminal.go:173-192 | Empties the map, releases every handle also after failures, one request for each unreleased one; fails iff one of those fails, with their number and one of their errors, in any iteration order. |
| `Terminals.ErrorsInAnyOrder` | acp/terminal.go:181-190 | The number of errors collected does not depend on the order of the handles. |
| `Terminals.RequestsInAnyOrder` | acp/terminal.go:173-186 | The set of requests sent does not depend on the order of the handles, and has no duplicates. |
| `Terminals.SessionTerminalManager.GetManager` | acp/terminal.go:232-236 | Returns the session's manager, making one only if there is none. |
| `Terminals.SessionTerminalManager.ReleaseSession` | acp/terminal.go:239-245 | Removes the session and releases all its terminals, each unreleased one with one request, with that manager's error; the terminals of other sessions are untouched. |
| `Terminals.SessionTerminalManager.ReleaseAll` | acp/terminal.go:248-267 | Empties everything and releases every handle of every session, each unreleased one with one request; the error counts exactly the sessions with a failing release. |
| `TerminalRaces.OneRequestPerHandle` | acp/terminal.go:65-192 | In every interleaving the released flag never reverts, exactly one request is sent or on its way for a released handle and none for another, and stored handles carry their id and session. |
| `TerminalRaces.ReleasesAreConserved` | acp/terminal.go:65-192 | Every release begun, by whomever, is still to come or has done its compare-and-swap. |
| `TerminalLeaks.NothingIsLostIffGuarded` | acp/terminal.go:126-192 | Over any interleaving, session-level operations included, every handle made is at every moment about to be stored, in a manager that can be found, or released or certain to be, iff each `Store` goes to such a manager over nothing still to be released, and no `Clear`, of a manager or of the managers, drops what nobody will release. |
| `TerminalLeaks.StepKeepsAccountedIff` | acp/terminal.go:126-267 | The same for each single step. |
| `TerminalLeaks.CarefulRunsDoNotLeak` | acp/terminal.go:126-267 | A discipline that suffices without looking at what others have seen: store over no unreleased terminal, not during a `ReleaseAll` of that manager, and make no manager during a session-level one. |
| `TerminalLeaks.OverwritingSeenLosesNothing` | acp/terminal.go:173-186 | A run that overwrites an unreleased terminal and loses nothing, because a `ReleaseAll` has seen it. |
| `TerminalLeaks.SomeRaceLeaks` | acp/terminal.go:174-179 | An unguarded run that loses one: stored between `GetAll` and `Clear`. |
| `TerminalLeaks.SomeSessionReleaseLeaks` | acp/terminal.go:126-245 | Another: created while its session is released. |
| `TerminalLeaks.SomeReleaseOfAllLeaks` | acp/terminal.go:126-267 | The same while all sessions are released. |
| `Slices.RemovesOne` | util/sync.go:223-233 | What removing does to a sequence: one element goes, the others keep their order, and a bad index does nothing. |
| `Slices.SyncSlice.Append` | util/sync.go:171-176 | The contents grow by the value at the end, with or without reallocation. |
| `Slices.SyncSlice.Remove` | util/sync.go:223-233 | Shifting in place removes exactly the element at a valid index. |
| `Slices.SyncSlice.GetAll` | util/sync.go:192-203 | A fresh copy of the contents, nil iff there are none. |
| `Slices.SyncSlice.Clear` | util/sync.go:206-211 | The contents become empty, the array is kept. |
| `Slices.Run` | util/sync.go:171-290 | Over any list of operations the buffer holds what a plain sequence would, and every snapshot taken on the way still holds what it held when taken. |
| `Plans.PlanBuilder.AddEntries` | acp/plan.go:53-58 | Appends one pending entry for each content, in order. |
| `Plans.PlanBuilder.Build` | acp/plan.go:61-69 | A plan with a fresh copy of the entries. |
| `Plans.UpdatePlanEntry` | acp/plan.go:85-95 | Changes the status of one entry in place; an index out of range is an error that changes nothing. |
| `Plans.CreatePrioritizedPlan` | acp/plan.go:357-363 | The plan is the high, then the medium, then the low tasks, all pending. |
| `Plans.Run` | acp/plan.go:27-95 | Over any list of builds, additions, resets and updates of any plan built so far, builder and plans hold what they would if none shared its entries with another. |
| `Plans.PlansAreIndependent` | acp/plan.go:27-95 | Such a plan changes by its own updates and nothing else, and the builder by none of them. |
| `Sessions.SessionManager.CreateSession` | acp/session.go:125-140 | Succeeds iff the id is free, stores a pending session and schedules the create callback once. |
| `Sessions.SessionManager.UpdateSession` | acp/session.go:148-162 | Sets status and activity of exactly the named session and schedules the update callback once. |
| `Sessions.SessionManager.DeleteSession` | acp/session.go:165-177 | Succeeds iff the id is there, removes it and schedules the delete callback once. |
| `Sessions.SessionManager.CleanupInactiveSessions` | acp/session.go:264-295 | Removes exactly the sessions idle longer than the limit, returns the drop in count, schedules the delete callback once for each of them and nothing else. |
| `SessionRaces.CreationsAndRemovalsAlternate` | acp/session.go:125-177 | In every interleaving the successful creations and removals of an id strictly alternate, and a lookup finds the object created last while it is not removed. |
| `SessionRaces.DelayedRemoval` | acp/session.go:273-284 | The clean-up's removal hits the session it decided on iff no removal of that id succeeded in between. |
| `SessionRaces.CleanupCanRemoveNewSession` | acp/session.go:273-284 | Otherwise it can remove a session created since. |
| `CleanupRaces.OneCallbackIffFair` | acp/session.go:165-177 | Over any interleaving, every session that leaves the map gets its delete callback once, and no other more than one, iff no deletion or second clean-up takes a session that a clean-up has picked and not removed, and no such removal hits a newer session nobody picked. |
| `CleanupRaces.CountIsExactIff` | acp/session.go:279-294 | Clean-ups never report too few, and report what they took out of the map iff no removal came too late for its id. |
| `CleanupRaces.SomeSessionIsCalledTwice` | acp/session.go:279-292 | A deletion in between schedules the callback twice and leaves the count one too high. |
| `Sorting.BeforeIsLexicographic` | cmd/generate/internal/parser.go:137-148 | The order of names: a proper prefix first, else the smaller character at the first difference. |
| `Sorting.SortedPermutationIsUnique` | cmd/generate/internal/parser.go:137-148 | With distinct keys any sort gives the same result from any order of the input. |
| `Schema.EnumIff` | cmd/generate/internal/parser.go:91-107 | Which definitions are enums, key by key: a non-empty list under `oneOf` of objects with a `const` and the type string. |
| `Schema.ValuesOneByOne` | cmd/generate/internal/parser.go:114-134 | Each variant whose `const` is a string gives one value, in order. |
| `Schema.TrimSpaceIs` | cmd/generate/internal/parser.go:334-339 | Descriptions lose the white space at both ends, all of it, and nothing else. |
| `Schema.FindEnums` | cmd/generate/internal/parser.go:87-151 | Exactly the definitions that qualify, in order of name, each with a sorted permutation of its string constants. |
| `Schema.EnumsAreDetermined` | cmd/generate/internal/parser.go:87-151 | That result is the same for every iteration order of the definitions, whatever the library does with equal constants. |
| `Schema.EnumsAreDeterminedByAnySort` | cmd/generate/internal/parser.go:137-140 | With distinct constants in each enum, it is the same for any sorting function. |
| `Schema.SortProperties` | cmd/generate/internal/parser.go:219-231 | The properties in order of name, whatever the iteration order. |
| `Schema.SeparatorDivides` | cmd/generate/internal/parser.go:342-345 | The parts of a name are divided at separators; with `Schema.FieldsOfStretch` this determines them. |
| `Schema.ToCamelCase` | cmd/generate/internal/parser.go:342-354 | The capitalized parts, joined. |
| `Schema.DiscriminatorIs` | cmd/generate/internal/parser.go:293-331 | Which definitions are unions, and their discriminator: the first of `type`, `sessionUpdate` and `kind` for which every variant has a constant. |
| `Schema.VariantsOneByOne` | cmd/generate/internal/parser.go:185-242 | Each variant whose constant is a string gives one union variant, in order, with its name, value, description, properties and required fields. |
| `Schema.FindUnions` | cmd/generate/internal/parser.go:156-258 | Exactly the definitions with a discriminator, in order of name, each with a sorted permutation of its named variants. |
| `Schema.UnionsAreDetermined` | cmd/generate/internal/parser.go:156-258 | That result is the same for every iteration order of definitions and properties. |
| `Schema.UnionsAreDeterminedByAnySort` | cmd/generate/internal/parser.go:245-248 | With distinct discriminator values in each union, it is the same for any sorting function. |
| `Filter.DeclaredWordIff` | cmd/generate/cmd/filter.go:56-66 | Which lines declare a type, and its name: `type`, spaces, the word, a space, and anything. |
| `Filter.WithoutNumberIff` | cmd/generate/cmd/filter.go:66-68 | A trailing underscore and number is removed once, and nothing else. |
| `Filter.ContainsIff` | cmd/generate/cmd/filter.go:93 | What it means for a line to mention a type. |
| `Filter.DoFilter` | cmd/generate/cmd/filter.go:58-103 | A line is kept exactly when it is not in the region of a conflicting type, stated over positions in the file. |
| `Filter.FateOfLine` | cmd/generate/cmd/filter.go:61-103 | Line by line: a declaration is dropped iff its type conflicts; another line iff it is in an open region and does not begin with `type ` without naming that type. |
| `Filter.KeptIsCleanSubsequence` | cmd/generate/cmd/filter.go:58-103 | The output is a subsequence of the input without any declaration of a conflicting type. |
| `Filter.NineTypesAreDropped` | cmd/generate/cmd/filter.go:30-89 | With the types listed there, a line that declares a type is dropped iff the type, without its number, is one of the nine. |
| `Filter.FilterIsIdempotent` | cmd/generate/cmd/filter.go:58-103 | Filtering twice is filtering once; a file is unchanged iff it declares no conflicting type. |
| `Filter.NoDuplicateSurvives` | cmd/generate/cmd/filter.go:30-103 | With the types listed there, no line of the output declares one of them, with a number or without, however it is spaced. |

## Left out

- The jsonrpc2 library, dialers, transports and request ids: a call's outcome is an arbitrary value and error.
- The nil-connection checks of `ConnectionCore`, and `Notify` and `Wait`, which only forward.
- Goroutines as code: calls, the processor loop, subscribers, broadcasters and release loops under concurrency are transition systems over their atomic steps, not methods with loops; scheduling fairness and real time are not modelled, and timeouts are arbitrary outcomes.
- Sessions.SessionManager.CleanupInactiveSessions: times are unbounded integers, so the saturation of Go durations is not modelled.
- Byte-level JSON, string escapes, duplicate and case-insensitive keys, number formats: objects are finite maps; untyped fields hold JSON values; nil and empty slices are not told apart; error texts are reduced to their kind, and of several wrong fields of a tool call which one is reported is not specified.
- Aliasing between union values that share a variant pointer, and between `current` of the negotiator and the supported list: both are values here, and nothing writes through those pointers.
- Conversion of floats outside the integer range in `ParseVersion`, which Go leaves to the platform: a float comes with its converted value.
- `AtomicValue`, and the operations of `SyncMap` that no manager uses: each is one assignment under a lock; maps are fields whose operations are atomic. Panics when comparing uncomparable values do not arise.
- The mutexes of `util/sync.go` themselves: every operation of a container is one atomic step.
- Writes by callers through slices that getters expose (`GetSupported`, `GetPlan`).
- `OnSessionCreate` and `OnSessionUpdate`, alike to `OnSessionDelete`; session metadata, status queries and listings. In `CleanupRaces` a delete callback is registered throughout.
- `CurrentOutput`, `WaitForExit` and `Kill` of a terminal handle: a flag test and a forwarded request.
- `UpdatePlanEntry` on a nil plan, search by content, `PlanWorkflow` and plan validation.
- How Go's library changes the case of a part of a name (of its first byte and of the rest), which is a parameter; reading and writing files and the scanner's line limit in the generator.
- Feature sets, error helpers, tool call and content builders, handlers, agent and client wrappers, examples: field copying and one-branch switches.
