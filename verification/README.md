# Verification models of the execution daemon and its clients

These Dafny modules model the parts of the repository that hold state over time or must survive a
round trip, and prove what they promise over every run or every input. `dafny verify dfyconfig.toml`
checks all of it.

| files | what they model |
|---|---|
| `EventLog`, `Delivery`, `DeliveryBounds`, `DeliveryLoss`, `DeliveryRuns`, `DeliveryHoles`, `DeliveryResume`, `RpcServer`, `ExecClient`, `ClientRuns` | the numbered event table, the bus, one forwarder per subscription, the connection, and the client that accepts only the next number |
| `Records`, `Services`, `ServiceLaws`, `Execd`, `Transitions` | intents and policy over the event log, and the four status machines |
| `Json`, `JsonText`, `Canonical`, `CanonicalLaws`, `CanonicalTs`, `JsonExtract`, `JsonNested`, `JsonSearch` | JSON values and their text, the two canonicalisers, and the search for the last object in prose |
| `Ndjson`, `Utf8`, `FrameCodec` | the two incremental line decoders and the frames they exchange |
| `AccountRows`, `AccountOrders`, `AccountNames`, `AccountColumns`, `AccountStream`, `AccountReads` | the account cache: rows, identities, columns, freshness and the throttle on REST reads |
| `RateLimit`, `RateClock` | the token bucket with exchange bans, and what holds of it on any clock |
| `Lots` | tiers of whole lots and rounding to steps |
| `Bars`, `BarLaws`, `BarMetrics`, `BarCausality`, `BarVerdict` | per-bar metrics and the screener's verdict |
| `BrainQueue` | the single-runner queue |
| `OrderIds` | the two client-order-id formats |
| `Wrappers`, `Powers` | an optional value and powers of ten, shared by the others |

Code that updates state in place is a class or a method with the source's loops, proved equal to a
specification function; what the source promises is proved of those functions.

## Where the code and its documentation part

The models follow the code. These places are stated as lemmas or noted beside one.

- A live event may be 501 ahead of the last one sent, not 500: the page brings 500 and the event itself follows (`DeliveryRuns.HoleBoundIsExact`).
- The server's comments speak of disconnecting a slow consumer; the forwarder awaits its full outgoing queue instead, so its bus queue overflows and the oldest event is dropped. That loses nothing while at most 4096 numbers are committed but unpublished, or while publication follows the commit order; with 4097 unpublished an event can be lost for good (`DeliveryRuns.CompleteIffBacklogFits`, `DeliveryLoss.LosingRun`).
- `canonicalJson` in TypeScript is described as sorting by code point. It sorts by UTF-16 code unit, and JavaScript objects list integer-like keys first, by number. A member named `__proto__` is lost there, since assigning it calls the prototype setter, so an object with only that member hashes as the empty object (`CanonicalTs.ProtoIsLost`). `CanonicalTs.TextsAgreeExactly` says exactly when the two sides agree.
- Order ids and client ids in one-to-one correspondence do not suffice for the order cache: an order first seen only by client id, then another row only by order id, are joined too late when an update carries both. What is needed is that sharing a name is transitive among the mentions (`AccountNames.OneToOneIsNotEnough`, `AccountNames.NoSplitIffTransitive`).
- A line of exactly the bound ending in CR LF is accepted or refused by the daemon depending on where the stream is cut (`Ndjson.CrAtTheBoundary`).
- The token bucket's bound on a window and the answer "banned" both fail when the clock goes back, and the code takes the time before it takes the lock (`RateLimit.BackwardClockOverspends`, `RateLimit.BackwardClockForgetsTheBan`). `RateClock.WithinIffForward` and `RateClock.AnswersExactly` say on which readings each holds.
- The contract places a take-profit percentage in (0, 100] (packages/contracts/schema/intent.json:152). The checks hold an opening to that and a protection to nothing (`Records.ProtectIsUnchecked`, `Records.PercentsInRangeExactly`).
- The search for the last object looks at 40 braces of each kind at most; beyond that it can miss one (`JsonSearch.FindsIffFewBraces`).
- The regime cache is keyed by the daily bar although the classifier is also given the time; `BarVerdict.CacheIsInvisible` shows that this makes no difference on daily bars in order.
- A capacity below 1 makes the limiter's `clamp` panic, so `RateLimit` asks for at least 1.

## Model

| member | source | states |
|---|---|---|
| `EventLog.EventsSinceIsSlice` | crates/execd/src/store.rs:100-110 | On rows numbered 1, 2, 3, … the query "number above since, first limit rows" is exactly the slice right after since, for every since and limit, past the end included |
| `EventLog.SliceExtends` | crates/execd/src/store.rs:100-110 | Appending rows never changes a slice that was already complete |
| `DeliveryRuns.ClientDeliversTheLog` | packages/gateway/src/exec-client.ts:181-195 | In every run, through lost connections, in-flight loss, several forwarders, bus lag and out-of-order publication, what onEvent was given is exactly the log entries since+1, since+2, … up to the last one, each once, in order, with the logged content |
| `DeliveryRuns.ForwarderOutputIncreases` | crates/execd/src/rpc_server.rs:237-293 | In every run each forwarder sends only logged events, after its start, strictly increasing |
| `DeliveryRuns.ForwarderIsComplete` | crates/execd/src/rpc_server.rs:258-292 | In every run with at most 4096 numbers committed but unpublished at a time, published in whatever order, a live forwarder whose bus queue is drained once all is published has passed the whole log, and has sent all of it after its start exactly if no hole opened |
| `DeliveryRuns.OrderedRunsAreComplete` | crates/execd/src/events.rs:29-34 | The same for every run that publishes in commit order, whatever its backlog |
| `DeliveryRuns.CompleteIffBacklogFits` | crates/execd/src/rpc_server.rs:286-289 | That bound is exact: for every c, and for commits of any size from one entry on, all runs with at most c numbers unpublished at a time have it if and only if c is at most the 4096 a bus queue holds |
| `DeliveryRuns.GaplessIsExact` | crates/execd/src/rpc_server.rs:260-284 | In every run a forwarder has sent the whole log between its start and its last number exactly while every live round so far kept within the bound below |
| `DeliveryBounds.BacklogIsHeard` | crates/execd/src/events.rs:29-34 | In every run, while at most 4096 numbers are unpublished no drop from a full bus queue loses an event: for each queued entry the later ones numbered lower, with the unpublished numbers lower, stay below that many |
| `DeliveryLoss.LosingRun` | crates/execd/src/rpc_server.rs:286-289 | A run from a fresh client that commits one entry at a time until 4097 numbers wait and publishes the last first: it ends with all published, the queue drained, no hole and every read successful, and the last entry unsent |
| `DeliveryRuns.ClientCatchesUp` | packages/gateway/src/exec-client.ts:236-250 | Whatever connections, holes and losses came before, in every run within that bound or in commit order, once one drained forwarder of the current connection that sent the log without a hole has nothing under way the client has been given the whole log |
| `DeliveryHoles.CaughtUpExactly` | packages/gateway/src/exec-client.ts:236-250 | Under the same condition on publication, with the only forwarder of the connection drained and nothing of it under way, the client has the whole log if and only if that forwarder left no hole above the last number delivered |
| `DeliveryHoles.HoleStrandsTheClient` | packages/gateway/src/exec-client.ts:314-327 | A hole above the last number delivered, in the only forwarder of a connection, holds the client below it through every further run in which no subscribe is served |
| `DeliveryResume.ReconnectRepeatsNothing` | packages/gateway/src/exec-client.ts:236-250 | Once a connection is lost with no subscribe request left in the write queue, no frame that reaches the client from then on is one it already had, through any further connections and losses |
| `DeliveryRuns.HoleBoundIsExact` | crates/execd/src/rpc_server.rs:265-282 | One live round keeps the output gap-free if and only if the event is at most one ahead, or the page read succeeds and the event is at most 501 ahead |
| `Delivery.NextKeepsInv` | crates/execd/src/rpc_server.rs:216-294 | Each of the twelve steps (commit, publish, serve, refuse, read a page, forward, transfer, die, deliver, dial, connect, lose) keeps the invariant linking log, forwarders, frames under way and client |
| `DeliveryRuns.RunKeepsInv` | crates/execd/src/rpc_server.rs:216-294 | Every run from a state with that invariant keeps it, and the point the client subscribed from |
| `Delivery.PageIsSent` | crates/execd/src/rpc_server.rs:251-276 | On the page right after last, the history loop and the hole-filling loop both send exactly the page |
| `Delivery.CommitKeeps` | crates/execd/src/store.rs:84-98 | A commit of any number of events, numbered by the insert, keeps the invariant |
| `Delivery.HearKeeps` | crates/execd/src/events.rs:29-34 | A broadcast event, with the oldest dropped from a full queue, keeps every entry still to come unpublished or awaited |
| `Delivery.AcceptKeeps` | packages/gateway/src/exec-client.ts:314-327 | Whatever logged event arrives, what was delivered stays the slice of the log from since to the last delivered number |
| `RpcServer.ForwarderTask.ReplayPage` | crates/execd/src/rpc_server.rs:241-256 | The loop over one page of history is the specified transition: each row sent in turn, an empty page ends the replay, a failed read ends the task |
| `RpcServer.ForwarderTask.ReplayHistory` | crates/execd/src/rpc_server.rs:240-257 | Over a log that does not grow meanwhile the history loop ends, live, having sent exactly the log after its start |
| `RpcServer.ForwarderTask.ForwardOne` | crates/execd/src/rpc_server.rs:260-284 | One live event is the specified transition: skip, fill the hole, skip again, send |
| `RpcServer.ForwarderTask.FillHole` | crates/execd/src/rpc_server.rs:268-275 | The hole-filling loop sends the rows above last and only those |
| `RpcServer.ForwarderTask.Receive` | crates/execd/src/events.rs:25-34 | The bus queue takes the event, losing its oldest when full |
| `ExecClient.Client.Call` | packages/gateway/src/exec-client.ts:153-170 | A fresh id, pending until settled; the frame goes to the socket if there is one and it is writable, else to the write queue; refused after close |
| `ExecClient.Client.Subscribe` | packages/gateway/src/exec-client.ts:181-196 | One active subscription at a time, starting at since and asking the daemon from there |
| `ExecClient.Client.HandleResponse` | packages/gateway/src/exec-client.ts:292-311 | A response settles its call once; unknown, late and repeated ids change nothing |
| `ExecClient.Client.Timeout` | packages/gateway/src/exec-client.ts:163-166 | A timeout settles a pending call |
| `ExecClient.Client.HandleEvent` | packages/gateway/src/exec-client.ts:314-327 | The subscription takes the specified step: only the next number is handed over |
| `ExecClient.Client.OnConnect` | packages/gateway/src/exec-client.ts:241-249 | Backoff reset, the write queue flushed in order, then a subscribe after the last delivered number |
| `ExecClient.Client.OnClose` | packages/gateway/src/exec-client.ts:269-290 | Calls stay pending, at most one timer is armed, the backoff doubles up to its maximum |
| `ExecClient.Client.OnTimer` | packages/gateway/src/exec-client.ts:285-288 | The timer dials again and changes nothing else |
| `ExecClient.Client.Close` | packages/gateway/src/exec-client.ts:198-214 | Every pending call is rejected, nothing is left to send, the subscription is gone |
| `ClientRuns.React` | packages/gateway/src/exec-client.ts:233-290 | The class reacts to every step of the system as the system's client does: its timer, connect and close events and arriving events are the steps dial, connect, lose and deliver, and the subscribe requests it wrote or queued are those under way or waiting |
| `ClientRuns.SubscribeAndDrive` | packages/gateway/src/exec-client.ts:181-327 | The class, subscribed at since and driven through any run of the system with any other calls, answers and timeouts between, has handed over exactly the log entries since+1, since+2, … up to its last, in order |
| `Transitions.Compile` | crates/contracts-rs/src/transitions.rs:50-61 | The filled sets and map hold exactly the terminal states, the edges and, for each (from, event), the last target |
| `Transitions.CompiledEqualsScan` | crates/contracts-rs/src/transitions.rs:106-108 | On every table with one edge per (from, event), the compiled lookup and the linear scan answer alike |
| `Transitions.TablesHaveUniqueKeys` | packages/contracts/src/generated/transitions.ts:9-340 | All four generated tables have one edge per (from, event) |
| `Transitions.IntentStepIsTheTable` | packages/contracts/src/generated/transitions.ts:186-340 | The case form of the intent steps is exactly the edges of the generated table |
| `Transitions.RunsClimb` | packages/contracts/src/generated/transitions.ts:186-340 | Every intent run strictly climbs a rank, so no status recurs |
| `Transitions.RunsAreShort` | packages/contracts/src/generated/transitions.ts:186-340 | Every intent run visits at most seven statuses |
| `Transitions.TerminalIffStuck` | crates/contracts-rs/src/transitions.rs:96-103 | An intent status is terminal exactly when no edge leaves it |
| `Transitions.CompletionPath` | packages/contracts/src/generated/transitions.ts:186-340 | A run from proposed to completed passes authorized, dispatching and executing, in that order |
| `Transitions.ConsistentPairs` | crates/contracts-rs/src/transitions.rs:165-170 | In a sequence of consistent order observations any earlier and later one are consistent |
| `Transitions.SubsequenceConsistent` | crates/contracts-rs/src/transitions.rs:165-170 | Every subsequence of a consistent sequence of observations is consistent, so a missed observation raises no alarm |
| `Transitions.ReversalIsCaught` | crates/contracts-rs/src/transitions.rs:165-170 | A status seen again after a different one always breaks consistency |
| `Records.CheckTakeProfits` | crates/execd/src/intents.rs:33-95 | The loop accepts take-profits exactly when each is in (0, 100] and the total is at most 100 with its tolerance |
| `Records.AcceptedExactly` | crates/execd/src/intents.rs:33-95 | A proposal is accepted exactly when it is well made: main account and transfers for the user only, a transfer over RPC out of its own account to another place and of something, the part to close and the take-profits of an opening in (0, 100] as decimals, the latter at most 100 in all, a protection with a stop or a take-profit whatever its size, an order named, a lifetime of at most a day; it is forbidden exactly when asked by or from where only the user may, and invalid otherwise |
| `Records.PercentsInRangeExactly` | crates/execd/src/intents.rs:54-86 | An accepted proposal has all its percentages in (0, 100] exactly when it is not a protection with one out of range |
| `Records.ProtectIsUnchecked` | crates/execd/src/intents.rs:81-85 | A protection that takes profit on 500 per cent is accepted |
| `Services.RunsKeepTables` | crates/execd/src/store.rs:84-153 | After any sequence of calls log numbers are 1..n, ids and (principal, key) are unique, every stored intent is of a well made request, and every row is the fold of its own events: its trail follows table edges, ends in its status, and terminal_at is set exactly for terminal statuses, to the time of the last event |
| `Services.CallKeepsTables` | crates/execd/src/intents.rs:106-267 | Each call keeps that agreement of tables and log |
| `Services.MoveKeepsTables` | crates/execd/src/intents.rs:200-226 | Moving a row along a table edge together with its event keeps the agreement |
| `Services.RunsKeepPolicy` | crates/execd/src/app.rs:74-135 | After any sequence of calls the logged policy versions are exactly 1..current, the last halt payload equals the current halt, and no stored policy has withdraw, live_capped or zero naked seconds |
| `Services.LoadedPolicyIsLogged` | crates/execd/src/app.rs:44-46 | After any sequence of calls the policy in force is what the last policy.changed event announced, version, mode, authority, stop and time, and the default before the first |
| `Services.CallKeepsPolicy` | crates/execd/src/app.rs:74-135 | Each call keeps that agreement of policy and log |
| `Services.CallKeepsRow` | crates/execd/src/intents.rs:232-267 | No call removes a row, changes its request, or changes a terminal row |
| `Services.TerminalRowsAreFinal` | crates/execd/src/intents.rs:106-267 | Over any further run a terminal intent never changes and every row keeps its request |
| `Services.ReplayChangesNothing` | crates/execd/src/intents.rs:112-125 | Proposing again with the same key and content, at any later time and after any calls, changes nothing and answers with the first intent |
| `Services.EmergencyOnlyTightens` | crates/execd/src/policy.rs:87-106 | The emergency stop never lowers severity, fails exactly when it would, and otherwise leaves the daemon halted and logged as halted |
| `Services.OpenIntentsNeverRiseWhileHalted` | crates/execd/src/intents.rs:174-184 | While halted no call raises the number of open intents |
| `ServiceLaws.NewProposalIsStored` | crates/execd/src/intents.rs:145-184 | An accepted proposal with a new key and id becomes one row, last in the table, with the fields of the proposal, its expiry and its gates; it is rejected if and only if the policy is halted, recorded if and only if it is not, the principal is not the user and the authority is observe, and proposed, the only open one of the three, otherwise |
| `ServiceLaws.NewProposalIsLogged` | crates/execd/src/intents.rs:186-226 | The row is logged as proposed under the next number, and under the one after it as what a gate made of it; nothing else is logged |
| `ServiceLaws.UsedKeyIsAnswered` | crates/execd/src/intents.rs:112-143 | A key the principal has used is answered with its row if account, surface and parameters are the same; otherwise it is a conflict, no row changes, and one event names the row |
| `ServiceLaws.RejectsExactly` | crates/execd/src/intents.rs:232-267 | On tables in order a stored intent is rejected exactly when it is proposed, awaiting approval, authorized or dispatching; only its row changes, and one event says who asked. Any other is an invalid transition and nothing changes |
| `ServiceLaws.PolicySetExactly` | crates/execd/src/policy.rs:43-85 | policy.set succeeds if and only if the confirmation names the new mode and authority, the version is the next and v1 may hold the policy, a conflict being exactly the first two; the policy asked for is then in force and announced, and a halt event follows exactly when it halts or resumes; a refusal changes nothing |
| `ServiceLaws.EmergencyExactly` | crates/execd/src/policy.rs:87-106 | The emergency stop is refused exactly for stop_opening under flatten_only or halt_all and flatten_only under halt_all; otherwise the mode asked for is in force and the halt, then the policy, is logged |
| `ServiceLaws.EmergencyKeepsTheRest` | crates/execd/src/policy.rs:100-105 | Authority, limits and intents stay as they were; version, time and stop flag move |
| `ServiceLaws.ObserveKeepsAgentsOut` | crates/execd/src/intents.rs:182-184 | Over any run of calls made under observe, every intent of an agent that is open at its end was open at its start |
| `ServiceLaws.AgentsOnlyWatchAtFirst` | crates/execd/src/intents.rs:182-184 | From the empty store, for as long as no policy is set, whatever is proposed, rejected or stopped, no intent of an agent is ever open |
| `Execd.Store.TxInsertEvent` | crates/execd/src/store.rs:84-98 | The event gets the next number and is appended |
| `Execd.Store.TxInsertIntent` | crates/execd/src/store.rs:118-138 | A row is added unless its id or its (principal, key) is taken |
| `Execd.Store.TxUpdateIntent` | crates/execd/src/store.rs:140-153 | The row with the id is replaced in place |
| `Execd.Store.GetIntent` | crates/execd/src/store.rs:155-164 | The row with the id, or none |
| `Execd.Store.FindByIdempotency` | crates/execd/src/store.rs:166-180 | The row with the principal and key, or none |
| `Execd.Store.CountOpenIntents` | crates/execd/src/store.rs:220-224 | The number of rows whose status is not terminal |
| `Execd.Store.ProposeCall` | crates/execd/src/intents.rs:106-230 | The service call on the stored tables is the specified transition, replies and errors included |
| `Execd.Store.AdmitCall` | crates/execd/src/intents.rs:145-230 | Insert, created event, gate verdict and its event, in one transaction |
| `Execd.Store.RejectCall` | crates/execd/src/intents.rs:232-267 | Reject on the stored tables is the specified transition |
| `Execd.Store.PolicySetCall` | crates/execd/src/app.rs:74-110 | policy.set on the stored tables is the specified transition |
| `Execd.Store.EmergencyStopMethod` | crates/execd/src/app.rs:112-135 | emergency_stop on the stored tables is the specified transition |
| `Json.ReadUndoesPrint` | crates/contracts-rs/src/canonical.rs:58-60 | Reading the compact text of a value (sections 4 to 7 of RFC 8259), followed by anything a value may be followed by, gives the value and the rest |
| `Json.PrintIsInjective` | crates/contracts-rs/src/canonical.rs:58-60 | The compact text of a value determines the value |
| `JsonText.EscapesExactly` | packages/contracts/src/canonical.ts:54-56 | A character that needs no escape stands for itself, the seven with a short escape take two characters, and the other control characters take six with lower-case digits |
| `JsonText.EscapeIsShortest` | crates/contracts-rs/src/canonical.rs:58-60 | No text that reads as a string is shorter than its escaped text with the closing quote, and one as short with lower-case escapes is that text |
| `JsonText.PrintIsShortest` | crates/contracts-rs/src/canonical.rs:58-60 | No text that reads as a value is shorter than its printed text, at any depth |
| `Json.PrintHasNoControl` | crates/contracts-rs/src/rpc.rs:300-308 | A printed value holds no control character, so it fits on one line |
| `Canonical.Walker.Walk` | crates/contracts-rs/src/canonical.rs:23-56 | The recursive walk with its shared path gives the canonical value and restores the path, or fails with the path to the first float |
| `Canonical.Walker.WalkMembers` | crates/contracts-rs/src/canonical.rs:26-38 | The loop filling an ordered map drops null members and keeps the rest canonical and ordered by key |
| `Canonical.Walker.WalkItems` | crates/contracts-rs/src/canonical.rs:39-46 | The loop over an array keeps every element, null included |
| `Canonical.CanonIdempotent` | crates/contracts-rs/src/canonical.rs:23-56 | Canonicalising twice is canonicalising once, for every total order of keys |
| `Canonical.CanonIsCanonical` | crates/contracts-rs/src/canonical.rs:22-56 | At every depth the members are ordered and none is null |
| `Canonical.FailsExactlyOnFloats` | crates/contracts-rs/src/canonical.rs:48-50 | Canonicalisation fails exactly when a float occurs anywhere, and the reported path leads to one |
| `CanonicalLaws.ReportedIsFirst` | crates/contracts-rs/src/canonical.rs:24-50 | Of all paths that lead to a float the reported one is the first in the order of the walk |
| `Canonical.CanonicalTextDetermines` | crates/contracts-rs/src/canonical.rs:72-76 | Reading the canonical text gives the canonical value back, and two values have one text exactly when they are equal up to member order and null members at every depth |
| `Canonical.AccountVersionDetermines` | crates/contracts-rs/src/canonical.rs:80-98 | Account versions have one text exactly when all four components are equal up to order and nulls |
| `CanonicalLaws.AccountVersionReadsBack` | crates/contracts-rs/src/canonical.rs:80-98 | The text of an account version reads back as an object of the four components under balances, positions, open_orders and position_mode, each canonical and absent if null, and of nothing else |
| `Canonical.RustOrderIsTotal` | crates/contracts-rs/src/canonical.rs:26-38 | Code-point order of keys is a strict total order |
| `CanonicalTs.Normalizer.Normalize` | packages/contracts/src/canonical.ts:16-42 | The recursive normaliser gives the canonical value in JavaScript enumeration order, without members named __proto__ at any depth, or fails exactly on a float, inside such a member too |
| `CanonicalTs.Normalizer.CanonicalText` | packages/contracts/src/canonical.ts:54-56 | The text of what the normaliser leaves, or a throw |
| `CanonicalTs.Normalizer.NormalizeObject` | packages/contracts/src/canonical.ts:32-40 | Assigning the sorted keys one by one gives the members in enumeration order; the assignment to __proto__ calls the prototype setter and leaves no member |
| `CanonicalTs.SortedKeys` | packages/contracts/src/canonical.ts:35-35 | The keys in order of UTF-16 code units, each once |
| `CanonicalTs.TsOrderIsTotal` | packages/contracts/src/canonical.ts:32-40 | Enumeration order (integer-like keys by number, then UTF-16 order) is a strict total order |
| `CanonicalTs.TextsAgreeExactly` | packages/contracts/src/canonical.ts:44-55 | For every value the Rust and TypeScript sides agree if and only if both fail on a float, or no object at any depth keeps a member named __proto__ and none holds two kept keys that the two languages order differently |
| `CanonicalTs.TsTextDetermines` | packages/contracts/src/canonical.ts:44-55 | Two values have one TypeScript text exactly when they are equal up to member order, null members and members named __proto__ at every depth |
| `CanonicalTs.NoProtoTextDetermines` | packages/contracts/src/canonical.ts:44-55 | Where no member is lost the TypeScript text determines the value up to order and nulls, as the Rust text does |
| `CanonicalTs.ProtoIsLost` | packages/contracts/src/canonical.ts:33-37 | The object holding only a member __proto__ has the TypeScript text of the empty object, and the Rust side agrees only when its value is null |
| `CanonicalTs.PlainKeysAgree` | packages/contracts/src/canonical.ts:44-55 | The sides agree on every value whose kept keys at every depth are plain: not integer-like, not __proto__, and without a character beyond U+FFFF |
| `CanonicalTs.IndexKeysDiffer` | packages/contracts/src/canonical.ts:35-38 | They differ on the keys 9 and 10 |
| `CanonicalTs.AstralKeysDiffer` | packages/contracts/src/canonical.ts:35-38 | They differ on the keys U+1F600 and U+FFFD |
| `JsonExtract.LastJsonObject` | packages/gateway/src/demo/execution-agent.ts:99-153 | The index loop, then the bounded search over braces, return what the two-pass definition says, for every parser and text |
| `JsonExtract.BruteForce` | packages/gateway/src/demo/execution-agent.ts:136-152 | Closing braces from last to first, opening braces from first to last, at most 40 of each |
| `JsonExtract.TryOpens` | packages/gateway/src/demo/execution-agent.ts:146-150 | The first opening brace before the closing one from which the text parses as an object |
| `JsonExtract.LastTopLevelObjectWins` | packages/gateway/src/demo/execution-agent.ts:99-135 | For every sequence of printed objects and of prose without quotes and opening braces, whatever their strings hold and however they nest, and every parser: the result is the last top-level object that the parser accepts, as it reads it, never a nested one, and nothing when there is no object |
| `JsonNested.LastBracedObjectWins` | packages/gateway/src/demo/execution-agent.ts:108-135 | For every text of prose, quotations and braced stretches, with any layout, any quotations in them and any braces in those, and every parser: the first pass finds the last outermost braced stretch that the parser reads as an object and nothing if it reads none, and what it finds is the result |
| `JsonExtract.LastObjectComesBack` | packages/gateway/src/demo/execution-agent.ts:99-135 | If the parser reads the text of the last object back, the result is exactly that object |
| `JsonExtract.OnlyWhatOccursIsReturned` | packages/gateway/src/demo/execution-agent.ts:99-153 | On any text and with any parser, what is returned is the parse of a part of the text that runs from an opening to a closing brace |
| `JsonSearch.FewBracesAreSearched` | packages/gateway/src/demo/execution-agent.ts:136-152 | With at most 40 opening and 40 closing braces something is returned if and only if such a part parses as an object |
| `JsonSearch.SecondPassChoosesTheLast` | packages/gateway/src/demo/execution-agent.ts:136-152 | When the first pass finds nothing, a value is the result if and only if it is the parse of a part, from one of the last 40 opening to one of the last 40 closing braces, such that no later closing brace in reach ends a part that parses as an object and no earlier opening brace in reach begins one for the same end |
| `JsonSearch.FindsIffFewBraces` | packages/gateway/src/demo/execution-agent.ts:136-152 | That limit is exact in both kinds of brace: every parser finds an object that occurs in every text with at most so many of each if and only if both numbers are at most 40 |
| `JsonExtract.StrictReaderFindsTheLast` | packages/gateway/src/demo/execution-agent.ts:101-106 | With the strict reader of compact texts as the parser the result is the last object, for all such sequences |
| `Ndjson.FrameDecoder.Push` | crates/contracts-rs/src/rpc.rs:327-337 | The chunk is appended; refused exactly when the unfinished line exceeds the bound |
| `Ndjson.FrameDecoder.NextFrame` | crates/contracts-rs/src/rpc.rs:340-356 | The first outcome of the buffered lines is taken off, blank lines skipped, and the unfinished line stays |
| `Ndjson.FrameDecoder.DrainFrames` | crates/contracts-rs/src/rpc.rs:359-365 | All frames, or the first fault with the lines after it still buffered |
| `Ndjson.HandleConnection` | crates/execd/src/rpc_server.rs:67-112 | Over any sequence of reads the connection handles exactly the outcomes of the lines of all bytes up to the first refused push, and the first refused push is the first overlong unfinished line |
| `Ndjson.ServeLines` | crates/execd/src/rpc_server.rs:79-109 | The inner loop handles every buffered line, answering and skipping the bad ones |
| `Ndjson.NdjsonDecoder.Push` | packages/contracts/src/rpc.ts:165-189 | The frames of the complete lines and the buffered tail, or a throw, as specified on the bytes buffered so far |
| `Ndjson.ReadLines` | packages/contracts/src/rpc.ts:169-184 | The loop of push: the frames of the complete lines, or the first overlong or malformed one |
| `Ndjson.YieldIsByLine` | crates/contracts-rs/src/rpc.rs:340-356 | Working off a buffer line by line is splitting at LF first |
| `Ndjson.TsCutNeverMatters` | packages/contracts/src/rpc.ts:157-190 | Every cut of a stream gives the gateway the frames and tail of the whole stream, or a throw, in the same cases |
| `Ndjson.TsAcceptsExactly` | packages/contracts/src/rpc.ts:157-190 | A stream is accepted exactly when every raw line and the tail are within the bound and every non-blank line parses |
| `Ndjson.EveryCutIsSafeIffFits` | crates/contracts-rs/src/rpc.rs:327-337 | The daemon refuses no cut of a stream if and only if every raw line, a trailing CR included, and the tail are within the bound |
| `Ndjson.RustAcceptsExactly` | crates/contracts-rs/src/rpc.rs:340-356 | No line is answered with a fault exactly when each, its CR dropped, is blank or within the bound and parses |
| `Ndjson.RustLineExactly` | crates/contracts-rs/src/rpc.rs:339-356 | A line, one CR before its LF not counted, gives nothing exactly when blank, and else a size fault with its size exactly when too long, a syntax fault exactly when it fits and does not parse, a frame exactly when it parses |
| `Ndjson.DrainStopsAtTheFirst` | crates/contracts-rs/src/rpc.rs:359-369 | Draining reports the first outcome that is no frame, and what follows it stays |
| `Ndjson.CrAtTheBoundary` | crates/contracts-rs/src/rpc.rs:327-352 | A line of exactly the bound ending in CR LF is decoded whole, refused when the LF comes late, and refused by the gateway in every cut |
| `Ndjson.SplitUndoesJoin` | crates/contracts-rs/src/rpc.rs:301-308 | Splitting at LF undoes joining encoded frames, and what follows is the tail |
| `Ndjson.EncodedFramesComeBack` | packages/contracts/src/rpc.ts:131-190 | Frames that both encoders take come back from every cut of the stream on both sides: on each side what it reads each text as, in order, nothing refused, the part of a frame buffered |
| `Utf8.DecodeUndoesEncode` | crates/contracts-rs/src/rpc.rs:300-308 | Strict UTF-8 decoding (section 3 of RFC 3629) undoes encoding |
| `FrameCodec.PrintedValuesComeBack` | packages/contracts/src/rpc.ts:131-190 | Printed JSON values in UTF-8 meet the codec laws, so they come back from every cut on both sides, each side keeping its own arrangement of the members of objects |
| `AccountRows.MergeNonEmpty` | crates/exec-core/src/account_stream.rs:402-412 | The loop over the update inserts its non-null, non-empty fields and keeps every other |
| `AccountColumns.OrderColumnsAreLastSaid` | crates/exec-core/src/account_stream.rs:349-412 | In every run, under transitive naming, each column of each order holds the last non-empty value that an update of that order gave since its row appeared, else the snapshot's; an order ends with its row |
| `AccountColumns.PositionColumnsAreLastSaid` | crates/exec-core/src/account_stream.rs:372-412 | The same of every column of every position, by symbol and side, from any snapshot that names each at most once |
| `AccountColumns.LastSaidStands` | crates/exec-core/src/account_stream.rs:402-412 | What the last value said is: that of the last update of the key that says something, if none after it ends the row; what was there before if none says anything |
| `AccountColumns.OrdersStayInOrder` | crates/exec-core/src/account_stream.rs:360-368 | In every run an order that is in the cache stands before every order that came later, until an update ends it |
| `AccountColumns.OrdersSinceSnapshot` | crates/exec-core/src/account_stream.rs:229-372 | In every run, whatever else happens, the cached orders are the last snapshot with the order updates that arrived since, in order |
| `AccountColumns.PositionsSinceSnapshot` | crates/exec-core/src/account_stream.rs:235-391 | The same of positions |
| `AccountRows.ApplyRefines` | crates/exec-core/src/account_stream.rs:360-368 | One update by matching on the list is the same update by key on a table in arrival order: removal, merge, or append |
| `AccountOrders.OrdersRefineTable` | crates/exec-core/src/account_stream.rs:349-370 | While sharing an order id or client id is transitive among all mentions, each of which has a name, the cached orders are at all times the table keyed by identity in arrival order, with terminal removal and non-empty merge, and no two rows name one order |
| `AccountNames.NamedOrdersRefineTable` | crates/exec-core/src/account_stream.rs:349-370 | The same with nameless updates among them: the named rows are that table under the named updates, and no two rows name one order |
| `AccountNames.NamelessIsAppended` | crates/exec-core/src/account_stream.rs:349-370 | An update with neither id meets no row: it becomes a row of its own, or changes nothing when it is terminal |
| `AccountNames.NoSplitIffTransitive` | crates/exec-core/src/account_stream.rs:349-370 | For all mentions, nameless ones included, no run of updates ever splits an order over two rows if and only if sharing a name is transitive among them |
| `AccountNames.OneToOneIsNotEnough` | crates/exec-core/src/account_stream.rs:354-368 | The mentions (0, x), (5, none) and (5, x) are in one-to-one correspondence, and an order seen so is split |
| `AccountOrders.JoiningSplits` | crates/exec-core/src/account_stream.rs:354-368 | When an update joins two rows that share no name, the cache holds one order twice |
| `AccountOrders.SnapshotColumnsSurvive` | crates/exec-core/src/account_stream.rs:401-412 | A column only the snapshot fills keeps its value through every update until the order ends |
| `AccountOrders.RowsByMention` | crates/exec-core/src/account_stream.rs:92-121 | What the code matches on is sharing a known name, and a merge keeps all known names |
| `AccountOrders.MergedStandsFor` | crates/exec-core/src/account_stream.rs:402-412 | Learning more names of an order does not change which order it is |
| `AccountStream.PositionsRefineTable` | crates/exec-core/src/account_stream.rs:372-391 | For every run of updates the cached positions are the table keyed by symbol and side, with flat removal and non-empty merge |
| `AccountStream.UpdateRows` | crates/exec-core/src/account_stream.rs:362-368 | Drop, merge into the first match, or append |
| `AccountStream.AccountStreamCache.HandleEvent` | crates/exec-core/src/account_stream.rs:349-398 | The event updates its rows and the event time; events of no interest and order events without an order change nothing |
| `AccountStream.AccountStreamCache.ApplyPositionUpdates` | crates/exec-core/src/account_stream.rs:374-391 | The loop applies every position of the event in order |
| `AccountStream.AccountStreamCache.BeginRestFallback` | crates/exec-core/src/account_stream.rs:272-290 | In flight within 60 s, throttled within 10 s of the last read, else permitted; only the kind asked for changes |
| `AccountStream.AccountStreamCache.FinishRestFallback` | crates/exec-core/src/account_stream.rs:292-303 | The kind is no longer in flight and its last read is now |
| `AccountStream.AccountStreamCache.InvalidateOrders` | crates/exec-core/src/account_stream.rs:255-260 | Orders become uninitialised and their throttle is lifted |
| `AccountStream.AccountStreamCache.ReplaceOrders` | crates/exec-core/src/account_stream.rs:229-233 | The snapshot replaces the rows |
| `AccountStream.AccountStreamCache.ReplacePositions` | crates/exec-core/src/account_stream.rs:235-239 | The snapshot replaces the rows |
| `AccountStream.PermitSpacing` | crates/exec-core/src/account_stream.rs:272-303 | In every run on a positive clock that never goes back, two permits of a kind are more than 60 s apart, or a read finished between them and since the last finish 10 s passed or (orders only) the cache was invalidated |
| `AccountReads.ReadAnsweredExactly` | crates/exec-core/src/account_stream.rs:272-303 | Whatever happened since the cache was made, on a positive clock that never goes back, a read is in flight exactly when one of its kind permitted within 60 s has not finished, throttled exactly when none is but one finished within 10 s and no invalidation of the orders made the cache forget it, and permitted in every other case |
| `AccountStream.NeverFreshUntilReplaced` | crates/exec-core/src/account_stream.rs:255-270 | After an invalidation orders are never fresh, at any time and in any connection state, until replaced |
| `AccountStream.FreshnessIsAge` | crates/exec-core/src/account_stream.rs:262-270 | After a snapshot, until the next or an invalidation, a kind is fresh exactly for 600 s while connected and 10 s while not, whatever events and reads come in between |
| `AccountStream.KindsDoNotInterfere` | crates/exec-core/src/account_stream.rs:224-303 | What a kind holds after any run is what it holds after the run of its own operations alone |
| `RateLimit.RestRateLimiter.GateAt` | crates/exec-core/src/ratelimit.rs:95-116 | Refill, then banned or wait while blocked, else admit and spend the clamped weight or wait for the missing tokens |
| `RateLimit.RestRateLimiter.RateLimitedFor` | crates/exec-core/src/ratelimit.rs:134-152 | The backoff steps up, resets after 300 s, and the block reaches the later of its end and now plus the delay |
| `RateLimit.DelayExactly` | crates/exec-core/src/ratelimit.rs:134-152 | The delay is exactly the longer of the backoff and, when a ban is named, that ban and a second, up to 900 s; the backoff restarts at 1 s after 300 s and stays within 32 s; the block ends at that delay from now or where it ended before |
| `RateLimit.RestRateLimiter.ObserveUsedWeight` | crates/exec-core/src/ratelimit.rs:157-167 | The exchange's own count only ever lowers the tokens |
| `RateLimit.RestRateLimiter.Acquire` | crates/exec-core/src/ratelimit.rs:120-129 | Undisturbed: refused at once under a ban or before a wait above 10 s, otherwise admitted after at most one sleep |
| `RateLimit.TokensInRange` | crates/exec-core/src/ratelimit.rs:95-116 | Tokens stay between 0 and the capacity in every run, on any clock |
| `RateLimit.AnyClockBound` | crates/exec-core/src/ratelimit.rs:95-167 | On any clock, the weight let through by any consecutive steps is at most the capacity plus what the forward movement of the clock over them refills, wherever observations and bans fall |
| `RateLimit.WindowBound` | crates/exec-core/src/ratelimit.rs:95-167 | So on a clock that never goes back, over steps spanning a time it is at most the capacity plus what that time refills |
| `RateLimit.ObservedWeightBinds` | crates/exec-core/src/ratelimit.rs:154-167 | On any clock, after the exchange reports a used weight, what is let through from then on is at most what it left of the capacity plus what the forward movement of the clock since refills |
| `RateLimit.ReportLeavesExactly` | crates/exec-core/src/ratelimit.rs:157-167 | A report of a used weight leaves exactly the less of what the refilled bucket held and what the report left of the capacity, and touches no ban |
| `RateLimit.ReportBindsExactly` | crates/exec-core/src/ratelimit.rs:154-167 | Right after a report, an unblocked request is admitted if and only if it would have been without the report and its weight is within the capacity less the weight reported; a blocked one, or one after a negative report, is answered as without it |
| `RateLimit.AdmittedExactly` | crates/exec-core/src/ratelimit.rs:95-116 | While nothing blocks, a request is admitted exactly when the bucket then holds its weight, between 1 and the capacity, and spends exactly that |
| `RateLimit.BackwardClockOverspends` | crates/exec-core/src/ratelimit.rs:97-99 | One step of the clock back lets twice the capacity through at one instant, which meets the bound on any clock |
| `RateLimit.BansAreHonoured` | crates/exec-core/src/ratelimit.rs:134-152 | After a rate-limit answer of d seconds, between 1 and 900 and covering any ban it names up to 900, on a clock that never goes back every request asked before d is over is answered banned, for at least the time left |
| `RateClock.AnswersExactly` | crates/exec-core/src/ratelimit.rs:95-116 | On any clock: a request before the block's end is answered with the time left, as a ban if and only if a limit answer was given and no request since came at a reading at or past that end, else as a wait; from that end on it is never answered as a ban and a wait is for budget, at most the time of a full refill |
| `RateClock.BansAreHonouredExactly` | crates/exec-core/src/ratelimit.rs:95-152 | On any clock, after a limit answer of d seconds a request asked before d is over is banned for at least the time left if and only if no request since some limit answer came at or past the block's end |
| `RateClock.WithinIffForward` | crates/exec-core/src/ratelimit.rs:95-167 | For given clock readings, every limiter keeps the bound for a time over steps i to j, whatever is asked and observed, if and only if the readings move forward by at most that time over them |
| `RateLimit.WaitIsForBudget` | crates/exec-core/src/ratelimit.rs:100-115 | A limiter on a clock that never goes back answers wait only for want of tokens, never while blocked, and at most the time of a full refill |
| `RateLimit.WaitIsLeast` | crates/exec-core/src/ratelimit.rs:110-115 | A wait is exactly the least delay after which an undisturbed retry is admitted |
| `RateLimit.BackwardClockForgetsTheBan` | crates/exec-core/src/ratelimit.rs:100-109 | On a clock that goes back a ban can be answered as a wait |
| `RateLimit.BackoffDoubles` | crates/exec-core/src/ratelimit.rs:136-145 | Limits within 300 s of each other that name no ban double the delay from 1 s up to 32 s |
| `Lots.AllocateLots` | crates/exec-core/src/filters.rs:144-165 | The loop gives every tier but the last its share rounded down, and the last what remains |
| `Lots.LotsAreConserved` | crates/exec-core/src/filters.rs:143-165 | With a positive total and at most 10^10 tiers the lots sum to the parent's |
| `Lots.ConservesIffFewTiers` | crates/exec-core/src/filters.rs:143-165 | Conservation for every parent and all percents with a positive total holds for a number of tiers if and only if it is at most 10^10 |
| `Lots.TierIsItsShare` | crates/exec-core/src/filters.rs:154-160 | A tier other than the last is within (share - 1, share + 10^-10], and zero for a non-positive percent |
| `Lots.NoPercentNoLots` | crates/exec-core/src/filters.rs:148-151 | Without a positive percent nothing is allocated |
| `Lots.LotsRoundTrip` | crates/exec-core/src/filters.rs:79-88 | With a step of at most twelve decimals, lots survive the way through a quantity |
| `Lots.NormalizeRoundsDown` | crates/exec-core/src/filters.rs:91-103 | Normalising rounds down to a whole number of steps, the slack aside; prices to ticks in the same way |
| `Lots.NormalizeIsIdempotent` | crates/exec-core/src/filters.rs:91-103 | Normalising twice changes nothing |
| `Lots.WholeStepsAreKept` | crates/exec-core/src/filters.rs:167-175 | Rounding to the step's own decimals leaves a whole number of steps as it is |
| `Lots.FinerStepsVanish` | crates/exec-core/src/filters.rs:167-175 | A step of 10^-13 prints without decimals, so one lot of it rounds to nothing |
| `Bars.RollingAtr` | packages/gateway/src/demo/bar-metrics.ts:193-209 | The running sum gives the mean of the last period true ranges at every bar, 0 before there are as many |
| `Bars.RollingExtreme` | packages/gateway/src/demo/bar-metrics.ts:212-226 | The highest high or lowest low of the last n bars, with or without the bar itself |
| `Bars.BestIsExtreme` | packages/gateway/src/demo/bar-metrics.ts:219-224 | That value is reached in the window and beaten nowhere in it |
| `Bars.RollingVolumeRatio` | packages/gateway/src/demo/bar-metrics.ts:229-238 | This bar's volume over the mean of up to n before it |
| `Bars.WindowedEmaDir` | packages/gateway/src/demo/bar-metrics.ts:241-252 | Direction and average over the last window bars |
| `Bars.LastIndexAt` | packages/gateway/src/demo/bar-metrics.ts:349-361 | The binary search loop returns the search's result |
| `Bars.LastAtIsLatest` | packages/gateway/src/demo/bar-metrics.ts:349-361 | On ascending times the search finds the last entry not after the time, -1 when there is none |
| `BarLaws.TrueRangeIsLeastSpan` | packages/gateway/src/demo/bar-metrics.ts:196-201 | The true range of a bar is the least span that holds the bar and the close before it |
| `BarLaws.AtrIsBetween` | packages/gateway/src/demo/bar-metrics.ts:202-207 | The average range lies between the least and the greatest of the last period true ranges |
| `BarLaws.AtrMoves` | packages/gateway/src/demo/bar-metrics.ts:203-207 | From bar to bar the average range moves by a period's share of the range that comes less the one that goes |
| `BarLaws.RatioIsBetween` | packages/gateway/src/demo/bar-metrics.ts:229-238 | The volume ratio lies between the bar's volume over the greatest and over the least of the positive volumes before it |
| `BarLaws.TrendFollows` | packages/gateway/src/demo/bar-metrics.ts:241-252 | The trend over a window is long when its closes rise, short when they fall and none when they stay, since on rising values the average of the shorter period leads |
| `BarMetrics.ComputeMetrics` | packages/gateway/src/demo/bar-metrics.ts:266-347 | The one pass with its running breakouts and its cache gives, in order, exactly the windowed row of every bar it keeps |
| `BarMetrics.RegimeFor` | packages/gateway/src/demo/bar-metrics.ts:308-318 | The cached regime is the one computed at the first kept bar with the same last daily bar |
| `BarMetrics.BuildSide` | packages/gateway/src/demo/bar-metrics.ts:331-344 | Levels, breakout, and the distance and volume ratio of the latest breakout |
| `BarMetrics.BuildContext` | packages/gateway/src/demo/bar-metrics.ts:305-339 | The reads on the longer timeframes and the funding row at the bar's time |
| `BarVerdict.SelfLevelNeverBreaks` | packages/gateway/src/demo/bar-metrics.ts:152-158 | On bars with low at most close at most high, no computed bar ever breaks out of a level that counts itself, so none passes all conditions and none confirms a retest |
| `BarVerdict.CurrentRulesNeverPropose` | packages/gateway/src/demo/bar-metrics.ts:89-102 | The rules in force never pass a computed bar |
| `BarVerdict.PriorLevelMeansBreakout` | packages/gateway/src/demo/bar-metrics.ts:152-158 | Under the prior level a computed bar meets the breakout condition exactly when one of the last bars in the window closed beyond every one of up to 20 bars before it |
| `BarVerdict.PriorPassIsATrendBreakout` | packages/gateway/src/demo/bar-metrics.ts:136-183 | Under the prior level a computed bar passes all conditions only as such a breakout in the direction of the one-hour trend, not against the daily regime, with its close within the chase distance of that level |
| `BarVerdict.PassesExactly` | packages/gateway/src/demo/bar-metrics.ts:136-185 | A bar passes in a direction if and only if the trend points that way, its range is at the volatility floor, its close is within the chase distance of that side's level and out of it, the volume of the bar or of a breakout within the window is enough, funding is within its bound and the daily regime admits the direction |
| `BarVerdict.ComputedBarPassesExactly` | packages/gateway/src/demo/bar-metrics.ts:136-185 | The same of a computed bar under the prior level in terms of the candles: its breakout is one of the last bars closing beyond every one of up to 20 bars before it, and the volume that may stand in is that of the latest such bar |
| `BarVerdict.WatchedExactly` | packages/gateway/src/demo/bar-metrics.ts:144-187 | Without a trend the direction is that of the nearer level; a bar is watched if and only if it is with the trend and in reach but has not broken out on enough volume, so none that passes is |
| `BarVerdict.LoosenKeepsJoint` | packages/gateway/src/demo/bar-metrics.ts:143-182 | Loosening any thresholds, the trend rule included, never loses a bar that passed and never changes its direction |
| `BarVerdict.CacheIsInvisible` | packages/gateway/src/demo/bar-metrics.ts:308-318 | On daily bars in order every row carries the regime computed at its own time, although the cache ignores the time |
| `BarVerdict.FundingIsLatest` | packages/gateway/src/demo/bar-metrics.ts:319-319 | On funding rows in order a row carries the latest rate not after its time |
| `BarVerdict.KeptWindowsAreFull` | packages/gateway/src/demo/bar-metrics.ts:293-303 | Of a kept bar every window is full: 14 true ranges, 20 volumes and 20 bars before it, or 20 bars with it |
| `BarCausality.RowSeesNoFuture` | packages/gateway/src/demo/bar-metrics.ts:266-346 | Two histories with the same bars up to a bar, and the same hours, days and funding up to its close, keep or drop that bar alike and give it the same row, whatever comes later in any series |
| `BarCausality.BacktestIsLive` | packages/gateway/src/demo/bar-metrics.ts:266-346 | So on series in order the row of a bar in the whole history is its row in the history cut off at its close |
| `BrainQueue.Queue.Add` | packages/gateway/src/demo/queue.ts:41-48 | Refused exactly when the key waits or runs; else the job joins at its end, is shown, and starts if none runs |
| `BrainQueue.Queue.StartNext` | packages/gateway/src/demo/queue.ts:54-61 | The head starts unless a job runs or none waits |
| `BrainQueue.Queue.Finished` | packages/gateway/src/demo/queue.ts:66-72 | The job is cleared, shown, and the next starts |
| `BrainQueue.Queue.Progress` | packages/gateway/src/demo/queue.ts:30-34 | Step as reported; an episode that is missing or empty keeps the one already shown |
| `BrainQueue.ViewsTellTheState` | packages/gateway/src/demo/queue.ts:25-72 | Whatever is enqueued, settles and reports, the last view shown is how things are, and no view of a job carries the step or the episode of the one before it |
| `BrainQueue.StepTraces` | packages/gateway/src/demo/queue.ts:41-73 | The numbered trace of accepted and started jobs moves as the queue does |
| `BrainQueue.RunsKeepInv` | packages/gateway/src/demo/queue.ts:41-73 | In every run keys are distinct over running and waiting, one runs whenever any waits, every accepted job has started or waits, and all that started have settled but the running one |
| `BrainQueue.StartsAtMostOnce` | packages/gateway/src/demo/queue.ts:54-73 | An accepted job starts at most once, and not while it waits |
| `BrainQueue.NormalJobsStartInOrder` | packages/gateway/src/demo/queue.ts:43-44 | Normal jobs start in the order in which they were accepted, none left out |
| `BrainQueue.WaitsInPlace` | packages/gateway/src/demo/queue.ts:41-73 | A waiting job's place is the jobs ahead of it plus later priority jobs less the jobs settled |
| `BrainQueue.StartsWhenReached` | packages/gateway/src/demo/queue.ts:54-73 | It starts at the settling that takes its place below zero, and at no other |
| `BrainQueue.StartsIffReached` | packages/gateway/src/demo/queue.ts:54-73 | After any further arrivals and settlings a waiting job has started if and only if its place ever fell below zero |
| `BrainQueue.NoneStarves` | packages/gateway/src/demo/queue.ts:54-73 | It has started once more jobs have settled than were ahead of it plus priority jobs accepted since; with no priority arrivals, once more than were ahead of it |
| `OrderIds.ParseUndoesContractText` | crates/contracts-rs/src/client_order_id.rs:37-67 | Parsing undoes printing for all 32-bit numbers |
| `OrderIds.ContractTextsDiffer` | crates/contracts-rs/src/client_order_id.rs:37-40 | Distinct (intent12, leg, index, attempt) give distinct ids |
| `OrderIds.ContractIdFitsIff` | crates/contracts-rs/src/scalars.rs:94-98 | An id comes out exactly when the two numbers have at most 18 digits together |
| `OrderIds.ContractReprintsIff` | crates/contracts-rs/src/client_order_id.rs:52-67 | An accepted text is the print of what it parses to exactly when both numbers are written without sign or needless zero |
| `OrderIds.NewCoreId` | crates/exec-core/src/ids.rs:79-97 | The first twelve hex digits in lower case, padded with zeros; the two errors in their order |
| `OrderIds.ParseUndoesCoreText` | crates/exec-core/src/ids.rs:100-125 | Parsing undoes printing |
| `OrderIds.CoreTextsDiffer` | crates/exec-core/src/ids.rs:119-123 | Distinct (prefix, leg, attempt) give distinct ids |
| `OrderIds.CoreIdsFit` | crates/exec-core/src/ids.rs:89-97 | Every id the constructor makes is at most 24 allowed characters |
| `OrderIds.LanguagesAreDisjoint` | crates/exec-core/src/ids.rs:100-117 | No text is accepted by both parsers |
| `OrderIds.IntentPrefixesAgree` | crates/contracts-rs/src/scalars.rs:214-219 | Both sides derive the same twelve characters from an intent's UUID |

## Left out

- Sockets, SQLite, tokio, HTTP and WebSocket transport: only the state they carry is modelled (log, bus queue, frames under way, write queue, buffers).
- Interleaved service calls: each propose, reject, policy_set and emergency_stop is one atomic step; the code reads policy and intent before its transaction.
- DeliveryRuns.ClientDeliversTheLog: response frames and unsubscribe are not steps of the system; the client's timers appear as the steps Dial, Connected and Lost, which `ClientRuns` ties to the class.
- ClientRuns.SubscribeAndDrive: the run starts at the client's first subscription; a subscribe request left over from one given up is not in it.
- DeliveryRuns.ForwarderIsComplete: a number above 2^63 in since_seq wraps in the database cast; numbers are unbounded here.
- Services.RunsKeepTables: the event's name is the status it moves to, and the name passed to `transition_to` is carried but not claimed to match the table, which the code does not check.
- Services.RunsKeepPolicy: the policy version is unbounded; the overflow of its 32-bit counter is not modelled.
- Fields that are only passed through (status_reason, session, run and origin references) and the parts of a proposal that no check reads.
- Canonical.CanonicalTextDetermines: sha256 is not modelled; the statement is about the text that is hashed.
- CanonicalTs.Normalizer.Normalize: numbers are integers or floats as written; JavaScript reads 1.0 as the integer 1 and rounds integers beyond 2^53.
- Canonical.Walker.Walk: serde_json reads an integer beyond 64 bits as a float, on which the Rust side fails; integers are unbounded here, so the two sides are not claimed to agree on them.
- Json.ReadUndoesPrint: the reader covers the texts the printer makes, with the numbers of section 6 of RFC 8259, and rejects others a full JSON parser accepts, such as white space between tokens and escaped surrogate pairs; unlike the parsers of either side it keeps repeated keys.
- FrameCodec.PrintedValuesComeBack: how each side arranges the members of an object it has read is a parameter; the daemon's ordered map sorts them and JavaScript lists integer-like keys first, so the values are the same up to member order.
- JsonNested.LastBracedObjectWins: characters are Unicode scalars, not UTF-16 units, which changes no brace, quote or backslash.
- Ndjson.TsCutNeverMatters: blankness and parsing of a line are parameters on its bytes, so the lossy UTF-8 decoding before `JSON.parse` is inside the parameter.
- `RpcFrame::from_value` and the dispatch of decoded frames to methods.
- AccountStream.PositionsRefineTable: whether an amount is flat is a field of the update; parsing it is not modelled.
- The JSON payloads read from the account cache, the degraded-mode warning limiter, and parsing of stream messages into updates.
- RateLimit.RestRateLimiter.Acquire: undisturbed by other callers, over exact reals; the nanosecond rounding of durations is not modelled, and the time is passed in.
- Lots.LotsAreConserved: exact arithmetic; binary rounding of f64 and saturation at 2^64 lots are not modelled.
- Text formatting of decimals (`decimal_text`) and the minimum-size checks of `SymbolRules::validate`.
- BarMetrics.ComputeMetrics: numbers are reals, so malformed numeric strings (NaN) are not modelled; the daily classifier on at least 30 bars and the volatility floor are parameters, and the fields of a row are grouped by direction.
- `scoreCandidate` and the outcome simulation in the bar metrics file.
- BrainQueue.Queue.Finished: a job's promise settling is one call, whether it resolved or threw; the callback is the list of views shown.
- The order-origin classifiers: the three of them disagree by design on ids with the local prefix that do not parse.
- Network retry code, endpoint wrappers, the weight table and error-code tables: straight-line code without state of its own.
- The web interface, prompts, generated types, migrations and command-line entry points.
