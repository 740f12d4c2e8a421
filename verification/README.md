# Verified model of the FIX bridge

A Dafny 4.11 model of the stateful core of roq-fix-bridge, with proofs. `dafny verify dfyconfig.toml`
checks all of it.

| file | what it models |
|---|---|
| `JoinIndex.dfy`, `Mapping.dfy` | the broadcast mapping: an equi-join of source and target symbols, maintained one symbol at a time, and the table of mappings |
| `ReadLoop.dfy`, `FixFraming.dfy` | the read loop over a growing byte buffer, for any framer that meets a contract, and a framer for the FIX 4.4 wire format that meets it |
| `SequenceNumbers.dfy` | inbound sequence numbers with 64-bit arithmetic |
| `Routes.dfy` | the two-way strategy/session index |
| `Bridge.dfy` | sessions, session table, zombies, cleanup, routing and delivery as one state machine |
| `BridgeSafety.dfy`, `BridgeTheorems.dfy`, `BridgeAnswers.dfy` | the invariant every step keeps, and the theorems about whole runs |
| `BridgeEffects.dfy` | what each call, message and event does, field by field and for every session |
| `BridgeLedger.dfy` | a small reference for whole runs: who is in the table, who lives, who owns what, and a journal of which everything a session holds is a projection |
| `BridgeTeardown.dfy` | which routes a session still owns after a call, a message or a run in which it dies |
| `BridgeStreams.dfy` | what a session handles and buffers, in terms of all the bytes it received, in any interleaving |
| `Shared.dfy`, `Sessions.dfy` | the objects `Shared`, `Session` and `SessionManager`, updated in place and calling each other, each method tied to the state machine |
| `Authentication.dfy` | the controller's logon decision against the readiness one, and both for the users of a configuration file |
| `Readiness.dfy` | order-management readiness per source and account, and the logon decision |
| `Broadcasting.dfy` | from the broadcast entries of the configuration to the mappings, and to the joins they hold |
| `Configuration.dfy` | strict parsing of the configuration tables, and the index of users by name |

How the environment is modelled:

- The bridge library (`fix::bridge::Manager`), the sockets and the listener may make any call at any
  time. What they do from inside a call of ours (inside `Connection::close`, or when told of a message
  or a disconnect) is a tree of commands, so re-entrance is arbitrary but finite. The bridge's reaction
  to a message is an arbitrary function of all messages handled so far, that one included; as every
  message makes this log longer, no two reactions are asked for with the same log and each may be
  anything. What happens inside the close after a framing error is an arbitrary function of the session
  and the log, and a session has at most one framing error. So neither leaves out a run.
- Pattern extraction, the framer, the password check and message decoding are arbitrary functions; so is
  what the TOML library makes of a float or boolean where a number is expected. The
  clock is an input of each timer event.
- `log::fatal` is an explicit failed outcome. A C++ assert about the program's own state is proved to
  hold. A C++ assert about its input (the sender of a message is never empty and never changes; a
  session has a counterparty before it sends) is an assumption about the environment; the model does
  what a build without asserts does.
- FIX sequence numbers wrap at 2^64 and user ids at 2^16, as in the code. Session ids do not wrap.
- A user request carries the strategy id that its username decodes to.
- What a session sends is what it hands to its connection, whether or not the connection accepts it: the
  sequence number is used up either way.

Where the code and its documentation, or a natural expectation, part:

- `index.rst` says that a route is removed when the client disconnects. This fails in two ways. The
  removal is guarded by the READY state, and no code ever sets it: `DisconnectLeavesRoute` gives a run in
  which the client is gone and its route is not. And a user request is carried out after the bridge has
  reacted to it, so a session that the reaction closes is granted its strategy as a zombie:
  `GrantedAfterDeath`. `TeardownIff` is the exact condition at the instant of `make_zombie`,
  `ExecTeardownIff` for any call of the environment and `MessageTeardownIff` for a whole message.
  `DeadSessionsOwnExactly` says for whole runs which strategies a dead session holds ever after, and
  `DeadSessionsKeepTheirRoutes` that they are never granted to anybody else.
- The distance reported for a sequence gap underflows when the counter turns over: `UnderflowHappens`
  gives an input, `DistanceUnderflow` says exactly when, and `InboundConserved` and
  `ConservedExactlyIff` say what that does to the totals.
- `remove_route` leaves empty reverse entries: `EmptyReverseEntry` gives an input, `NoEmptyEntryStep` and
  `EmptyEntryStep` say exactly when an operation leaves one, and `EmptyEntriesByHistory` which sessions
  have one after any sequence of operations.
- `session_logon_helper` lets a user without an account in before readiness, component and password are
  looked at: `UncheckedLogon` gives an input, and `AcceptedIff` and `AcceptedByHistoryIff` say exactly who
  is accepted, and exactly when being accepted means being checked. Routing by strategy forbids accounts,
  so there it accepts every configured username: `ByStrategyAnyoneIsAccepted`.
  `Controller::operator()(Credentials)` does check component and password, and never readiness:
  `AuthenticatedFromFile`; `AgreeIff` says exactly when the two decisions agree. Nothing in the
  repository calls `session_logon`, the template around `session_logon_helper`.

## Model

| member | source | states |
|---|---|---|
| JoinIndex.RunCharacterised | src/roq/fix_bridge/tools/mapping.cpp:45-126 | A run of additions finishes iff all symbols of the exchange are distinct, no two share a source key and none yields one key from two target patterns; it then holds the join of all its symbols; no assert on fresh insertion ever fails. |
| JoinIndex.OrderIndependence | src/roq/fix_bridge/tools/mapping.cpp:45-126 | Two orders of the same listings both stop the process, or both end with the same four containers. |
| JoinIndex.DispatchReachesJoin | src/roq/fix_bridge/tools/mapping.hpp:29-39 | After a finished run a symbol reaches exactly the listed symbols for which some target pattern extracts the key the source pattern extracts from it, and the lookup succeeds iff there is one. |
| JoinIndex.RepresentationIsUnique | src/roq/fix_bridge/tools/mapping.hpp:51-54 | The set of processed symbols determines all four containers. |
| JoinIndex.AddKeepsRepresentation | src/roq/fix_bridge/tools/mapping.cpp:45-91 | One addition finishes iff the symbol is new, its source key is free and its target keys are distinct, and it leaves the join of the enlarged set. |
| JoinIndex.AddFailsBy | src/roq/fix_bridge/tools/mapping.cpp:45-126 | Each way an addition stops the process, exactly: a repeated symbol, a source key that is taken, a key that two target patterns extract. |
| JoinIndex.AddSourceKeepsJoin | src/roq/fix_bridge/tools/mapping.cpp:93-109 | Adding a source for a new symbol keeps `outbound` the join of `source` and `target`; it fails iff the key already has a source. |
| JoinIndex.AddTargetKeepsJoin | src/roq/fix_bridge/tools/mapping.cpp:111-126 | Adding a target keeps `outbound` the join; it fails iff the symbol is already a target of the key. |
| JoinIndex.AddTargetsKeepsJoin | src/roq/fix_bridge/tools/mapping.cpp:73-89 | The loop over the target patterns inserts the symbol under every key they extract, and fails iff two patterns extract the same key. |
| JoinIndex.TableRunsAreIndependent | src/roq/fix_bridge/shared.cpp:210-214 | The whole broadcast table finishes iff each mapping alone would, and each index is the one it would have alone. |
| JoinIndex.UpdateTableFailsAt | src/roq/fix_bridge/shared.cpp:210-214 | When a listing is offered to the mappings in turn, the first failure decides. |
| BroadcastMapping.Mapping.constructor | src/roq/fix_bridge/tools/mapping.cpp:36-43 | A new mapping has its patterns and four empty containers. |
| BroadcastMapping.Mapping.Add | src/roq/fix_bridge/tools/mapping.cpp:45-91 | The in-place addition with its loop over the patterns ends in the specified index, answers whether some pattern matched, and fails as specified. |
| BroadcastMapping.Mapping.AddSource | src/roq/fix_bridge/tools/mapping.cpp:93-109 | The in-place insertion, target by target, does what the specification says. |
| BroadcastMapping.Mapping.AddTarget | src/roq/fix_bridge/tools/mapping.cpp:111-126 | The in-place insertion does what the specification says. |
| BroadcastMapping.Mapping.Dispatch | src/roq/fix_bridge/tools/mapping.hpp:28-39 | Calls back exactly once per target of the symbol, with the mapping's own exchange, and returns true iff the symbol has an entry. |
| BroadcastMapping.AddAllAndDispatch | src/roq/fix_bridge/tools/mapping.cpp:45-126 | A new mapping that is offered all listings stops the process iff they are not admissible; otherwise a dispatch calls back, once each, exactly the symbols joined with its own, and answers whether there is one. |
| BroadcastMapping.UpdateBroadcastTable | src/roq/fix_bridge/shared.cpp:210-214 | The loop over the mappings updates each as the table specification says, up to the first failure. |
| ReadLoop.ChunkingIndependence | src/roq/fix_bridge/session.cpp:78-120 | However a stream is split into Read events, the world reached is that of framing the whole stream and handling its messages in order, cut after the first that closes the session or throws; a live session buffers exactly the bytes after the last complete frame, on which the framer reports incomplete. |
| ReadLoop.SplitsAgree | src/roq/fix_bridge/session.cpp:78-120 | Two splits of one stream lead to the same world, and to the same buffer if the session is live. |
| ReadLoop.ConsumeIsReference | src/roq/fix_bridge/session.cpp:95-106 | The loop over one buffer does what framing it first and handling the messages afterwards does. |
| ReadLoop.ConsumeLeavesRest | src/roq/fix_bridge/session.cpp:95-107 | If the session is live after the loop, what is not drained is exactly the rest after the last complete frame, and an exception always ends with the session dead. |
| ReadLoop.FramingExtends | src/roq/fix_bridge/session.cpp:95-106 | Framing a prefix and later its rest with more bytes equals framing everything at once. |
| ReadLoop.BytesConserved | src/roq/fix_bridge/session.cpp:82-107 | While the session is live, the bytes its handlers drain, one Read after the other, plus the bytes buffered are the bytes received; the buffer is the tail of the stream; and what is drained is exactly its complete frames. |
| FixFraming.EncodedFramesBack | test/cxl_rej_reason.cpp:46-48 | An encoded message followed by anything frames back to its body, with BodyLength and CheckSum as on the wire. |
| FixFraming.EncodingIsOnTheWire | test/cxl_rej_reason.cpp:46-48 | An encoded message field by field: the length written is that of the body, the checksum written is the sum of all bytes before it modulo 256. |
| FixFraming.DecodingIsSound | src/roq/fix_bridge/session.cpp:96-100 | The FIX framer meets the contract of the read loop, for every codec. |
| FixFraming.StreamFramesBack | test/cxl_rej_reason.cpp:46-48 | The encodings of some messages, one after the other, frame back to exactly those messages. |
| FixFraming.EncodedMessagesAreHandled | src/roq/fix_bridge/session.cpp:78-120 | A session that is sent encoded messages in any chunks handles exactly those messages in order, cut after one that closes it. |
| SequenceNumbers.DistanceUnderflow | src/roq/fix_bridge/session.cpp:136-158 | Nothing is reported for the next number, a gap for a higher and a replay for a lower one; a distance is the true difference unless the counter turns over: there, and only there, the subtraction underflows, and only for a gap. |
| SequenceNumbers.UnderflowHappens | src/roq/fix_bridge/session.cpp:136-158 | An input at which the distance underflows: after number 2^64 - 1, number 5 is reported as a gap of 6, and the account is off by 2^64. |
| SequenceNumbers.InboundConserved | src/roq/fix_bridge/session.cpp:136-159 | For every sequence of numbers: messages, plus distance - 1 per gap, minus distance + 1 per replay, equal the counter plus 2^64 per turn. |
| SequenceNumbers.ConservedExactlyIff | src/roq/fix_bridge/session.cpp:136-159 | The account is exact iff a message numbered 2^64 - 1 is only ever followed by another one. |
| SequenceNumbers.SilentIff | src/roq/fix_bridge/session.cpp:136-158 | Nothing is reported iff the numbers are 1, 2, 3, ... modulo 2^64. |
| Routes.ApplyRefinesCells | src/roq/fix_bridge/shared.cpp:218-250 | Every operation keeps the two maps inverse, moves each strategy as a cell of its own, and answers from that cell. |
| Routes.ApplyAllRefinesCells | src/roq/fix_bridge/shared.cpp:218-250 | Under any sequence of operations the two maps are inverse and hold exactly the cells: the first claim wins until its owner releases it. |
| Routes.OwnerByHistory | src/roq/fix_bridge/shared.cpp:218-250 | A session owns a strategy iff it claimed it while free and has released neither it nor everything since. |
| Routes.RemoveAllIsExact | src/roq/fix_bridge/shared.cpp:240-250 | Removing all routes deletes exactly the caller's strategies. |
| Routes.EmptyReverseEntry | src/roq/fix_bridge/shared.cpp:229-238 | An input that leaves an empty reverse entry. |
| Routes.EmptyEntryStep | src/roq/fix_bridge/shared.cpp:218-250 | An operation leaves a session with an empty entry iff it removes the session's last strategy, or there was one and it neither fills nor erases it. |
| Routes.NoEmptyEntryStep | src/roq/fix_bridge/shared.cpp:229-238 | From a table without empty entries, an operation leaves none iff it is not the removal of a last strategy. |
| Routes.EmptyEntriesByHistory | src/roq/fix_bridge/shared.cpp:218-250 | After any sequence of operations a session has an empty entry iff it was granted a strategy, has not removed all its routes at once since, and holds none. |
| SharedState.Shared.AddRoute | src/roq/fix_bridge/shared.cpp:218-227 | The in-place update and its answer are the specified ones. |
| SharedState.Shared.RemoveRoute | src/roq/fix_bridge/shared.cpp:229-238 | The in-place update and its answer are the specified ones. |
| SharedState.Shared.RemoveAllRoutes | src/roq/fix_bridge/shared.cpp:240-250 | The loop over the caller's strategies ends in the specified table. |
| BridgeSafety.ExecIsLater | src/roq/fix_bridge/controller.cpp:271-381 | Whatever the environment does, however deeply nested, keeps the invariant, never revives a zombie, never makes a session READY and, while none is READY, gives up no route. |
| BridgeSafety.CloseIsLater | src/roq/fix_bridge/session.cpp:649-670 | The same for a close, with anything happening inside the connection's close. |
| BridgeSafety.MakeZombieIsLater | src/roq/fix_bridge/session.cpp:656-670 | The same for the step to ZOMBIE, which keeps zombie set, table and notifications in agreement. |
| BridgeSafety.UserRequestRoutes | src/roq/fix_bridge/session.cpp:372-425 | A user request makes one response, whose status is LOGGED_IN iff the session gained the route, NOT_LOGGED_IN iff it gave it up, and otherwise leaves all routes alone. |
| BridgeSafety.HandleMessageIsLater | src/roq/fix_bridge/session.cpp:86-93 | Handling a message keeps the invariant; only the session that handles it can gain or lose routes. |
| BridgeSafety.StepIsAfter | src/roq/fix_bridge/session_manager.cpp:85-121 | Every event keeps the invariant, and dead sessions stay dead. |
| BridgeSafety.RunIsAfter | src/roq/fix_bridge/session_manager.cpp:85-146 | The same for every run, in every environment. |
| BridgeEffects.DeliverReachesOne | src/roq/fix_bridge/session_manager.hpp:34-42 | A message for one session is attempted once by that session, with the next number and its counterparty; no other session and nothing else changes. |
| BridgeEffects.BroadcastReachesAll | src/roq/fix_bridge/session_manager.hpp:44-49 | A broadcast is attempted exactly once by every session in the table; nothing else changes. |
| BridgeEffects.DisconnectedKillsThenReacts | src/roq/fix_bridge/session.cpp:122-127 | A disconnect kills the session (one logout if it was live, its routes gone iff it was READY) and changes nothing else; then everything that the bridge does in reaction is done. |
| BridgeEffects.CloseThenKills | src/roq/fix_bridge/session.cpp:649-670 | A close of a live session does all that happens inside it and then what a disconnect does; a close of a zombie does nothing. |
| BridgeEffects.HeaderIsChecked | src/roq/fix_bridge/session.cpp:129-160 | The message is logged, its number followed, and its sender recorded iff none was; nothing else changes. |
| BridgeEffects.MessageReachesBridge | src/roq/fix_bridge/session.cpp:86-325 | The bridge is told of every message of a known type and all its reaction is done; if it throws, the session is closed and the caller told; if not, a user request is carried out with exactly one response, and any other message leaves just that; a message of unknown type is answered only. |
| BridgeEffects.AcceptEntersThenReacts | src/roq/fix_bridge/session_manager.cpp:95-115 | A connection is entered under the next id as a fresh session, with an empty buffer, and nothing else changes; then all that the bridge does in reaction is done. |
| BridgeEffects.EmitIsInOrder | src/roq/fix_bridge/controller.cpp:271-381 | What the bridge and the connections do by themselves is done call by call, in order. |
| BridgeLedger.ReachedTells | src/roq/fix_bridge/session_manager.cpp:85-146 | In every reachable state the table, zombies, cleanup time, strategy owners, logs and every field of every session are those of the reference, which executes the same events on an append-only journal. |
| BridgeLedger.HandleTells | src/roq/fix_bridge/session.cpp:86-325 | A whole message does to the system what the reference says: it is received, then rejected, or reacted to and then closed upon, answered, or left at that. |
| BridgeLedger.ReadTells | src/roq/fix_bridge/session.cpp:78-120 | A Read handles exactly the messages that its chunk completes in the stream of the session, as long as it lives, and closes it after a framing error. |
| BridgeLedger.ExecTells | src/roq/fix_bridge/controller.cpp:271-381 | Every command, however nested, does to the system what the reference says. |
| BridgeLedger.SessionsAreProjections | src/roq/fix_bridge/session.cpp:589-640 | The call log is exactly the executed deliveries and broadcasts and the answers, in order, and every session is the projection of the journal to itself. |
| BridgeLedger.HandedOverIsSent | src/roq/fix_bridge/session.cpp:622-640 | Whatever is handed to a session in the table after its birth is attempted, under the number of its position, to the counterparty of that moment. |
| BridgeLedger.AttemptsWereHandedOver | src/roq/fix_bridge/session.cpp:622-640 | Conversely, every attempt of a session was handed to it after its birth. |
| BridgeLedger.CounterpartyIsFirstSender | src/roq/fix_bridge/session.cpp:129-135 | The counterparty of a session is the sender of the first message it has handled that names one, and empty iff there is none. |
| BridgeLedger.AttemptsNameCounterparty | src/roq/fix_bridge/session.cpp:622-640 | From the first message that names a sender on, every attempt names that sender; every attempt before names nobody. |
| BridgeTheorems.ZombiesMatchTable | src/roq/fix_bridge/session_manager.cpp:93-146 | In every reachable state the zombie set is exactly the zombies of the table, the next id is free and every zombie is in the table (the two asserts), and a cleanup leaves exactly the sessions that are not zombies. |
| BridgeTheorems.NotifiedExactlyOnce | src/roq/fix_bridge/session.cpp:649-670 | The manager hears exactly once of each accepted session that left its live states, and of no other. |
| BridgeTheorems.DeadForever | src/roq/fix_bridge/session.cpp:656-670 | ZOMBIE is absorbing: a dead session is dead in every continuation. |
| BridgeTheorems.ReactionFindsZombie | src/roq/fix_bridge/session.cpp:122-127 | The bridge hears of a disconnect after the session became a zombie, so closing it anywhere in the reaction does nothing. |
| BridgeTheorems.SynchronousDisconnect | src/roq/fix_bridge/session.cpp:649-654 | After a Disconnected delivered from inside the connection's close, at any point of whatever else happens there, the close has nothing left to do. |
| BridgeTheorems.SessionProjection | src/roq/fix_bridge/session.cpp:589-640 | In any interleaved run a session attempts to send exactly what the call log asks of it since its creation, in order, numbered 1, 2, 3, ... modulo 2^64, to one counterparty. |
| BridgeTheorems.AbsentIdsAreIgnored | src/roq/fix_bridge/session_manager.hpp:34-42 | Calls for an id that is not in the table change nothing. |
| BridgeTheorems.ResponsesReconstructRoutes | src/roq/fix_bridge/session.cpp:385-412 | Replaying the statuses the sessions themselves sent yields exactly the strategy table. |
| BridgeTheorems.ReadyTeardown | src/roq/fix_bridge/session.cpp:656-663 | A session that enters `make_zombie` from READY ends with no strategy, and every other session's routes stay. |
| BridgeTheorems.TeardownIff | src/roq/fix_bridge/session.cpp:656-663 | At the instant of `make_zombie`, leaving the live states removes a session's routes iff it was READY or had none. |
| BridgeTheorems.DeadSessionsKeepTheirRoutes | src/roq/fix_bridge/session.hpp:203 | READY is never reached, so the strategies of a dead session stay with it in every continuation and nobody else is ever granted them. |
| BridgeTheorems.DisconnectLeavesRoute | src/roq/fix_bridge/index.rst:479 | A run in which the client is gone and cleaned up, and its route is still there. |
| BridgeTeardown.ExecIsTorn | src/roq/fix_bridge/session.cpp:649-670 | Whatever the environment does, however deeply nested, the routes lost are exactly those of the sessions it kills in the state READY, and none is gained. |
| BridgeTeardown.ExecTeardownIff | src/roq/fix_bridge/session.cpp:649-670 | A session killed by a call of the environment owns nothing afterwards iff it was READY or owned nothing before. |
| BridgeTeardown.MessageRoutes | src/roq/fix_bridge/session.cpp:372-425 | The exact routes of every session after a whole message: sessions that died READY lost theirs, and a request that is carried out adds or removes its strategy, even if its session is dead by then. |
| BridgeTeardown.MessageTeardownIff | src/roq/fix_bridge/session.cpp:372-425 | A session that dies while it handles a message owns nothing after it iff it was READY or owned at most the strategy that the request gives back, and no request is carried out that asks for a strategy free after the reaction. |
| BridgeTeardown.GrantedAfterDeath | src/roq/fix_bridge/session.cpp:372-391 | A session that owned nothing, READY or not, is disconnected in reaction to its request and then granted the strategy. |
| BridgeTeardown.DeadSessionsOwnExactly | src/roq/fix_bridge/session.cpp:372-425 | In every run, a dead session holds ever after exactly the strategies it owned when it died, plus the one granted and less the one given back by the request during which it died; if it died in the event that accepted it, none. |
| BridgeTeardown.DeathHappens | src/roq/fix_bridge/session.cpp:656-670 | Every session that is dead in a reachable state died by one event of the run. |
| BridgeTeardown.UnacceptedOwnNothing | src/roq/fix_bridge/session_manager.cpp:95-115 | In every reachable state a session that has not been accepted yet owns no strategy. |
| BridgeTeardown.DeadRoutesAreFixed | src/roq/fix_bridge/shared.cpp:218-250 | A dead session neither gains nor loses a strategy, whatever follows. |
| BridgeStreams.SystemIgnoresChunking | src/roq/fix_bridge/session.cpp:78-120 | In any run, splitting the bytes read for a session between two other events differently leads to the same sessions, table, routes, logs and buffers, then and ever after; only what a dead session has left over may differ. |
| BridgeStreams.HandledMessages | src/roq/fix_bridge/session.cpp:86-106 | The messages handled from a run of Reads are those of the framing of the buffer and the stream in order, cut after the first that leaves the session dead. |
| BridgeStreams.HandledAreFramed | src/roq/fix_bridge/session.cpp:78-120 | In every reachable state, however other events fall between the Reads, a live session has handled exactly the messages in the bytes it received since it was accepted, in order, without a framing error, and its buffer is what they leave over; a dead session handled a prefix of them. |
| BridgeStreams.EncodedMessagesAreLogged | src/roq/fix_bridge/session.cpp:78-120 | With the FIX framer, a session that has received the encodings of some messages, in any chunks and with anything in between, has handled exactly those messages and buffered nothing if it is live, and a prefix of them if it is dead. |
| BridgeTheorems.InboundConservedInRuns | src/roq/fix_bridge/session.cpp:129-160 | In every reachable state the inbound counter of a session is accounted for by what was reported on the messages it handled. |
| BridgeTheorems.ZombiesAreRemovedInTime | src/roq/fix_bridge/session_manager.cpp:85-91 | From any instant on which ticks never go back and are at most d apart, a zombie is out of the table within one second plus d of the last tick before its registration. |
| BridgeTheorems.CleanupsAreSpaced | src/roq/fix_bridge/session_manager.cpp:85-91 | Consecutive cleanups are strictly more than one second apart, whatever the ticks. |
| BridgeAnswers.AnsweredExactlyOnce | src/roq/fix_bridge/session.cpp:311-323 | Over any run, a message of unknown type is rejected once by its number and a user request responded to once unless the bridge throws, in the order of the messages, and nothing else is answered. |
| Sessions.Session.SendHelper | src/roq/fix_bridge/session.cpp:622-640 | Every attempt takes the next outbound number and names the counterparty. |
| Sessions.Session.MakeZombie | src/roq/fix_bridge/session.cpp:656-670 | The object tears down, changes state and notifies as the state machine does. |
| Sessions.Session.Close | src/roq/fix_bridge/session.cpp:649-654 | The same for a close, re-entered in any way. |
| Sessions.Session.OnDisconnected | src/roq/fix_bridge/session.cpp:122-127 | The same for the connection's Disconnected. |
| Sessions.Session.CheckHeader | src/roq/fix_bridge/session.cpp:129-160 | Records the first sender, follows the sender's number, and reports the specified gap or replay. |
| Sessions.Session.CompareNumbers | src/roq/fix_bridge/session.cpp:136-158 | The comparison reports exactly the specified gap or replay. |
| Sessions.Session.Route | src/roq/fix_bridge/session.cpp:385-417 | The request type selects adding, removing or neither, and the status. |
| Sessions.Session.HandleUserRequest | src/roq/fix_bridge/session.cpp:372-425 | The route and the response are those of the state machine. |
| Sessions.Session.Parse | src/roq/fix_bridge/session.cpp:166-325 | Unknown types are rejected; otherwise the bridge reacts first and a user request is carried out after it; an exception closes the session. |
| Sessions.Session.HandleMessage | src/roq/fix_bridge/session.cpp:86-93 | The parser callback does what the state machine does with a message. |
| Sessions.Session.ConsumeBuffer | src/roq/fix_bridge/session.cpp:95-106 | The loop computes the progress that the specification of the read loop defines. |
| Sessions.Session.OnRead | src/roq/fix_bridge/session.cpp:78-120 | A Read event on the object is a Read step of the state machine, buffers included. |
| Sessions.SessionManager.constructor | src/roq/fix_bridge/session_manager.cpp:64-67 | A new manager is in the initial state. |
| Sessions.SessionManager.OnDisconnect | src/roq/fix_bridge/session_manager.cpp:117-121 | Logs the session out and remembers the zombie. |
| Sessions.SessionManager.SendToAll | src/roq/fix_bridge/session_manager.hpp:44-49 | The loop over the table reaches every session exactly once, in any order. |
| Sessions.SessionManager.Execute | src/roq/fix_bridge/controller.cpp:271-381 | A call is routed to its session or to all, as the state machine says, whatever is nested in it. |
| Sessions.SessionManager.RemoveZombies | src/roq/fix_bridge/session_manager.cpp:136-146 | The loop removes exactly the zombies, and every removal finds its session. |
| Sessions.SessionManager.OnTimer | src/roq/fix_bridge/session_manager.cpp:85-91 | A timer event is a Tick step of the state machine. |
| Sessions.SessionManager.OnAccept | src/roq/fix_bridge/session_manager.cpp:95-115 | A new connection is an Accept step of the state machine. |
| Sessions.SessionManager.EnterTable | src/roq/fix_bridge/session_manager.cpp:107-129 | The next id gets a fresh session in the table. |
| Sessions.SessionManager.HandleEvent | src/roq/fix_bridge/session_manager.cpp:85-121 | Between events the whole invariant holds of the objects, and every event does what the state machine does. |
| Readiness.TableIsHistory | src/roq/fix_bridge/shared.cpp:174-201 | The table holds a status iff it is the latest one reported with order support since the source was last disconnected. |
| Readiness.EmptyAccountIsNeverRecorded | src/roq/fix_bridge/shared.cpp:185-187 | No source ever has a status for an empty account. |
| Readiness.LogonByHistory | src/roq/fix_bridge/shared.cpp:113-148 | For a known user with an account, a logon is refused as not ready iff the check is on and for some source the latest report since its last disconnect is missing or not ready; it is accepted, under the user's name, iff nothing of that holds it back and component and password are right. |
| Readiness.AcceptedIff | src/roq/fix_bridge/shared.cpp:113-148 | An unknown username is always refused; a configured user is accepted iff it has no account or readiness (if looked at), component and password are right; being accepted means that they are iff it has an account or they are anyway; without an account it is accepted as nobody. |
| Readiness.AcceptedByHistoryIff | src/roq/fix_bridge/shared.cpp:113-201 | The same, with readiness read off the history of the sources. |
| Readiness.RefusedIff | src/roq/fix_bridge/shared.cpp:113-148 | Each answer for a user with an account, exactly: not ready, wrong component and wrong password, checked in that order. |
| Readiness.UncheckedLogon | src/roq/fix_bridge/shared.cpp:124-126 | An accepted logon with a wrong component, a wrong password and no source ready. |
| Readiness.Sources.SessionLogon | src/roq/fix_bridge/shared.cpp:113-148 | The method, with its loop over all sources, takes the specified decision. |
| Readiness.Sources.OnDisconnected | src/roq/fix_bridge/shared.cpp:174-181 | Forgets everything about the source. |
| Readiness.Sources.OnStreamStatus | src/roq/fix_bridge/shared.cpp:183-201 | Records the status unless the account is empty or orders are not supported. |
| Authentication.AgreeIff | src/roq/fix_bridge/controller.cpp:229-247 | The controller's decision and `session_logon_helper` agree iff the username is unknown, or the user has no account and its credentials are right, or it has one and is not held back by readiness alone. |
| Authentication.AuthenticatedIff | src/roq/fix_bridge/controller.cpp:229-247 | Each answer of the controller, exactly: unknown username, wrong component, wrong password, in that order; a strategy is only named with an acceptance. |
| Authentication.ByStrategyAnyoneIsAccepted | src/roq/fix_bridge/config.cpp:295-298 | In an accepted configuration that routes by strategy, `session_logon_helper` accepts exactly the usernames in the file, as nobody, whatever the component, password and sources are. |
| Authentication.AuthenticatedFromFile | src/roq/fix_bridge/controller.cpp:229-247 | The controller accepts exactly those logons that some entry of the file admits, with the strategy of that entry. |
| Authentication.StartAndLogon | src/roq/fix_bridge/controller.cpp:61-85 | The same for both decisions, from the tables of the file through construction and both indexes. |
| Configuration.Table.ParseUser | src/roq/fix_bridge/config.cpp:276-305 | A users entry is accepted iff it has no unknown key, all values are well typed, the username is not empty and nothing is forbidden by the routing mode; the result is the user that the entry describes, field by field. |
| Configuration.UserIsRead | src/roq/fix_bridge/config.cpp:276-305 | The user read off an accepted entry is the one it describes, field by field: texts, number, and patterns one by one. |
| Configuration.Table.ParseBroadcast | src/roq/fix_bridge/config.cpp:381-407 | A broadcast entry is accepted iff it has exactly its three keys, well typed and not empty; the result has the exchange, the source pattern and the target patterns of the entry. |
| Configuration.BroadcastIsRead | src/roq/fix_bridge/config.cpp:381-407 | The broadcast read off an accepted entry has its exchange, its source pattern and its target patterns one by one. |
| Configuration.Table.FindPatternsAndRemove | src/roq/fix_bridge/config.cpp:180-268 | Text or an array of texts is read as patterns and the key consumed; anything else fails or, where the code lets it, counts as no pattern. |
| Configuration.Table.GetTextAndRemove | src/roq/fix_bridge/config.cpp:83-97 | Fails iff the key is missing or not text; otherwise consumes it. |
| Configuration.Table.MaybeGetTextAndRemove | src/roq/fix_bridge/config.cpp:99-113 | Fails iff the key is there and not text; otherwise consumes it. |
| Configuration.ParseUsers | src/roq/fix_bridge/config.cpp:270-312 | The table is accepted iff every entry is, and the result holds exactly the users of the entries with their ids. |
| Configuration.UserIdsCountUp | src/roq/fix_bridge/config.cpp:278 | User ids are 1, ..., n for fewer than 65536 users. |
| Configuration.IndexUsernames | src/roq/fix_bridge/controller.cpp:61-85 | The index builder stops iff a username, or an account unless routing by strategy, is repeated; otherwise it holds exactly the users under their names. |
| Configuration.IndexIsUnique | src/roq/fix_bridge/shared.cpp:24-46 | Both builders, in whatever order they pass over the users, build the same index. |
| Configuration.LookupIsSearch | src/roq/fix_bridge/controller.cpp:230-235 | Looking a username up agrees with a linear search of the users. |
| Configuration.CheckUniqueUsernames | src/roq/fix_bridge/config.cpp:439-449 | Passes iff usernames are distinct. |
| Configuration.CheckUniqueAccounts | src/roq/fix_bridge/config.cpp:451-462 | Passes iff accounts that are not empty are distinct. |
| Configuration.Construct | src/roq/fix_bridge/config.cpp:471-482 | Construction finishes iff every key of the root table and of each users and broadcast entry is consumed by a parser, all values are acceptable, and usernames (and accounts, unless routing by strategy) are unique; it then holds, under its name, what every entry says. |
| Configuration.StartUp | src/roq/fix_bridge/controller.cpp:61-85 | After construction neither index builder can stop the process, both build the same index, and a lookup in it is a linear search of the users in the file. |
| Broadcasting.ExtractMappings | src/roq/fix_bridge/shared.cpp:48-54 | One mapping for each broadcast of the configuration, with its exchange and its compiled patterns. |
| Broadcasting.UpdateAll | src/roq/fix_bridge/shared.cpp:210-214 | Offering all listings to all mappings ends in the specified table, or in its failure. |
| Broadcasting.StartBroadcasting | src/roq/fix_bridge/shared.cpp:48-54 | From the file to the mappings: after all listings, the mapping of every entry has the exchange and patterns written in that entry and holds the join they define; the process stops iff the listings are not admissible for some entry. |

## Left out

- fix::bridge::Manager, the FIX codecs and the 23-way switch on message types: library calls with one forwarding shape; a message is a user request, another supported type, or an unsupported one.
- Sessions.SessionManager.Execute: stands for `Controller::dispatch` and the broadcast handler; the one-line forwarding handlers of `Controller` are not repeated.
- Sessions.Session.SendHelper: a connection that calls back from inside `send` is not modelled; latency and sending time are left out.
- Sessions.Session.MakeZombie: `unsubscribe_all` has no body in the source and `cancel_all_orders` needs an account that is never set, so neither does anything.
- Session::logout and `send_and_close` are called from nowhere.
- Configuration.Construct: the parsers of the symbols, statistics and errors tables are inputs that succeed or fail; a users or broadcast section, or an entry of one, that is not a table is not modelled (for users the source would dereference a null pointer).
- Readiness.Sources.OnStreamStatus: the table of gateways (`add_source`, `remove_source`, `get_sources`) and the log lines have no influence on the decision.
- Readiness.Sources: one class `Shared` in the source; routes and readiness are two classes here.
- Shared::broadcast relies on a market lookup that is not part of this model; the mappings' own dispatch is.
- The removal of a session destroys its connection silently; a connection that calls back from its destructor is not modelled.
- An exception that is neither the system's nor the library's own ends the process; that is not modelled.
- Hashing order, regular expressions, HMAC, clocks, sockets, timers, the filesystem, metrics and formatting.
