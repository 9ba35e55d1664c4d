# A verified model of the WebSocket framework's stateful core

The framework routes each request of a WebSocket client through a chain of handlers, keeps its clients, users and topics
in a hub, and ships a code generator and some utilities. This project models the parts that keep state or do real
arithmetic, and proves what holds of them over every input, every run and every reachable state.

Code that works by changing things step by step is modelled as classes and methods over mutable state. Each method is
tied to a function on values, and the properties are proved about that function, so that they can be stated over whole
runs. `dafny verify dfyconfig.toml` checks everything.

| files | what they model |
|---|---|
| `Engine`, `EngineOrder`, `EngineBound`, `EngineSpans`, `EngineMeaning`, `EngineEvents` | the re-entrant `Next` on its 8-bit cursor, the dispatcher, and the telemetry and recovery middlewares; a handler is the script of calls it makes |
| `HubState`, `HubRoster`, `HubTopics`, `HubMessages`, `HubRuns`, `HubOpen`, `HubPublished`, `HubEffects`, `HubReports`, `HubWitness`, `Hub` | the hub with its clients, users and topics, as one value that every step updates, and as objects that point at each other |
| `TrieSpec`, `Trie` | the trie, as a map from paths to contents, and as linked nodes |
| `RouterState`, `Router` | routers over slices that share backing arrays, as values with explicit memory, and over real arrays |
| `Docgen`, `DocgenRuns` | the chains the documentation reads off a registration function, and the routers that function builds |
| `Changelog` | the snapshots of the API and the changelog made from them |
| `IdCheck`, `Uid`, `Decimal`, `Strings`, `DecimalList`, `Azdg`, `Aes`, `LogRing` | the check digit of identity numbers, generated identifiers, decimal lists, two ciphers, and the ring of recent log lines |

## What turned out to be false of the code

Each of these is kept as the code has it, with the exact condition under which the expected property holds.

- The cursor wraps at 64 handlers: if each of them calls `Next` once, whether or not the last one aborts before it does,
  the cursor is driven to -128, and the dispatch panics (`EngineBound.SixtyFourHandlersWrap`). With at most 63
  calls of `Next` written in them together, it never wraps (`EngineBound.CursorStaysWithin`). With 65, of which
  the last one aborts, the dispatch has no end (`EngineBound.SixtyFifthStartsForEver`).
- Recovery does not answer every panic: a handler behind it that calls `Next` 123 times makes the dispatcher's own `Next`
  panic, outside of Recovery (`EngineSpans.TooManyNextsPanic`, with the condition in `EngineSpans.SpanTellsTheResponse`).
- Deleting a word from the trie can lose stored prefixes of it (`TrieSpec.DelCanLoseAPrefix`); it does not exactly if the
  word's node has a child, or after every stored proper prefix a path branches off
  (`TrieSpec.DelIsRemovalIff`).
- A user object that is no longer registered still can subscribe and unsubscribe, and then the two sides of the
  subscription differ (`HubTopics.SubKeepsMirrorIff`, `HubTopics.UnsubKeepsMirrorIff`; runs that come to this are
  `HubWitness.StraySubscribes` and `HubWitness.StrayUnsubscribes`). Dropping
  topics at the user has the same flaw (`HubTopics.UnsubTopicKeepsMirrorIff`, with the run `HubWitness.StrayDrops`).
  The two sides agree throughout a run exactly if that does not happen (`HubRuns.RunIsGoodIff`); the lists and the
  messages do not depend on it.
- A login of a client that another user, or another app of the same user, has listed leaves it in two places
  (`HubRoster.LoginKeepsRosterIff`, with the run `HubWitness.ListedClientLogsInAgain`); in the second case a broadcast
  reaches it twice (`HubWitness.TwiceListedHearsTwice`). A run without such a login keeps all lists sound
  (`HubRuns.RunIsSoundIff`).
- A connection that a login replaces is sent to the Disconnect channel but stays open, for it is off the list by then;
  and nothing closes it later (`HubOpen.ReplacedIsNeverClosed`, with the run `HubWitness.ReplacedConnection`).
- A closed connection whose login is handled late is listed and gets no message: everybody listed gets every message
  exactly in the runs without such a login (`HubOpen.RunStaysOpenIff`, with the run `HubWitness.LateLogin`).
- Routers made from one router can overwrite each other's last middlewares (`RouterState.SiblingsShareTheLastCell`,
  with the condition in `RouterState.UseIsFaithfulIff`, and for whole runs in `RouterState.RunIsFaithfulIff`).
- In the same way they can overwrite each other's last group, so that a route is registered under another group's name
  (`RouterState.SiblingGroupsShareTheLastName`, with the condition in `RouterState.GroupIsFaithfulIff`).
- The documentation loses the chain of a router behind `Group`, behind a second name and behind a second `Use` in one
  expression (`Docgen.ChainsAreLost`, with the condition in `Docgen.EntersRightIff`); and a
  route whose variable is assigned again later is documented with the later chain (`Docgen.ReassignedIsWrong`).
- Generating the changelog for an older stored version makes the log and the newest snapshot disagree
  (`Changelog.OlderVersionIsNotReplayed`, with the condition in `Changelog.ReplayIff`).
- An identity number of 15 characters from a known area makes `CheckID` panic (`IdCheck.CheckID`), and letters pass for
  zeros (`IdCheck.LetterForZeroPasses`, for example in `IdCheck.SuchANumberPasses`). So the swap of a final 1X into X1
  goes unnoticed (`IdCheck.SwappedXPasses`, with the condition in `IdCheck.LastSwapPassesIff`).
- Two overlapping calls of the identifier generator can get the same number (`Uid.OverlappingCallsCollideIff`, for example
  `Uid.NoonCallsCollide`).
- For unsigned lists of 64 bits, negative numbers are read as numbers that cannot be read again
  (`DecimalList.NegativesAreLost`, with the condition in `DecimalList.UnsignedReparseIff`).
- The removal of padding accepts more than well-padded texts (`Aes.EncryptUndoesDecryptIff`, for example
  `Aes.BadPaddingIsAccepted`).

## Model

| member | source | states |
|---|---|---|
| Engine.Context.Next | ws/context.go:30-36 | `Next`, called from inside handler `i`, ends in the state and outcome of the value model, for every chain of at most 64 |
| Engine.Context.Abort | ws/context.go:39-41 | the cursor jumps to 63, nothing else changes |
| Engine.Context.Handle | middlewares/telemetry.go:11-57 | running a handler: the deferred function of Telemetry closes its own span after a return and after a panic; that of Recovery turns a panic into a return |
| Engine.Context.Perform | ws/context.go:30-41 | the calls of a script take effect in order, up to the first panic |
| Engine.Dispatcher | ws/dispatcher.go:22-77 | ping, ban, missing chain and run, each with the times it sets and the code it answers; only the last runs the chain, starting with handler 0 by hand |
| EngineOrder.StartedInOrder | ws/context.go:28-41 | for every chain of 1 to 64 handlers, however often they call `Next`: the handlers started are a prefix of the chain, each once, in order, none after the first abort or panic; a chain without either is run to its end |
| EngineBound.CursorStaysWithin | ws/context.go:28-41 | with at most 64 handlers and t, at most 63, calls of `Next` written in them together, every value of the cursor is in 0..64+t |
| EngineBound.CalmCursorStaysWithin | ws/context.go:28-41 | if nothing aborts or panics, it is in 0..n+t, for n+t up to 127 |
| EngineBound.CursorNeverWraps | ws/context.go:28-41 | so if each of at most 63 handlers calls `Next` at most once, it is in 0..64+n, and in 0..2n if nothing aborts or panics |
| EngineBound.EveryHandlerRunsOnce | ws/dispatcher.go:75-76 | without abort and panic, every handler runs exactly once, in order, whichever of them call `Next` and how often, as long as the 8 bits hold the cursor |
| EngineBound.BoundsAreReached | ws/context.go:28-41 | both bounds are met exactly, for every length of chain |
| EngineBound.SixtyFourHandlersWrap | ws/context.go:28-36 | with 64 handlers that each call `Next` once, with or without an abort, the cursor wraps to -128 and the dispatch panics |
| EngineBound.TurnIsLoop | ws/context.go:32-35 | for chains of handlers that neither call `Next` nor panic, one turn of the loop is this function, which is defined for any length |
| EngineBound.SixtyFifthStartsForEver | ws/context.go:28-41 | on a chain of 65 that does nothing until its last handler aborts, the loop stands before a handler after any number of turns, and from turn 64 on has started the last one every time |
| EngineSpans.SpanEndsOnce | middlewares/telemetry.go:24-55 | with Telemetry first, whatever follows and however the dispatch ends, its span ends exactly once, with the status unset if and only if there is no response, ok if and only if its code is 0, and error otherwise |
| EngineSpans.SpanTellsTheResponse | middlewares/telemetry.go:24-55 | with Recovery second too: the dispatch returns if and only if Recovery leaves the cursor at 125 or below, and if and only if every panic was answered with -30 |
| EngineSpans.FewNextsReturn | middlewares/recovery.go:14-31 | it returns if at most 63 calls of `Next` are written in the chain, or each of at most 63 handlers calls it at most once |
| EngineSpans.TooManyNextsPanic | ws/dispatcher.go:75-76 | with 123 calls in one handler behind the two it does not, and the panic is not answered |
| EngineSpans.PanicSettlesTheRequest | middlewares/recovery.go:14-29 | with plain handlers behind the two, a panic that reaches Recovery makes the response -30 and the span an error with exactly one error recorded; without one none is recorded; and a dispatch that returns has seen no other panic |
| EngineMeaning.DispatchIsMeant | ws/context.go:28-41 | up to 64 handlers and with room for the cursor, the engine ends like one without a cursor, where `Next` runs the handlers not started yet and an abort leaves none: same outcome, response and spans, and the same events in the same order |
| EngineEvents.EventsAreAsked | ws/context.go:28-41 | no response, abort or panic occurs more often than the started handlers ask for it, and Recovery for its own; if nothing panics, exactly as often as the started scripts ask for it |
| EngineEvents.PanicsIff | ws/context.go:28-41 | something panics if and only if a handler that panics was started |
| EngineEvents.OccursIff | ws/context.go:28-41 | apart from Recovery only what a started handler sends is sent, and if nothing panics all of it; the same for aborts |
| EngineEvents.PanicIsAnswered | middlewares/recovery.go:14-31 | a started handler that panics behind the two middlewares, among plain ones, makes the response -30 and the span an error with one error recorded, and the dispatch returns |
| EngineEvents.ResponseIsLastSent | ws/context_send.go:4-66 | for any chain of up to 64 and any ending, the response is the code sent last |
| Trie.Trie.Insert | utils/tree/trie_tree.go:26-47 | the linked nodes hold exactly what the value model says after the insert, with every link and every `Count` in place |
| Trie.Trie.Find | utils/tree/trie_tree.go:49-61 | true exactly for the stored words; with the payload of the node, also of one that ends no word |
| Trie.Trie.FindAll | utils/tree/trie_tree.go:64-78 | the payloads of exactly the stored words that extend the prefix, each word once |
| Trie.Trie.Collect | utils/tree/trie_tree.go:81-91 | the same for the words under one node, over its branches in any order |
| Trie.Trie.Del | utils/tree/trie_tree.go:98-131 | the linked nodes hold what the value model says after the deletion: a cleared mark, or the chain below the deepest branch cut off |
| Trie.Trie.Descend | utils/tree/trie_tree.go:104-117 | the loop ends at the node of the word and remembers the deepest branching node and the branch taken there |
| TrieSpec.InsertIsUpdate | utils/tree/trie_tree.go:26-47 | an insert is the update of a plain map on non-empty words, and keeps "`Count` is the number of children" and "every leaf but the root is a word" |
| TrieSpec.InsertHolds | utils/tree/trie_tree.go:26-47 | an insert makes the nodes on the path to the word, marks the last one with the payload, and changes what no other node holds |
| TrieSpec.DelRemovesLost | utils/tree/trie_tree.go:98-131 | a deletion keeps both, and removes exactly the word and, if it ends in a leaf, its stored prefixes from which on no path branches off |
| TrieSpec.DelSparesOthers | utils/tree/trie_tree.go:98-131 | the deleted word is gone; every word that is not a prefix of it keeps its payload |
| TrieSpec.DelLeavesPayload | utils/tree/trie_tree.go:119-130 | a deleted word with a child loses its mark only: all nodes stay, its own with the payload |
| TrieSpec.DelIsRemovalIff | utils/tree/trie_tree.go:119-130 | it is removal from a plain map if and only if the word's node has a child, or after every stored proper prefix a path branches off |
| TrieSpec.DelCanLoseAPrefix | utils/tree/trie_tree.go:119-130 | deleting "ab" from a trie with "a" and "ab" loses "a" |
| TrieSpec.OnlyTheChain | utils/tree/trie_tree.go:108-117 | below the cut there is nothing but the path to the word |
| TrieSpec.RunKeepsShape | utils/tree/trie_tree.go:26-131 | the structure is sound at every point of every run of inserts and deletes |
| TrieSpec.RunIsMapIff | utils/tree/trie_tree.go:26-131 | a run of inserts and deletes stands for the plain map at every point if and only if no delete in it has a stored prefix at risk |
| HubRoster.OnePlace | ws/hubc.go:15-31 | no client is both guest and listed by a user, or listed by two, and only registered users list any |
| HubRoster.ConnectKeepsRosterIff | ws/hubc.go:59-62 | adding a connection keeps the lists sound if and only if it is no guest yet and has no user |
| HubRoster.DisconnectRoster | ws/hubc.go:64-74 | a disconnect, first, late or repeated, keeps the lists sound, takes the client off every list, and leaves every other client where it was |
| HubRoster.DisconnectCloses | ws/user.go:125-144 | it closes the client exactly if that had no user or was still listed by it |
| HubRoster.LoginKeepsRosterIff | ws/hubc.go:157-173 | a login keeps the lists sound if and only if the client is not listed, or listed by this user under this app |
| HubRoster.LoginLists | ws/user.go:94-122 | after a login that fits the client is on the user's list, the only one of its app, and no guest |
| HubRoster.ReplacedIsQueued | ws/user.go:108-115 | the other connection of the app is off every list and reported once to the Disconnect channel |
| HubRoster.ReplacedStaysOpen | ws/user.go:108-144 | the disconnect reported for it, handled at once, leaves it as open as it was |
| HubRoster.LoginReports | ws/user.go:94-118 | a login reports to the Disconnect channel exactly the connection that gives way, once, and nobody if there is none |
| HubRoster.LoginMovesOnly | ws/hubc.go:157-173 | a login that fits puts the client on its user's list, takes the connection that gives way off it and the client off the guests, and moves nobody else |
| HubRoster.LoginSets | ws/hubc.go:157-173 | it sets user, app and mark of this client and registers the user, new if the name was free; nothing else of any client or user changes |
| HubTopics.SubKeepsMirrorIff | ws/pubsub.go:59-61 | subscribing keeps the two sides of all subscriptions equal if and only if the user object is registered, or the registered one holds the topic already |
| HubTopics.UnsubKeepsMirrorIff | ws/pubsub.go:69-75 | unsubscribing keeps them equal if and only if the user object is registered, or the registered one does not hold the topic |
| HubTopics.UnsubTopicKeepsMirrorIff | ws/user.go:58-73 | dropping a topic keeps them equal if and only if the user object is registered, or does not have the topic, or the registered one does not |
| HubTopics.UnsubAllKeepsMirrorIff | ws/user.go:76-91 | dropping all topics keeps them equal if and only if the user object is registered, or the registered one has none of its topics |
| HubTopics.UnsubUndoesSubIff | ws/pubsub.go:59-75 | after subscribing and then unsubscribing a registered user has the topic on neither side and nothing else has changed; so the one undoes the other if and only if the user did not hold the topic before |
| HubTopics.LoginKeepsMirror | ws/hubc.go:157-173 | a login changes no subscription |
| HubTopics.VisitKeeps | ws/hubc.go:89-106 | the guard's visit to a user keeps the lists sound, and the subscriptions mirrored if they were, and removes the user exactly if it is stale |
| HubTopics.SweepResult | ws/hubc.go:79-115 | in whatever order the guard ranges over the users: exactly those with no client and no heartbeat for five minutes are removed, and the login count is the number of users with a client |
| HubTopics.SweepKeepsMirror | ws/hubc.go:79-115 | if the subscriptions were mirrored they still are, and no topic lists a removed user |
| HubMessages.SendAllOnce | ws/client.go:177-186 | sending to a list without repetition gives one copy to each open client on it, one report for each closed one, and nothing to anybody else |
| HubMessages.BroadcastOnce | ws/hubc.go:119-134 | a broadcast gives exactly one copy to every guest and every listed client that is open, in whatever order users are ranged over |
| HubMessages.DrainOnce | ws/pubsub.go:77-91 | a turn of the drain takes the oldest message and gives exactly one copy to every open client of every user subscribed at that moment |
| HubMessages.SendToOnce | ws/context_send.go:4-105 | a response gives its connection exactly one copy if it is open and one report if not; a message to a user does so for all of its clients, one to an app for the user's client of that app |
| HubRuns.StepKeepsClosed | ws/hubc.go:53-181 | whatever the step, every client and user that the hub, a user or a connection refers to stays known |
| HubRuns.StepKeepsRosterIff | ws/hubc.go:53-181 | a step keeps the lists sound if and only if it is no login that does not fit |
| HubRuns.StepKeepsMirrorIff | ws/hubc.go:53-181 | a step keeps the two sides of all subscriptions equal if and only if it does not change one through a user object that is not registered, in a way that matters |
| HubRuns.RunIsSoundIff | ws/hubc.go:53-181 | over any run, the lists are sound and every outbox is in publication order at every point if and only if every login fits |
| HubRuns.RunIsGoodIff | ws/hubc.go:53-181 | over any run, that and mirrored subscriptions hold at every point if and only if every login fits and no user object that is not registered changes a subscription in a way that matters |
| HubRuns.NothingLost | ws/pubsub.go:40-91 | over any run, what was published is what was delivered and what still waits, which is in the order of publication |
| HubRuns.DeliveredInOrder | ws/pubsub.go:40-91 | the k-th delivery of any run is of message number k |
| HubPublished.StepAnnounces | ws/hubc.go:53-181 | every step publishes on exactly its topics, in order, behind what still waits: one for an arrival, a login and a publication, one or two for a leave, and those of the guard |
| HubPublished.WaitingTopics | ws/pubsub.go:40-91 | over any run, what waits is the publications not delivered yet, each on its topic |
| HubPublished.DeliveredOnItsTopic | ws/pubsub.go:40-91 | the k-th delivery of any run is of message number k, on the topic of the k-th publication |
| HubEffects.ListsChange | ws/hubc.go:53-181 | exactly who is a guest, and on whose list, after any step: only an arrival, a leave, a login, and a login in its place move a client |
| HubEffects.ClientsChange | ws/hubc.go:53-181 | the whole client after any step: its login sets user, app and mark, its leave closes it, its outbox grows by what arrives, nothing else changes it |
| HubEffects.UsersChange | ws/hubc.go:79-173 | the registered users after any step: a login adds its user, the guard removes those without client and heartbeat for 300 seconds |
| HubEffects.PeopleChange | ws/user.go:50-91 | name, topics and heartbeat of a user after any step: only its own subscriptions, its removal and its heartbeat change them |
| HubEffects.NamesChange | ws/pubsub_topic.go:14-27 | exactly the names a topic lists after any step |
| HubEffects.CountsStay | ws/hubc.go:107-113 | only the guard sets the counts of logins and guests |
| HubReports.StepReports | ws/client.go:177-186 | what a step puts on the Disconnect channel for a client: an ended reader or writer, a login in its place, each message sent to it when closed; only its leave takes one off |
| HubReports.ReportsAreKept | ws/hubc.go:64-74 | in a run whose logins fit, every report of a client is handled once or still waits |
| HubReports.BeatKeepsUser | ws/hubc.go:89-106 | after a heartbeat no guard that runs less than 300 seconds later removes the user, whatever happens in between |
| HubRuns.ReceivedIsHeard | ws/pubsub_topic.go:29-39 | over any run whose logins fit, a client's outbox is exactly the messages delivered while it was open and listed by a subscribed user, those broadcast while it was open and listed, and the responses and direct messages for it while it was open, each once, in order |
| HubOpen.StepKeepsOpenIff | ws/hubc.go:53-181 | a step keeps all guests and all clients of users open if and only if it is no login of a closed client |
| HubOpen.RunStaysOpenIff | ws/hubc.go:53-181 | at every point of a run whose logins fit all listed clients are open if and only if no closed one logs in |
| HubOpen.BroadcastReachesAll | ws/hubc.go:119-134 | in such a run a broadcast puts exactly one copy into every guest's and every listed client's outbox, and no sending fails |
| HubOpen.ReceivedIsDue | ws/pubsub_topic.go:29-39 | in such a run every client's outbox is exactly what was delivered while it was listed by a subscribed user, broadcast while it was listed, sent to its user, and answered while it was open, each once, in order |
| HubOpen.AdriftUntilLogin | ws/hubc.go:53-181 | over any run whose logins fit, a client with a user that is on no list stays so, and as open as it was, until it logs in |
| HubOpen.ReplacedIsNeverClosed | ws/user.go:94-144 | from the login that replaces it on, at every later point of any run whose logins fit, a connection is on no list and as open as it was, until it logs in again |
| HubWitness.ListedClientLogsInAgain | ws/hubc.go:157-173 | a run after which a listed client logs in under another name, or another app, and the lists are not sound |
| HubWitness.TwiceListedHearsTwice | ws/hubc.go:119-173 | a run after which such a login lists a client twice, and a broadcast then gives it two copies |
| HubWitness.ReplacedConnection | ws/user.go:108-144 | a run that ends with a replaced connection whose disconnect was handled and that is still open |
| HubWitness.StraySubscribes | ws/pubsub.go:59-61 | a run after which a user object the guard has removed subscribes, and only the topic records it |
| HubWitness.StrayUnsubscribes | ws/pubsub.go:69-75 | a run after which such an object unsubscribes, and takes the registered user of the name off the topic only |
| HubWitness.StrayDrops | ws/user.go:58-91 | a run after which such an object drops a topic, or all of them, with the same effect |
| HubWitness.LateLogin | ws/hubc.go:157-173 | a run that ends with a closed client listed, which a broadcast does not reach |
| Hub.Hubc.Accept | ws/server_handler_http.go:43-56 | a new client with no user arrives as a guest |
| Hub.Hubc.Connect | ws/hubc.go:59-62 | the objects follow the step of the value model, guests and the message published |
| Hub.Hubc.Disconnect | ws/hubc.go:64-74 | the same for one message of the Disconnect channel |
| Hub.Hubc.AppLogin | ws/user.go:94-122 | the same for a login at the user, with the connection that gives way |
| Hub.Hubc.AppLogout | ws/user.go:125-144 | the same for a logout: the first entry of the app with this connection is taken off and the client closed |
| Hub.Hubc.UserLogin | ws/hubc.go:157-173 | the same for a login at the hub, with a new user object if the name is not registered |
| Hub.Hubc.RemoveGuest | ws/hubc.go:176-181 | the first occurrence is removed from the guests |
| Hub.Hubc.Pub | ws/pubsub.go:40-56 | the topic exists afterwards and the message is last in the queue |
| Hub.Hubc.Sub | ws/pubsub.go:59-61 | both sides record the subscription, nothing else changes |
| Hub.Hubc.Unsub | ws/pubsub.go:69-75 | both sides drop it, if the topic exists |
| Hub.Hubc.UnsubTopic | ws/user.go:58-73 | both sides drop it, if the user has it |
| Hub.Hubc.UnsubAllTopics | ws/user.go:76-91 | both sides of all subscriptions of the user are dropped, in any order |
| Hub.Hubc.InitTopic | ws/pubsub.go:21-37 | an existing topic object is kept, a missing one made |
| Hub.Hubc.SendMsg | ws/client.go:177-186 | one more message in the outbox, or a report to the Disconnect channel if the client is closed |
| Hub.Hubc.SendTo | ws/user.go:190-206 | a response, a message to all clients of a user, or one to its client of an app, puts the message into exactly those outboxes |
| Hub.Hubc.AppClient | ws/user.go:147-156 | the first client of the app on the user's list, if any |
| Hub.Hubc.CloseClient | ws/client.go:194-206 | the client is closed, however often it is called |
| Hub.Hubc.Heartbeat | ws/client.go:148-151 | the heartbeat of a connection becomes its user's |
| Hub.Hubc.AddSubTopic | ws/user.go:50-56 | the user has the topic |
| Hub.Hubc.Broadcast | ws/hubc.go:119-134 | every list is served, guests first |
| Hub.Hubc.SendToUsers | ws/pubsub_topic.go:29-39 | the users of the set that are registered are served, in the order of the range |
| Hub.Hubc.Drain | ws/pubsub.go:77-91 | the objects follow one turn of the drain |
| Hub.Hubc.VisitUser | ws/hubc.go:89-106 | the objects follow the guard's visit to one user |
| Hub.Hubc.Guard | ws/hubc.go:87-114 | the objects follow one tick of the guard, with both counts and both announcements |
| RouterState.AppendSeenBy | ws/router.go:44-47 | what an append does to another slice: it is overwritten from the end of the first on, if it shares the array and the append is in place |
| RouterState.AppendChangesIff | ws/router.go:44-47 | it changes another slice if and only if that one reaches into the cells written and holds something else there |
| RouterState.RouteStays | ws/manager.go:27-29 | no step of any run changes a registered chain |
| RouterState.RouteIsForEver | ws/router.go:28-42 | at every later point the chain registered by `Add` is the members of the router at the time, followed by the handlers |
| RouterState.NewRouterMakes | ws/router.go:22-26 | a new router has no middlewares and its routes have their own names |
| RouterState.UseMakes | ws/router.go:44-47 | `Use` makes a router with the middlewares behind those of the other and the same groups; the other keeps its slices |
| RouterState.GroupMakes | ws/router.go:49-52 | `Group` makes a router with the same middlewares, whose routes have the group's name and a dot in front |
| RouterState.AddRegisters | ws/router.go:28-42 | `Add` registers this route only, members first and then the handlers |
| RouterState.UseKeepsAncestors | ws/router.go:44-47 | at every point of every run `Use` changes the middlewares neither of its router nor of any router that one was made from, in one or more steps |
| RouterState.GroupKeepsAncestors | ws/router.go:49-52 | `Group` changes their group paths as little |
| RouterState.UseIsFaithfulIff | ws/router.go:44-47 | `Use` leaves every router with its own middlewares if and only if no other router's slice holds something else in the cells written |
| RouterState.SiblingsShareTheLastCell | ws/router.go:44-47 | two routers made from one with a spare cell: the first ends up with the middleware of the second |
| RouterState.GroupIsFaithfulIff | ws/router.go:49-52 | `Group` leaves every router with its own group path if and only if no other router's path has another name in the cell written |
| RouterState.SiblingGroupsShareTheLastName | ws/router.go:28-52 | two groups made from one router with a spare cell: routes added to the first one afterwards get the second one's name |
| RouterState.RunIsFaithfulIff | ws/router.go:44-52 | over any run, every router holds its middlewares and groups at every point if and only if no `Use` or `Group` overwrites a cell in which another router holds something else |
| RouterState.OneChildRunIsFaithful | ws/router.go:44-52 | in any run that makes at most one router from each, every router holds its middlewares and groups, whatever the capacities |
| RouterState.GroupIsPrefix | ws/router.go:29-31 | a route outside of groups has its own name; one added in a nested group has the name of the route added outside with the group's name and a dot in front |
| Router.GoAppend | ws/router.go:45-45 | `append` over real arrays does exactly what the append of the value model does, cell by cell: in place while the capacity lasts, else into a new array |
| Router.SharersSee | ws/router.go:44-52 | another slice of the same real array is changed by an append if and only if it reaches into the cells written and held something else there |
| Router.ActionManager.Use | ws/router.go:44-47 | the new router's members are the old ones and the new ones, in the old array or a new one as the append of the value model says; the caller's router and all registered chains stay |
| Router.ActionManager.Group | ws/router.go:49-52 | the same for the group path |
| Router.ActionManager.Add | ws/router.go:28-42 | a duplicate name fails and changes nothing; otherwise exactly this route is added, with members and handlers |
| Router.ActionManager.Has | ws/manager.go:31-34 | whether the name is registered |
| Router.ActionManager.Handlers | ws/manager.go:36-38 | the registered chain, or none |
| Router.ActionManager.NewRouter | ws/router.go:22-26 | a router without members and groups |
| Docgen.ExtractMiddlewares | internal/docgen/parser.go:231-243 | the selector names of the arguments that are selector calls, in order |
| Docgen.BuildMiddlewareMap | internal/docgen/parser.go:170-228 | the two loops compute the analysis that the lemmas are about |
| Docgen.ParseRouterFile | internal/docgen/parser.go:109-169 | the listed routes with the chains of their variables at the end of the analysis |
| Docgen.KeptIs | internal/docgen/parser.go:231-243 | each argument that is a call adds its selector, any other nothing |
| Docgen.KeptOfBoth | internal/docgen/parser.go:231-243 | an argument list split at any place gives the one part and then the other |
| Docgen.AnalysedMore | internal/docgen/parser.go:170-228 | what one more statement does to the analysis, by cases: `Use` on a variable, `Use` on anything else, anything else, no variable |
| Docgen.DocumentedMore | internal/docgen/parser.go:109-169 | an `Add` of a named route with a handler is listed, with the chain of its variable, or none if it is on no variable; nothing else is |
| Docgen.EntersRightIff | internal/docgen/parser.go:185-225 | one assignment is analysed rightly if and only if it is a `Use` with selector-call middlewares on a variable or on something without middlewares, or makes no middlewares at all |
| Docgen.RightThroughoutIff | internal/docgen/parser.go:170-228 | the analysis is right about every prefix of a function if and only if it can follow every assignment in it |
| Docgen.PlainFunctionsAreRight | internal/docgen/parser.go:170-228 | it is right about functions built from `NewRouter()`, `NewRouter().Use(..)` and `x.Use(..)`, even if variables are assigned twice |
| Docgen.ChainsAreLost | internal/docgen/parser.go:188-205 | it loses the chain behind `Group`, behind a second name, and behind a second `Use` |
| Docgen.DocumentedIff | internal/docgen/parser.go:139-146 | given right chains, the documented routes are the registered ones if and only if each variable ends with the chain it had at the `Add` |
| Docgen.ReassignedIsWrong | internal/docgen/parser.go:139-146 | a plain function that assigns a variable after adding a route through it, and is documented wrongly |
| Docgen.DocumentationIsRight | internal/docgen/parser.go:109-228 | for plain functions that assign no variable after adding a route through it, the documented chains are those registered |
| DocgenRuns.RunMatches | ws/router.go:22-47 | at every point of a run on routers that share arrays, each variable holds a router meant to have the chain of the plain reading |
| DocgenRuns.RouteIsServedAsDocumentedIff | internal/docgen/parser.go:109-228 | after the run of a plain function, a route whose variable is not assigned after its `Add` is served by its documented middlewares and then its own handlers if and only if its router held its own middlewares, by name, at the `Add` |
| DocgenRuns.NextIsFaithfulIff | ws/router.go:22-52 | a statement leaves every router with its own middlewares if and only if it overwrites no cell in which another router holds something else |
| DocgenRuns.RoutesAreServedAsDocumented | internal/docgen/parser.go:109-228 | so it is for every such route before which no statement overwrites anything |
| DocgenRuns.OneChildIsServedAsDocumented | internal/docgen/parser.go:109-228 | and in a function that makes at most one router from each before the `Add`, whatever the capacities |
| Changelog.SnapshotFile.GenerateGlobalChangelog | internal/docgen/generator.go:517-635 | no entry exactly outside a repository or if the files have the actions of the last snapshot; else one of this version, with exactly the actions that the files have and the snapshot has not, and the other way round, and the snapshot is stored |
| Changelog.SnapshotFile.StoreSnapshot | internal/docgen/generator.go:601-626 | the first snapshot of the version is replaced in place, or a new one appended; the last 50 stay |
| Changelog.ReportIs | internal/docgen/generator.go:552-600 | the same of the entry as a value |
| Changelog.SaveIs | internal/docgen/generator.go:601-626 | a version not stored is put at the end, where the oldest of 50 gives way; else the first snapshot of the version is replaced where it stands and no other changes |
| Changelog.NothingToSave | internal/docgen/generator.go:517-600 | without a repository or a change the file stays |
| Changelog.RunIsTidy | internal/docgen/generator.go:601-626 | in every run whatsoever the stored versions are distinct and at most 50 |
| Changelog.SavedIsNewestIff | internal/docgen/generator.go:601-626 | what is saved becomes the newest snapshot if and only if its version is the newest stored one or is not stored |
| Changelog.ReplayIff | internal/docgen/generator.go:517-635 | replaying the log gives the newest snapshot at every point of a run if and only if every version written comes in order |
| Changelog.ReplayIsCurrent | internal/docgen/generator.go:517-635 | after such a run the log and the newest snapshot both give the current actions |
| Changelog.OlderVersionIsNotReplayed | internal/docgen/generator.go:607-616 | going back to an older version makes them differ |
| Changelog.FileIsTheLatest | internal/docgen/generator.go:618-626 | in a run in order the file is exactly the last 50 snapshots ever stored |
| IdCheck.MakeVerifyBit | utils/regx/id.go:48-61 | the loop gives the check character of the weighted sum, or nothing for another length |
| IdCheck.CheckID | utils/regx/id.go:9-85 | every path: length, area, check step and birthday; 15 characters from a known area end in a panic |
| IdCheck.AreasAre | utils/regx/id.go:28-38 | the areas are exactly 11 to 15, 21 to 23, 31 to 37, 41 to 46, 50 to 54, 61 to 65, 71, 81, 82 and 91 |
| IdCheck.ValuesAre | utils/regx/id.go:48-75 | a digit counts for what it shows, anything else for zero, and a final X for 10 |
| IdCheck.PassesIff | utils/regx/id.go:45-75 | the check step passes if and only if the digits times powers of 2 and the check value give 1 modulo 11, as ISO 7064 MOD 11-2 asks |
| IdCheck.FactorsArePowers | utils/regx/id.go:45-45 | the table of factors stands for the powers of 2 modulo 11 |
| IdCheck.ChangedDigitPassesIff | utils/regx/id.go:45-75 | one of the first 17 characters can be changed only into one of the same value |
| IdCheck.ChangedCheckPassesIff | utils/regx/id.go:71-75 | the check character can be changed only into one of the same value |
| IdCheck.SwapPassesIff | utils/regx/id.go:45-75 | two of the first 17 characters can be swapped only if they have the same value or are 10 places apart |
| IdCheck.LastSwapPassesIff | utils/regx/id.go:45-75 | the last two characters can be swapped if and only if they are the same digit, or 1 and X in either order, or both X |
| IdCheck.SwappedXPasses | utils/regx/id.go:45-75 | a number that ends in 1X and passes, and still does with X1 |
| IdCheck.LetterForZeroPasses | utils/regx/id.go:55-56 | a character that is no digit can stand for a zero |
| IdCheck.SuchANumberPasses | utils/regx/id.go:45-75 | a number that passes, and still does with a letter in place of a zero |
| Uid.Generator.GenSid | utils/uidgen/simple_uid.go:21-36 | the counter moves to the next number or to the clock, whichever is larger, and the text is made from date and number |
| Uid.Generator.GenId | utils/uidgen/simple_uid.go:14-18 | the number parsed from that text, or the end of the range |
| Uid.BaseTells | utils/uidgen/simple_uid.go:25-27 | the base tells hour, minute, second and tenth of a millisecond |
| Uid.NextIsMax | utils/uidgen/simple_uid.go:28-33 | a call gets the next number, or the time if that is larger |
| Uid.IdIs | utils/uidgen/simple_uid.go:14-36 | for years 1925 to 2924 the number is the year counted from 1925, the day of the year plus 521 and the sequence number, in 3, 3 and 10 digits |
| Uid.NumbersIncrease | utils/uidgen/simple_uid.go:28-33 | for any readings of the clock, also backwards, later calls get larger numbers |
| Uid.NextGrowsIff | utils/uidgen/simple_uid.go:29-33 | a call gets a larger number if and only if the 64 bits are not exhausted |
| Uid.OverlappingCallsCollideIff | utils/uidgen/simple_uid.go:29-33 | when two calls overlap and whichever finishes first, they get the same number if and only if the first one's clock is ahead of both and agrees with the second's, or with the number the second took |
| Uid.NoonCallsCollide | utils/uidgen/simple_uid.go:29-33 | two first calls that both read noon get the same text |
| Uid.SixteenDigitsIff | utils/uidgen/simple_uid.go:35-35 | the text has exactly 16 digits if and only if the year is 1925 to 2924 and the number below ten billion |
| Uid.SixteenDigitIdIff | utils/uidgen/simple_uid.go:14-18 | then the number has 16 digits if and only if the year is 2025 or later |
| Uid.TextsAreDistinct | utils/uidgen/simple_uid.go:21-36 | any two calls of a process get different texts, if the later number has at most ten digits, whatever the dates, or if the year parts are equally long, whatever the numbers |
| Uid.SameWidthForYears | utils/uidgen/simple_uid.go:23-23 | the year parts are equally long from 1925 to 2924 |
| Uid.TenDigitsLast | utils/uidgen/simple_uid.go:28-33 | the first 1.36 billion calls of a process get numbers of at most ten digits |
| Uid.IdsAreDistinct | utils/uidgen/simple_uid.go:14-18 | so are the numbers, for years 1925 to 2924 and while the later sequence number has at most ten digits |
| Decimal.ParseOfShow | utils/string2id.go:27-30 | `ParseInt` undoes `%d` exactly within 64 bits |
| Decimal.ParseIff | utils/string2id.go:27-30 | `ParseInt` reads exactly one or more digits after at most one sign, within 64 bits |
| Decimal.PadDigitsIff | utils/uidgen/simple_uid.go:35-35 | a zero-padded number has the given number of digits if and only if it fits |
| Decimal.PadIs | utils/uidgen/simple_uid.go:35-35 | a padded number is as wide as asked or as it needs, and still stands for the number |
| DecimalList.StringToSlice | utils/string2id.go:17-40 | the numbers that parse, converted to the type, each at its first place only |
| DecimalList.IntSliceToString | utils/string2id.go:42-58 | the distinct numbers joined by single commas |
| DecimalList.SpacesAre | utils/string2id.go:22-22 | what is trimmed is the white space of Unicode |
| DecimalList.ParsedMore | utils/string2id.go:17-40 | one more part adds its trimmed and converted number at the end, if it parses and the number is new |
| DecimalList.PrintedMore | utils/string2id.go:42-58 | one more number adds a comma and the number, if it is new |
| DecimalList.ConvertWraps | utils/string2id.go:32-32 | the conversion keeps the number up to a multiple of 2 to the power of the width |
| DecimalList.TrimIsInner | utils/string2id.go:22-22 | trimming takes away the spaces at both ends, all of them and nothing else |
| DecimalList.JoinOfSplit | utils/string2id.go:18-18 | splitting cuts a text at exactly its commas |
| DecimalList.ParsedOfPrinted | utils/string2id.go:17-58 | reading back what was printed gives the list without later duplicates and without numbers beyond `int64` |
| DecimalList.ReparseIff | utils/string2id.go:17-58 | printing and reading again changes nothing of what was read from a text, if and only if no part of the text stands for a number beyond `int64` |
| DecimalList.ReparseIsStable | utils/string2id.go:17-58 | so it changes nothing for all types but the unsigned ones of 64 bits |
| DecimalList.UnsignedReparseIff | utils/string2id.go:17-58 | for those it changes nothing if and only if no part of the text reads as a negative number |
| DecimalList.NegativesAreLost | utils/string2id.go:32-32 | for those every negative number is lost |
| Azdg.CipherEncode | utils/encrypt/azdg.go:60-68 | each byte of the result is that byte of the text mixed with a byte of the hash, around its 32 bytes |
| Azdg.Encrypt | utils/encrypt/azdg.go:20-33 | byte by byte: the noise, and the text mixed with it, each masked by the hash |
| Azdg.Decrypt | utils/encrypt/azdg.go:35-58 | nothing for an odd length, else each pair unmasked and mixed |
| Azdg.DecryptUndoesEncrypt | utils/encrypt/azdg.go:20-68 | decryption undoes encryption for every text, key and noise |
| Azdg.EncryptIsInjective | utils/encrypt/azdg.go:20-33 | a cipher text stands for one text, whatever the noise |
| Aes.AesEncrypt | utils/encrypt/encrypt_aes.go:15-28 | the text with its padding, each block mixed with the vector or the block of cipher text before and then encrypted |
| Aes.AesDecrypt | utils/encrypt/encrypt_aes.go:31-44 | each block decrypted and mixed with the same, then as many bytes cut off as the last one tells; with the panics of the library and of the empty text, and the error of the padding |
| Aes.EnciphersBlocks | utils/encrypt/encrypt_aes.go:24-26 | block `k` of the cipher text is the encryption of that of the text mixed, byte by byte, with the vector or block `k` - 1 of the cipher text |
| Aes.DeciphersBlocks | utils/encrypt/encrypt_aes.go:38-41 | block `k` of the text is the decryption of that of the cipher text, mixed with the same |
| Aes.PaddedIs | utils/encrypt/encrypt_aes.go:58-62 | the padding is 1 to 16 bytes up to a whole block, each of which tells how many they are |
| Aes.UnpadUndoesPad | utils/encrypt/encrypt_aes.go:58-73 | removing the padding gives the text back |
| Aes.PadUndoesUnpadIff | utils/encrypt/encrypt_aes.go:64-73 | padding again gives the text back if and only if it was well padded (section 6.3 of RFC 5652) |
| Aes.DecipherUndoesEncipher | utils/encrypt/encrypt_aes.go:24-41 | chaining and its inverse (section 6.2 of NIST SP 800-38A) undo each other, over any invertible block cipher |
| Aes.DecryptUndoesEncrypt | utils/encrypt/encrypt_aes.go:15-44 | decryption undoes encryption for every text |
| Aes.EncryptUndoesDecryptIff | utils/encrypt/encrypt_aes.go:15-44 | encryption undoes decryption if and only if the text was well padded |
| Aes.BadPaddingIsAccepted | utils/encrypt/encrypt_aes.go:64-73 | a badly padded text whose cipher text is accepted, under every block cipher |
| LogRing.Client.Log | ws/client.go:167-173 | one more line, the oldest of 100 overwritten |
| LogRing.Client.GetRecentLogs | ws/client.go:217-234 | exactly the last 100 lines, oldest first, or all if there are fewer |
| LogRing.RecentIsLast | ws/client.go:167-234 | the same of the ring as a value, after any lines |
| LogRing.Client.Close | ws/client.go:194-215 | however often it is called, the channel is closed once and one line logged |

## Left out

- Engine.Dispatcher: asks that no chain is longer than 64, because with 65 handlers one that aborts is started again for ever (`EngineBound.SixtyFifthStartsForEver`), so the run has no end state.
- Engine.Context.Next: asks for at most 64 handlers, for the reason given for the dispatcher.
- Engine.Context.Handle: the same.
- Engine.Context.Perform: the same; and a handler is a fixed script, which loses nothing for chains of at most 64, because each handler starts at most once in a dispatch (`EngineOrder.StartedInOrder`); parsing of the request and the contents of responses are not modelled.
- EngineSpans.PanicSettlesTheRequest: with a further Recovery behind the two, the handlers around it go on after a panic and can answer anything; of that case only `EngineSpans.SpanTellsTheResponse` speaks.
- EngineMeaning.DispatchIsMeant: asks for room for the cursor, and so do the laws of `EngineEvents` about panics and responses, because a cursor that wraps panics without any handler asking for it (`EngineBound.SixtyFourHandlersWrap`).
- Concurrency: each step of the hub is atomic, and outboxes and queues are unbounded, so nothing is said about blocking, liveness, or the unlocked fields.
- HubRuns.ReceivedIsHeard: asks that the logins of the run fit, and so do the results of `HubOpen`; after one that does not, a client can be listed twice and get a message twice (`HubWitness.TwiceListedHearsTwice`).
- Hub.Hubc.Drain: functions subscribed to a topic are not called, because they can do anything; the contents of messages are left out.
- Hub.Hubc.Guard: the hook that can be set for the guard is not called, for the same reason.
- Hub.Hubc.Sub: subscription times are left out; the topics and the queue of the PubSub object are fields of the hub.
- Trie.Trie.Del: asks, as the code does without saying so, that the path exists and the word's node has at most one child.
- Trie.Trie.FindAll: the order of the payloads is that of ranging over Go maps, so it is any order.
- Docgen.BuildMiddlewareMap: statements in a straight line with the first target and value of each assignment; function literals, loops and branches are not modelled, nor are the groups in the names of documented routes.
- Docgen.ParseRouterFile: an `Add` is a statement of its own; the code also lists one that is nested in another expression or in a block.
- DocgenRuns.RouteIsServedAsDocumentedIff: routes whose name is no string literal and registration functions with other statements are outside of it.
- Changelog.SnapshotFile.GenerateGlobalChangelog: the lists are sets, so their order is left out, as are time stamps, files that do not parse and failing writes.
- IdCheck.CheckID: whether the eight characters of the birthday are a date is a parameter; a string is a sequence of bytes.
- Uid.Generator.GenSid: the fields of the clock are read as one consistent reading.
- Uid.TextsAreDistinct: the counter starts at zero and the process makes fewer calls than 64 bits can count; it is for calls that do not overlap, because overlapping ones can collide.
- DecimalList.StringToSlice: all errors of `ParseInt` are alike, as they are for the code.
- Azdg.Encrypt: base64, MD5 and the random source are left out; noise and hash are any 32 bytes.
- Aes.AesEncrypt: the block cipher is any invertible function on blocks and the vector any block; SHA-1 and the key schedule are left out.
- LogRing.Client.Log: the text of a line is formatted before; time stamps are part of it.
- Sockets, the HTTP upgrade, JSON and YAML, configuration, stores, workers, templates, statistics, the MCP server, validation, geography and money helpers: wrappers, or facts about other libraries.
