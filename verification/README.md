# Verified model of the pizza cluster

A Dafny model of a cluster of agents that know each other by UDP gossip, each able to do some
actions and holding some recipes, and that make an ordered pizza by handing a payload from node to
node over TCP. The model follows the Rust sources file by file and proves what holds in every run:
whatever is lost, duplicated, reordered, late, tried again or done twice.

The main results:

- **Orders** (`OrderResults`, `OrderTermination`): in every reachable state of the whole cluster, an
  order reported complete is the recipe ordered, every action done once, in order, by a node that
  can do it; a failure names the first action not done. Copies of an order live on after lost
  answers, and all of this holds for each of them. No handler gets stuck, and without new requests
  only a bounded number of handler steps is possible.
- **Reliable orders** (`ReliableOrders`, `ClusterConvergence`): if from its placing on nothing goes
  wrong with an order, and its handlers act on converged peer tables, it completes exactly when every
  action of its recipe is covered; otherwise it fails for the first that is not, with exactly the prefix
  before it done. For an own recipe that is what the recipe list of the node reports. What happened
  before, and what happens to other orders, does not matter. Such an order can always be brought to its
  result, and unless a group of nodes is cut off gossip can always lead to converged tables.
- **Gossip** (`GossipNetwork`, `GossipFlooding`, `GossipConvergence`): what a peer table says about a
  node is nothing or the truth, no version is ahead of its originator, every recorded round-trip time
  is the time from a ping to the pong that answered it, and flooding dies out.
  `GossipHistory` says over whole runs what is recorded of the past: when each peer was last heard,
  exactly who is evicted for its silence, and how many announcements a node has made.
- **Recipes** (`RecipeWire`, `RecipeExact`, `RecipeRoundTrip`): printing and parsing are inverse for
  whole files, any layout of a recipe reads as the same recipe with the same canonical text, and it
  is stated exactly which actions, steps, recipes and lists of recipes survive printing, with no
  assumption on them. An error is that of the first step that does not parse (`RecipeErrors`).
- **Panics** (`RecipePanics`, `OddRecipes`): exactly on which files the parser panics. It can do so on a
  recipe that was read from a file and printed again, but only if a token of it holds LF CR LF, which
  only a file with CR CR LF can leave there.
- **Time** (`Calendar`, `Timestamp`): the closed-form date is day-by-day counting, and it is stated
  exactly when timestamps sort by time: until the end of the year 9999, and for two instants when the
  text of the later year is not smaller. Reading a timestamp is the inverse of writing it.

## How the modules fit together

| modules | what they hold |
|---|---|
| `Text`, `StringOrder`, `Counting` | trimming, searching, splitting, joining; lexicographic order; counting characters |
| `Recipe`, `RecipeSpec`, `RecipeParser` | recipe values, printer and flattener; the parser as functions, its loops as methods proved equal to them |
| `RecipeLayout`, `RecipeRoundTrip`, `RecipeCanon` | every way to lay a recipe out; parsing a layout gives its meaning; canonical texts |
| `RecipeParallel`, `RecipeExact`, `RecipeBook`, `RecipeWire`, `RecipeSample` | exactly which steps, recipes and files read back; one file written out |
| `LineEnds`, `RecipeErrors`, `RecipePanics`, `OddRecipes` | line ends; which error is reported; exactly when the parser panics; recipes that are read once and not again |
| `Gossip`, `GossipNetwork`, `GossipFlooding`, `GossipConvergence`, `GossipHistory` | one node's table (functions, and a class updated in place); all nodes and datagrams as a step system; its measure; how tables converge; what they say about the past |
| `Orders`, `Handlers`, `HandlerSteps`, `Connections` | payloads and traces; the handlers of one node as methods with loops, and the shared map of waiting orders as a class; the same handlers against the step system; one TCP connection |
| `OrderSystem`, `Traces`, `OrderInvariant`, `OrderPreservation` | every handler thread, delivery and channel as a step system; its invariant and the proof that every step keeps it |
| `ClusterSystem`, `OrderResults`, `OrderTermination`, `ReliableOrders`, `ClusterConvergence`, `Listing` | gossip and orders together; the theorems about reachable states; the recipe list |
| `Calendar`, `Timestamp` | dates and their text |

The order system has one program counter per TCP connection being handled. A request handed to a
peer may not reach it, may be answered, or may be handled by a thread whose answer is lost or late;
in the last two cases the copy lives on. A `Deliver` once written may be received never, late, or
any number of times. Peer tables are those of the gossip system at that very moment, so routing
rests on what gossip has come to, not on an assumption.

Of a cluster only `ClusterOk` is asked: each identity is filed under its own address. Nodes keep
their identity and talk only to each other. What an order runs is what the parser reads from the
canonical text of the recipe, because that is what the code does even with a recipe of its own. Where
a theorem says that this is the recipe itself, it asks for `ServedOnFile`: that the one recipe ordered
reads back, which `RecipeWire` turns into conditions on its tokens.

## Where code and documentation differ

- `MakeDough` adds nothing to the content (`src/server/handlers.rs:510`);
  the protocol document gives it the line `Dough: ready`. The model follows the code.
- A `Deliver` entry is added by the node that receives a successful delivery
  (`src/server/handlers.rs:456-464`), not by the one that finishes the payload.
- An announcement replaces the recorded version even by an older one
  (`src/network/udp/gossip.rs:392`); only pings and pongs compare versions. Recorded versions are
  therefore bounded by their originator's, but not monotone: `Gossip.VersionGoesBackIff` says when.
- The entry of an order in the map of waiting orders is left behind by an error or a panic between
  the receipt and the first drive, and only then (`OrderResults.EntryLeftIffEarlyError`).
- Not every parsed recipe reads back from its canonical text: `A^2()` is an action named `A^2` and
  prints as `A^2`, which is `A` twice (`RecipeCanon.PrintedNameCanChangeMeaning`).
  And from `X = A(k=x`, CR, CR, LF, `y)` a value with a CRLF is read, which is an LF the next time.
  `RecipeWire.WireRoundTripsIff` says exactly which recipes read back.
- The parser panics on some files (`OddRecipes.ParserCanPanic`; `RecipePanics.ParserPanicsIff` says
  exactly which), and on the canonical text of some
  recipes it has read: from `X = )(k=x`, LF, CR, CR, LF, `y)` it reads a recipe with whose text an
  order dies (`OddRecipes.LoadedRecipeCanPanic`, `OrderResults.OrderCanDie`).

## Model

| member | source | states |
|---|---|---|
| `OrderResults.CompletedOrderIsRight` | src/server/handlers.rs:136-296 | in every reachable state of every cluster a completed order carries this order's id and creation time, the content of its actions in order, and a full trace ending in the hand-over to its host and exactly one delivery; its actions are those read from the recipe of that name, the node's own if it has one |
| `OrderResults.CompletedOrderIsTheRecipe` | src/server/handlers.rs:184-231 | when the recipe ordered reads back, content and trace are those of the flattened recipe some node holds under that name, the ordering node if it does |
| `OrderResults.FailedOrderNamesUndoneAction` | src/server/handlers.rs:389-417 | a failed order names the first action not done, on a payload delivered as failed that has done everything before it and came from a node that cannot do it |
| `OrderResults.TraceIsTrue` | src/server/handlers.rs:321-349 | every copy of every payload records exactly the actions done, each by the node of the nearest preceding `Forward`, which can do it; its forwards are exactly the nodes it came through; at most one hop per action done plus the one just made |
| `OrderResults.NeverToItself` | src/server/handlers.rs:351-383 | whatever a thread was handed came from another node; a payload's chain grows by exactly its receiver; a peer's recipe request is never passed on |
| `OrderResults.EveryHopAdvances` | src/server/handlers.rs:321-349 | a node that is handed a payload runs at least one action of it |
| `OrderResults.PeerAnswersItself` | src/server/handlers.rs:93-127 | a recipe request from a peer is answered by its first receiver, from its own recipes |
| `OrderResults.PlaceholderMeansDelivered` | src/server/handlers.rs:309-417 | along any chain a drive answers an error, or the empty placeholder, and then a `Deliver` for the order has been written |
| `OrderResults.FrameShapes` | src/server/tcp.rs:49-93 | the frames of an order are always a refusal, an error, or a receipt followed by a result, a failure or an error, or the start of that |
| `OrderResults.NoOrderDies` | src/server/handlers.rs:217-231 | an order of a recipe that was read from a file and holds no LF CR LF in a token is never lost to a parser panic |
| `OrderResults.DeadOrderHadPanic` | src/server/handlers.rs:217-231 | an order thread dies only of a canonical text on which the parser panics, at an action text that closes before it opens |
| `OrderResults.OrderCanDie` | src/server/handlers.rs:217-231 | from every reachable state, an order of an own recipe whose canonical text the parser panics on can be lost to that |
| `OrderResults.ClientNeverSurprised` | src/cli/client_impl.rs:242-292 | on any part of those frames the client never takes an "unexpected" branch, and what it calls delivered is a result |
| `OrderResults.ClientReportsTheEnd` | src/cli/client_impl.rs:242-292 | in every reachable state the client that reads everything reports `Delivered`, `Failed`, `Declined` or `Error` exactly if the order ended with that frame, with the same content, and no answer exactly if it has not ended or its thread died |
| `OrderResults.SlotIsFree` | src/server/handlers.rs:173-181 | at most one message is ever put on an order's channel, and none while its entry is in the map |
| `OrderResults.EntryLeftIffEarlyError` | src/server/handlers.rs:173-282 | an order that has ended left its entry behind exactly if it ended between its receipt and driving its payload, in an error or a panic |
| `OrderResults.HistoryKept` | src/server/handlers.rs:229-247 | along every run the payload an order was created with, the deliveries written and what a channel was sent never change |
| `OrderPreservation.WorkStepOk` | src/server/handlers.rs:136-485 | every step of every handler, every new request and every delivery keeps the invariant of threads, payloads, deliveries, channels and pending entries |
| `OrderPreservation.LookUpOk` | src/server/handlers.rs:93-127 | looking a recipe up yields its source, or candidates that all have the recipe when this node does not |
| `OrderPreservation.BeginDriveOk` | src/server/handlers.rs:184-247 | the payload is made from what the text of the recipe ordered is read as, and starts empty at this node; anything else ends the order |
| `OrderPreservation.SourceReadsBack` | src/server/handlers.rs:217-231 | when the recipe reads back, the text fetched is read as the recipe some node holds under that name |
| `OrderPreservation.RunHereOk` | src/server/handlers.rs:321-371 | after its own actions a node only goes on to peers that can do the next one, which it cannot |
| `OrderPreservation.ReceiveOk` | src/server/handlers.rs:441-485 | a delivery received any number of times signals its order once at most and keeps the invariant |
| `OrderPreservation.OneEntryPerOrder` | src/server/handlers.rs:173-181 | an order has one entry in all the maps of waiting orders together |
| `ClusterSystem.RunOk` | src/node.rs:45-91 | in every state of every run of gossip and orders together both invariants hold |
| `ClusterSystem.TablesTrue` | src/server/handlers.rs:351-364 | in every reachable state a peer that a table lists for an action can do it, and one that it lists for a recipe has it |
| `OrderTermination.StepUsesUp` | src/server/handlers.rs:309-431 | every handler step strictly uses up a bound computed from what its thread and the copies it may start can still do |
| `OrderTermination.HandlersFinish` | src/server/handlers.rs:607-638 | along such a run the handler steps made and the effort left never exceed the effort at the start |
| `OrderTermination.HandlersStop` | src/server/handlers.rs:607-638 | from any reachable state there is a bound on the handler steps of every run without new requests, whatever network and gossip do |
| `OrderTermination.NoHandlerStuck` | src/server/handlers.rs:136-431 | in every reachable state every handler that has not returned has a step to take |
| `OrderTermination.ThreadCanMove` | src/server/handlers.rs:249-282 | a thread whose answer or message is there can move on without anything going wrong |
| `ReliableOrders.CompletesIffNothingMissing` | src/server/handlers.rs:22-56 | so an order of an own recipe completes exactly if the recipe list says nothing is missing; else it fails for the first action listed as missing |
| `ReliableOrders.CompletesIffCovered` | src/server/handlers.rs:351-417 | the same for every order, of an own or of a fetched recipe: it completes exactly if every action of the recipe it got is covered; else it fails for the first that is not, with exactly everything before it done |
| `ReliableOrders.QuietMeansAnswered` | src/server/handlers.rs:184-295 | when an order of a recipe that some node has has nothing left to do in a converged cluster, it has its result |
| `ReliableOrders.GoodOrdersSettle` | src/server/handlers.rs:249-295 | going on with such an order without a fault leads to a state where it has nothing left to do |
| `ReliableOrders.OrderCanBeSettled` | src/server/handlers.rs:136-296 | in every reachable state with converged tables an order newly placed for a recipe that some node has can be brought to its result, a pizza exactly if nothing is missing for that recipe |
| `ClusterConvergence.ClusterConverges` | src/network/udp/gossip.rs:242-264 | in every reachable state in which no group of nodes is cut off, gossip alone can lead to tables that tell every node what every other can do and has |
| `ClusterConvergence.OrderCanBeServed` | src/server/handlers.rs:136-296 | in every such state an order newly placed for a recipe that some node has can be brought to its result, a pizza exactly if each of its actions has a node that can do it |
| `ReliableOrders.CompletedMeansPossible` | src/server/handlers.rs:342-349 | in any network an order completes only if somebody has the capability for each of its actions |
| `ReliableOrders.GoodStepKeepsClean` | src/server/handlers.rs:93-127 | while nothing goes wrong with an order, giving up means that nobody can, or nobody has the recipe, and no drive of it ends in an error, whatever other orders do |
| `Traces.RunKeepsProgress` | src/server/handlers.rs:321-430 | running the actions a node can do keeps content, trace and index in step and does not move the payload |
| `Traces.CopyKeepsProgress` | src/server/handlers.rs:621-638 | the copy handed to a peer differs by one hop, to that peer |
| `Traces.ContentConcat` | src/server/handlers.rs:507-550 | content is put together from the lines of its actions, in order, wherever they were done |
| `Traces.ContentIsLines` | src/server/handlers.rs:507-550 | without line breaks in names and parameters the content is one whole line for each action but `MakeDough` |
| `Traces.RecordsAppended` | src/server/handlers.rs:419-429 | appended action records are read back as exactly those actions, by the same holder |
| `Orders.ExecuteLocally` | src/server/handlers.rs:321-430 | the loop runs every action the node can do, one after the other, and stops at the end or at the first it cannot do |
| `Orders.TryForwardPayload` | src/server/handlers.rs:621-638 | the answer is that of the first peer that answers; exactly the peers reached up to it get a copy each, in order, with one `Forward` |
| `Orders.ReachedAre` | src/server/handlers.rs:621-638 | those are the candidates reached before any answer, and the one that answers |
| `Orders.PendingOrders.Register` | src/server/handlers.rs:173-181 | a fresh empty channel is entered for the order and nothing else changes |
| `Orders.PendingOrders.HandleDeliver` | src/server/handlers.rs:441-485 | the entry is taken out and its channel gets the one message; sending never meets a full slot; an unknown order changes nothing |
| `Orders.PendingOrders.Remove` | src/server/handlers.rs:257-282 | the entry is gone, others stay |
| `Handlers.HandleProcessPayload` | src/server/handlers.rs:309-431 | a finished payload goes to its host with one more `Forward`; an unfinished one to each peer that can go on, in some order, until one answers with the answer; if none does, the host is told which action is unavailable |
| `Handlers.HandleGetRecipe` | src/server/handlers.rs:93-127 | the first own recipe of that name; else what a peer advertising it answers; an error only if none answers |
| `Handlers.TryForwardGetRecipe` | src/server/handlers.rs:607-619 | the answer of the first peer that answers |
| `Handlers.HandleOrder` | src/server/handlers.rs:136-296 | every frame written: refusal, failed receipt, or receipt and the end that the text fetched, the parser, the drive and the channel lead to; the payload set on its way; the entry left behind exactly if there is a receipt but no payload |
| `Handlers.FetchText` | src/server/handlers.rs:184-214 | the text is the one `handle_get_recipe` answers with |
| `Handlers.RunOrder` | src/server/handlers.rs:217-295 | parse, drive, and answer with the drive's answer or with what the channel yields; the client never gets the placeholder in place of a result |
| `Handlers.FirstAnswer` | src/server/handlers.rs:607-638 | trying peers in any order fails exactly if none of them answers |
| `Handlers.CopyIsCopy` | src/server/handlers.rs:621-630 | the copies the loop sends are exactly those of the step system |
| `HandlerSteps.DeclinedIffUnknown` | src/server/handlers.rs:136-181 | an order is declined exactly if neither the node nor any peer in its table has the recipe, and is entered in the map exactly with its receipt |
| `HandlerSteps.PayloadIsWhatIsRead` | src/server/handlers.rs:217-242 | the payload an order sets on its way is exactly the one with the whole sequence that its text is read as, at index 0, empty, for this order and host; no other and none otherwise |
| `HandlerSteps.DriveBeginsWithIt` | src/server/handlers.rs:217-242 | it is the payload with which the order's thread goes on in the step system, and with no other |
| `HandlerSteps.NoPayloadEnds` | src/server/handlers.rs:217-231 | without one the thread ends in an error, or dies exactly if the parser panics |
| `HandlerSteps.AnswerSettles` | src/server/handlers.rs:249-295 | an answer that is no placeholder ends the order's thread as the last frame |
| `HandlerSteps.SignalEnds` | src/server/handlers.rs:249-295 | after a placeholder the thread parks, and the first message on its channel ends it with the frame the handler writes |
| `HandlerSteps.TimeoutEnds` | src/server/handlers.rs:249-282 | with an empty channel the time runs out, and the frame is the error the handler writes |
| `HandlerSteps.FinishedIsFinish` | src/server/handlers.rs:321-341 | a payload the handler finished is delivered as the step system delivers it |
| `HandlerSteps.GivenUpIsReported` | src/server/handlers.rs:366-417 | one that nobody took is reported to its host as the step system reports it, and then no capable peer answers |
| `HandlerSteps.TakenIsAnswered` | src/server/handlers.rs:351-388 | one that was taken is answered with the answer of a peer that can go on |
| `Connections.HandleConnection` | src/server/tcp.rs:49-93 | no frame for a delivery, the frames of its handler for an order, and the answer of its own handler for everything else; only deliveries and orders touch the map |
| `Connections.Dispatch` | src/server/tcp.rs:96-118 | each request gets the answer of its own handler |
| `Listing.HandleListRecipes` | src/server/handlers.rs:22-87 | whatever order the maps are iterated in, the answer is the same list, with every own and every advertised recipe and no other, each where it is |
| `Listing.ListIsRight` | src/server/handlers.rs:22-87 | the list holds exactly the own names and the names some peer advertises; an own name is local with what is missing for the last recipe of that name, any other is remote at the least address that advertises it |
| `Listing.MissingIsUncovered` | src/server/handlers.rs:40-46 | missing actions are exactly those nobody known covers, none twice |
| `Listing.MissingInOrder` | src/server/handlers.rs:40-46 | missing actions come in recipe order |
| `Listing.FirstMissing` | src/server/handlers.rs:40-46 | the first missing action is the first that nobody covers |
| `Listing.OwnRecipeListed` | src/server/handlers.rs:34-56 | an own recipe, the last of its name, is listed as local with its missing actions |
| `Listing.CollectHosts` | src/server/handlers.rs:59-77 | each advertised recipe is listed at the least address that advertises it |
| `GossipNetwork.RunOk` | src/network/udp/gossip.rs:222-436 | in every state of every run, tables and datagrams tell the truth about capabilities and recipes or nothing, no version is newer than its originator's, and every round-trip time starts at a ping's sending |
| `GossipNetwork.StepKeepsOk` | src/network/udp/gossip.rs:138-283 | delivery, loss, duplication, eviction and heartbeats keep that, and versions and clocks never go back |
| `GossipNetwork.OwnVersionNeverDecreases` | src/network/udp/gossip.rs:78-82 | a node's own version never decreases along a run |
| `GossipNetwork.PongRttExact` | src/network/udp/gossip.rs:308-319 | an echo taken apart and put together again gives the time since its ping was sent |
| `GossipNetwork.PongRecorded` | src/network/udp/gossip.rs:308-319 | whenever a pong arrives in a run, its receiver's table records exactly the receipt time minus the send time of the ping it answers |
| `GossipNetwork.RttCameFromPong` | src/network/udp/gossip.rs:415-436 | every round-trip time in a table of a run was recorded at such an arrival |
| `GossipNetwork.HandleKeepsTable` | src/network/udp/gossip.rs:290-321 | each kind of datagram leaves every table entry true and timely |
| `GossipNetwork.RepliesOk` | src/network/udp/gossip.rs:242-264 | replies and relays say nothing untrue |
| `GossipHistory.LastSeenIsLastHeard` | src/network/udp/gossip.rs:377-436 | in every state of every run the time recorded for a peer is its reader's clock when it last handled an announcement of that peer or a ping or pong from it, or 0 if it never did since the entry is there |
| `GossipHistory.EvictsTheSilent` | src/network/udp/gossip.rs:169-191 | in every run eviction removes exactly the other peers that were heard, and last heard more than ten seconds ago, and touches no other entry |
| `GossipHistory.VersionCounts` | src/network/udp/gossip.rs:78-82 | in every state of every run a node's counter is its first plus the number of announcements it has made, up to the largest 64-bit number, in its first generation |
| `GossipHistory.AnnouncementsGrow` | src/network/udp/gossip.rs:78-82 | of two announcements a node makes in a run the later carries the larger counter of the same generation, unless the earlier carries the largest 64-bit number |
| `GossipHistory.LaterLifeWins` | src/network/udp/transport.rs:37-39 | of what is recorded and what a ping or pong says the larger generation stays, whatever the counters; in the same generation the larger counter |
| `GossipHistory.AnnouncementLearnt` | src/network/udp/gossip.rs:377-413 | an announcement sets capabilities, recipes, version and time of its node, keeps the round-trip time, enters exactly the other addresses it lists as unknown and leaves every other entry alone |
| `GossipHistory.CheckLearnt` | src/network/udp/gossip.rs:415-436 | a ping or pong keeps what its sender announced, records the newer of both versions and the time, and leaves every other entry alone |
| `GossipHistory.AnsweredIsRelayed` | src/network/udp/gossip.rs:242-264 | after an announcement that taught an address it is in flight to every known peer but its reader and its sender, once, and the reader's own announcement to the sender; after any other nothing new is in flight |
| `GossipHistory.PingIsAnswered` | src/network/udp/gossip.rs:290-321 | a ping puts exactly one pong in flight, with the time it carried and the reader's version; a pong nothing |
| `GossipHistory.HeartbeatReachesAll` | src/network/udp/gossip.rs:138-163 | a heartbeat puts one announcement with identity, known peers and new version in flight to every known peer but oneself |
| `GossipHistory.PingsReachAll` | src/network/udp/gossip.rs:193-216 | and a ping with the sender's time and version |
| `GossipFlooding.FloodingEnds` | src/network/udp/gossip.rs:242-264 | over finitely many addresses a run of deliveries and losses has at most as many steps as its measure |
| `GossipFlooding.DeliverShrinks` | src/network/udp/gossip.rs:242-321 | each delivery lowers the measure: unknown addresses first, then what is in flight, a ping above a pong |
| `GossipConvergence.GossipConverges` | src/network/udp/gossip.rs:138-163 | from every state in which no group of nodes is cut off there is a run of announcements and deliveries after which every node has the truth about every other |
| `GossipConvergence.NothingNewMeansAll` | src/network/udp/gossip.rs:377-413 | when no announcement would teach anybody anything, every node has the truth about every other |
| `Gossip.AnnounceAnsweredIffTableGrows` | src/network/udp/gossip.rs:14-23 | an announcement is answered and relayed exactly when the set of known peers grows |
| `Gossip.LastSeenRoundTrips` | src/network/udp/gossip.rs:49-70 | a time stamp is split into whole seconds under key 1 and microseconds under key -6, and putting it together with overflow checks is the identity exactly on `u64` |
| `Gossip.DecodedIff` | src/network/udp/gossip.rs:61-70 | a time comes out exactly of seconds and microseconds that fit 64 bits together |
| `Gossip.EchoMeasures` | src/network/udp/gossip.rs:72-76 | an echo measures the time since its ping, or 0 if the clock was set back |
| `Gossip.NewerIsStrictTotalOrder` | src/network/udp/transport.rs:37-39 | the version order is a strict total order |
| `Gossip.VersionGoesBackIff` | src/network/udp/gossip.rs:377-436 | a recorded version goes back exactly at an announcement about that peer with an older one |
| `Gossip.GossipNode.constructor` | src/node.rs:57-91 | a node starts with unknown peers and counter zero |
| `Gossip.GossipNode.NextLocalVersion` | src/network/udp/gossip.rs:78-82 | the own version is bumped, saturating |
| `Gossip.GossipNode.ApplyAnnounce` | src/network/udp/gossip.rs:377-413 | the sender's entry is replaced, unknown peers are added, never oneself, and the flags say whether the key set grew |
| `Gossip.GossipNode.ApplyCheck` | src/network/udp/gossip.rs:415-436 | the version only goes up, the rest of the entry is refreshed |
| `Gossip.GossipNode.RemoveStalePeers` | src/network/udp/gossip.rs:169-191 | exactly the peers not heard of for too long go, and their number is returned |
| `Gossip.GossipNode.HandleUdpMessage` | src/network/udp/gossip.rs:290-321 | new state and reply are those of the step system |
| `Gossip.GossipNode.ProcessOneDatagram` | src/network/udp/gossip.rs:222-264 | the reply goes to the sender, then an answered announcement to everybody else known, once each |
| `RecipeBook.FileRoundTrips` | src/recipe/parser.rs:66-76 | printing any list of recipes that read back one by one, joined by blank lines, and parsing gives the list back |
| `RecipeBook.WireRoundTrips` | src/server/handlers.rs:217-231 | a recipe's canonical text parses to that recipe alone, so both sides of the wire flatten to the same actions |
| `RecipeWire.WireRoundTripsIff` | src/server/handlers.rs:217-231 | exactly which recipes `parse_recipes` reads back from their text: those that survive as one block and hold no blank line and no CRLF in a token |
| `RecipeWire.FileRoundTripsIff` | src/recipe/parser.rs:66-76 | exactly which lists of recipes read back from their texts joined by blank lines: those all of whose recipes do |
| `RecipeWire.ParsedRecipeCount` | src/recipe/mod.rs:29-77 | printing a parsed recipe takes no character that the syntax does not write more often than its block held it |
| `RecipeBook.FileReads` | src/recipe/parser.rs:66-173 | any file laid out in any way, multi-line or flat, parses to what it means with canonical sources |
| `RecipeBook.LineEndsReadTheSame` | src/recipe/parser.rs:66-76 | line ends of either kind, mixed in any way, change nothing |
| `RecipeBook.BlocksOfFile` | src/recipe/parser.rs:66-76 | a file is cut at blank lines and nowhere else |
| `RecipeSample.SampleReads` | src/recipe/parser.rs:66-173 | a file over two lines with tab, blanks, CR and leading zero, the recipe it is read as, its canonical text and its flat sequence, written out |
| `RecipeRoundTrip.RecipeReads` | src/recipe/parser.rs:129-173 | every layout of a recipe parses to the same recipe with the same source |
| `RecipeRoundTrip.StepReads` | src/recipe/parser.rs:184-192 | every layout of a step parses to that step |
| `RecipeRoundTrip.ActionReads` | src/recipe/parser.rs:275-293 | every layout of an action parses to that action |
| `RecipeRoundTrip.ArgsRead` | src/recipe/parser.rs:302-321 | parameters in any layout and order give the same map, a later key winning |
| `RecipeRoundTrip.LastParamWins` | src/recipe/parser.rs:302-321 | of several parameters with the same key the last is kept |
| `RecipeRoundTrip.SplitParallelReads` | src/recipe/parser.rs:332-361 | tokens with balanced parentheses and no comma outside them come back exactly, commas inside parameters included |
| `RecipeRoundTrip.CaretFound` | src/recipe/parser.rs:200-218 | the caret found is the one before the count, not one inside parentheses |
| `RecipeRoundTrip.TimesReads` | src/recipe/parser.rs:250-263 | a repeated step is read with its count, leading zeros or not |
| `RecipeRoundTrip.TogetherReads` | src/recipe/parser.rs:227-244 | a parallel step is read action by action |
| `RecipeCanon.CanonLayoutIs` | src/recipe/mod.rs:29-37 | the canonical text is one of the layouts of its recipe |
| `RecipeCanon.CanonStepIs` | src/recipe/mod.rs:42-55 | the canonical text of a step is a layout of that step |
| `RecipeCanon.CanonActionIs` | src/recipe/mod.rs:65-77 | the canonical text of an action is a layout of that action, its parameters in sorted key order |
| `RecipeCanon.ActionRoundTripsIff` | src/recipe/parser.rs:275-293 | printing and parsing give an action back exactly if it has the shape of a parsed one; so re-canonicalising is idempotent |
| `RecipeCanon.ParsedActionShape` | src/recipe/parser.rs:275-321 | every action the parser returns has that shape |
| `RecipeCanon.SingleRoundTripsIff` | src/recipe/parser.rs:184-192 | exactly which single steps survive printing |
| `RecipeCanon.RepeatedRoundTripsIff` | src/recipe/parser.rs:250-263 | exactly which repeated steps survive printing |
| `RecipeParallel.ParallelRoundTripsIff` | src/recipe/parser.rs:227-244 | exactly which parallel steps survive printing |
| `RecipeExact.StepRoundTripsIff` | src/recipe/parser.rs:184-192 | exactly which steps survive printing |
| `RecipeExact.RecipeRoundTripsIff` | src/recipe/parser.rs:129-173 | exactly which recipes survive printing as one block: the name is trimmed, non-empty and free of `=`, and each step survives, has some text and holds no arrow |
| `RecipeExact.ParsedRecipeShape` | src/recipe/parser.rs:129-173 | the shape of every recipe the parser returns |
| `RecipeExact.ParsedRecipeFree` | src/recipe/parser.rs:129-321 | the tokens of a parsed recipe hold no pair of characters that its text does not hold |
| `RecipeExact.LaidOutIsReadable` | src/recipe/mod.rs:29-37 | recipes with a canonical layout read back |
| `RecipeCanon.PrintedNameCanChangeMeaning` | src/recipe/parser.rs:184-218 | every name that ends like a repeat count is parsed from a call and read back as a repeat |
| `RecipeCanon.DecimalReads` | src/recipe/mod.rs:52-54 | a printed count is read as that number |
| `RecipeSpec.ParsedIsCanonical` | src/recipe/parser.rs:129-173 | every recipe parsed has a name, a step and its own canonical text |
| `RecipeErrors.ErrorNumbersFirstBadStep` | src/recipe/parser.rs:129-173 | for each error of a block what is wrong with it; a step number in it is that of the first step that does not parse, counted from 1 |
| `RecipeErrors.BlockFailsAsItsStep` | src/recipe/parser.rs:149-153 | a block fails with exactly the error of its first bad step, whatever comes after |
| `RecipeErrors.FileFailsAsItsBlock` | src/recipe/parser.rs:66-76 | a file fails with exactly the error of its first bad block |
| `RecipeErrors.RepeatRefusedIff` | src/recipe/parser.rs:250-263 | a repeat count is refused exactly if it is 0 or does not fit 32 bits |
| `RecipeErrors.ActionUnmatchedIff` | src/recipe/parser.rs:275-293 | an action is an unmatched bracket exactly if it opens a parenthesis and has none that closes |
| `RecipeErrors.StepErrors` | src/recipe/parser.rs:184-293 | every error of a step carries its number, or a parameter without `=` |
| `RecipeSpec.ParseActionPanicsIff` | src/recipe/parser.rs:275-293 | the parser panics on an action exactly if it has both parentheses and every closing one comes before every opening one |
| `RecipePanics.ParserPanicsIff` | src/recipe/parser.rs:66-293 | `parse_recipes` panics exactly if in the first block that does not parse, in the first step that does not parse, the first action text that does not parse has both parentheses and closes before it opens |
| `LineEnds.NormaliseIsLf` | src/recipe/parser.rs:66-76 | replacing CRLFs is one pass from left to right |
| `OddRecipes.ParserCanPanic` | src/recipe/parser.rs:66-293 | there is a file on which `parse_recipes` panics |
| `OddRecipes.LoadedRecipeCanPanic` | src/recipe/parser.rs:66-293 | there is a file that is parsed to a recipe on whose canonical text `parse_recipes` panics |
| `RecipePanics.LoadedReturns` | src/recipe/parser.rs:66-293 | it does not panic on the canonical text of any recipe it has read whose tokens hold no LF CR LF |
| `RecipePanics.StepReturns` | src/recipe/parser.rs:184-293 | the canonical text of any parsed step is parsed or refused |
| `RecipePanics.CleanFileLeavesNone` | src/recipe/parser.rs:66-76 | a file without CR CR LF leaves no CRLF in a token, so none of its recipes can make the parser panic later |
| `RecipeParser.ParseParamList` | src/recipe/parser.rs:302-321 | the loop computes the parameter map or the first error |
| `RecipeParser.SplitParallelActions` | src/recipe/parser.rs:332-361 | the scan computes the tokens that `SplitParallelReads` is about |
| `RecipeParser.FindCaret` | src/recipe/parser.rs:200-218 | the scan finds the caret that `CaretFound` is about |
| `RecipeParser.FlattenRecipe` | src/recipe/parser.rs:93-109 | the loops compute the flat sequence |
| `Recipe.FlattenLocates` | src/recipe/parser.rs:93-109 | each step's actions come right after those of all steps before it |
| `Recipe.StepsInPlace` | src/recipe/parser.rs:93-109 | right after the places of the steps before it a single step has one place with its action, a parallel step one for each of its actions in their order, a repeated step as many as its count says, all with its action |
| `Recipe.FlattenLength` | src/recipe/parser.rs:93-109 | and there are no other places |
| `Calendar.CivilCountsDays` | src/cli/client_impl.rs:77-91 | for every day number the closed form is that many applications of the next-day rule from 1970-01-01, and a valid date |
| `Calendar.CivilNext` | src/cli/client_impl.rs:77-91 | the closed form moves on by exactly one day |
| `Calendar.DayNumberRecovers` | src/cli/client_impl.rs:77-91 | the date determines the day number |
| `Calendar.LaterDayLaterDate` | src/cli/client_impl.rs:77-91 | later days have later dates |
| `Calendar.YearOfEraExact` | src/cli/client_impl.rs:82-87 | the year of the 400-year era is the one the day falls in, so no subtraction underflows |
| `Timestamp.TimestampsOrdered` | src/cli/client_impl.rs:70-94 | a later time has a later text while the year has four digits |
| `Timestamp.TextOrderIsYearOrder` | src/cli/client_impl.rs:70-94 | exactly when a later instant has a larger text, for all years: when the text of its year is not smaller |
| `Timestamp.SortsExactlyTo9999` | src/cli/client_impl.rs:70-94 | all instants up to a given second sort by their texts exactly if its year has at most four digits |
| `Timestamp.FiveDigitYearsSortFirst` | src/cli/client_impl.rs:93 | the first second of the year 10000 sorts before the second before it |
| `Timestamp.SecondsRecovered` | src/cli/client_impl.rs:77-91 | date and time of day determine the second |
| `Timestamp.TimestampSays` | src/cli/client_impl.rs:70-94 | up to the year 9999 the text has the 27 characters of section 5.6 of RFC 3339 with six digits of fraction and `Z`, and its numbers are the date, the time of day and the microseconds |
| `Timestamp.TimestampReads` | src/cli/client_impl.rs:70-94 | reading those numbers, the day counted from the date, gives exactly the instant written |
| `Timestamp.PaddedIsFixed` | src/cli/client_impl.rs:93 | zero padding writes exactly the fixed-width digits |

## Left out

- CBOR, serde and JSON encoding: messages are structured values, and the result text is an injective record.
- Sockets, locks and timeouts: every critical section is one step, and every timeout, lost request and lost answer is a choice. A datagram whose sending fails counts as lost.
- UUIDs: an order's id is different from those of all orders so far. Timestamps in traces are arbitrary.
- Node restarts, and nodes with changed capabilities or recipes at an address: identities are fixed. Only nodes of the cluster send datagrams and forward payloads.
- A node reads its clock once per datagram; the code may read it twice, the second time not earlier.
- `src/network/tcp.rs` framing, `src/store.rs`, `src/tui`, command-line parsing and logging, and the compatibility decoding of old recipe lists: display and plumbing.
- Bootstrap addresses, `bootstrap_peers`: any set of unknown peers is a start.
- The texts of most error messages: where no property depends on them, the step system allows any.
- Unicode beyond the White_Space property, which trimming uses: characters are compared as code points, with no normalisation.
- Recipes with blank blocks or empty arrows (`A -> -> B`) are read by the parser function, but layouts do not describe them.
- Traces.ContentIsLines: the wording of each line is that of the code and is not stated again.
- Handlers.HandleOrder: one node's view, with what comes through the channel given from outside; how other threads interleave with it is in the step system, where the same phases appear one by one.
- OrderResults.NoOrderDies: the condition on a recipe's tokens is sufficient; exact is only the one on its text, `RecipePanics.ParserPanicsIff`, because a blank line inside a token leaves pieces of steps.
- ClusterConvergence.ClusterConverges: gossip can always converge; that it does in every run with enough heartbeats and no losses is not stated.
- OrderResults.CompletedOrderIsTheRecipe: is about a recipe that reads back; for any other `OrderResults.CompletedOrderIsRight` says that what is read is what is run.
- ReliableOrders.CompletesIffNothingMissing: is about a recipe that reads back and whose name no other recipe of the node has, because the list keeps the last of several and an order takes the first; `ReliableOrders.CompletesIffCovered` asks for neither.
