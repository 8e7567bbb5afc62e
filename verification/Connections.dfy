/** One TCP connection: which handler answers, and how many frames are written. */
module Connections {
  import opened Text
  import opened Gossip
  import opened Orders
  import opened Handlers
  import opened Listing

  datatype Request =
    | ListRecipes
    | GetRecipe(wanted: string)
    | PlaceOrder(recipeName: string)
    | ProcessPayload(payload: Payload)
    | DeliverOrder(delivery: DeliverMsg)
    | Other

  datatype Frame = Plain(message: TcpMessage) | Listed(recipes: map<string, Availability>)

  /** What comes from outside while the request is handled. `answerLost`: the last write fails. */
  datatype Surroundings = Surroundings(orderId: string, now: nat, receiptFails: Option<string>,
                                       outcome: Addr -> Attempt, written: Option<string>,
                                       signal: Option<TcpMessage>, answerLost: bool)

  function Frames(ms: seq<TcpMessage>): seq<Frame> {
    seq(|ms|, i requires 0 <= i < |ms| => Plain(ms[i]))
  }

  /** The answer of each request's own handler. */
  ghost predicate Answers(id: Identity, peers: PeerTable, request: Request, world: Surroundings, answer: Frame)
    requires !request.PlaceOrder? && !request.DeliverOrder?
  {
    match request
    case ListRecipes => answer == Listed(RecipeList(id, peers))
    case GetRecipe(name) => answer.Plain? && RecipeAnswered(id, peers, name, world.outcome, answer.message)
    case ProcessPayload(p) =>
      answer.Plain? && ProcessAnswer(id, peers, "unknown", p, world.outcome, world.written, answer.message)
    case Other => answer == Plain(Error("unexpected message type"))
  }

  /** `dispatch`: one answer for everything but orders and deliveries. */
  method Dispatch(id: Identity, peers: PeerTable, request: Request, world: Surroundings) returns (answer: Frame)
    requires !request.PlaceOrder? && !request.DeliverOrder?
    ensures Answers(id, peers, request, world, answer)
  {
    hide Processed, RecipeAnswered;
    match request {
      case ListRecipes =>
        var recipes := HandleListRecipes(id, peers);
        answer := Listed(recipes);
      case GetRecipe(name) =>
        var m := HandleGetRecipe(id, peers, name, world.outcome);
        answer := Plain(m);
      case ProcessPayload(p) =>
        var m, q, sent, delivery := HandleProcessPayload(id, peers, "unknown", p, world.outcome, world.written);
        assert ProcessAnswer(id, peers, "unknown", p, world.outcome, world.written, m);
        answer := Plain(m);
      case Other => answer := Plain(Error("unexpected message type"));
    }
  }

  /** What the client of an order gets: all that the handler wrote, or all but the last answer if
      writing that failed. A thread that died after the receipt has no last answer. */
  ghost predicate OrderAnswered(id: Identity, peers: PeerTable, name: string, world: Surroundings, frames: seq<Frame>) {
    exists ms, driven ::
      && OrderFrames(id, peers, name, world.orderId, world.now, world.receiptFails, world.outcome, world.written,
                     world.signal, ms, driven)
      && |frames| == (if world.answerLost && !Died(ms) then |ms| - 1 else |ms|)
      && forall k :: 0 <= k < |frames| ==> frames[k] == Plain(ms[k])
  }

  predicate Died(ms: seq<TcpMessage>) {
    |ms| == 1 && ms[0].OrderReceipt?
  }

  /** A refusal alone, or the receipt and at most one more. */
  lemma OrderFramesFew(id: Identity, peers: PeerTable, name: string, world: Surroundings,
                       ms: seq<TcpMessage>, driven: Option<Payload>)
    requires OrderFrames(id, peers, name, world.orderId, world.now, world.receiptFails, world.outcome, world.written,
                         world.signal, ms, driven)
    ensures |ms| == 1 || (|ms| == 2 && ms[0] == OrderReceipt(world.orderId))
    ensures Died(ms) ==> ms[0] == OrderReceipt(world.orderId)
  {
    hide Fetched, PayloadFor, ProcessAnswer;
  }

  /** A delivery gets no answer and takes its order out of the map; an order gets its frames; and
      everything else one answer, which leaves the map alone. */
  method HandleConnection(id: Identity, peers: PeerTable, pending: PendingOrders, request: Request, world: Surroundings)
    returns (frames: seq<Frame>)
    requires pending.Valid() && world.orderId !in pending.entries
    modifies pending, pending.entries.Values
    ensures pending.Valid()
    ensures request.DeliverOrder? ==>
      frames == [] && pending.entries == old(pending.entries) - {request.delivery.payload.orderId}
    ensures request.PlaceOrder? ==> OrderAnswered(id, peers, request.recipeName, world, frames)
    ensures request.PlaceOrder? && world.answerLost ==> frames == [] || frames == [Plain(OrderReceipt(world.orderId))]
    ensures request.PlaceOrder? ==>
      old(pending.entries).Keys <= pending.entries.Keys <= old(pending.entries).Keys + {world.orderId}
    ensures !request.DeliverOrder? && !request.PlaceOrder? ==>
      && pending.entries == old(pending.entries)
      && (world.answerLost ==> frames == [])
      && (!world.answerLost ==> |frames| == 1 && Answers(id, peers, request, world, frames[0]))
  {
    hide Answers, OrderFrames;
    match request {
      case DeliverOrder(d) =>
        var known := pending.HandleDeliver(d, world.now);
        frames := [];
      case PlaceOrder(name) =>
        var ms, driven := HandleOrder(id, peers, pending, name, world.orderId, world.now,
                                      world.receiptFails, world.outcome, world.written, world.signal);
        OrderFramesFew(id, peers, name, world, ms, driven);
        var last := if world.answerLost && !Died(ms) then |ms| - 1 else |ms|;
        frames := Frames(ms[..last]);
      case _ =>
        var answer := Dispatch(id, peers, request, world);
        frames := if world.answerLost then [] else [answer];
    }
  }
}
