/** Orders across the cluster as a step system: one thread per TCP connection being handled,
    the maps of waiting orders, the channels, and every `Deliver` message ever written.

    A request to a peer may never reach it, may be answered, or may be handled by a thread whose
    answer is lost or comes too late; then the next peer is tried and several copies of the order
    live on. A `Deliver` may be received late, never, or any number of times. */
module OrderSystem {
  import opened Text
  import opened Recipe
  import opened RecipeSpec
  import opened Gossip
  import opened Orders

  /** What a thread was started for: a client's order, a recipe asked for by a client or by a
      peer, or a payload handed over by a peer. */
  datatype Kind = OrderKind(name: string) | RecipeKind(wanted: string) | ProcessKind

  datatype Phase =
    | Received                                              // handle_order, before the receipt
    | Asked(name: string)                                   // handle_get_recipe
    | Asking(name: string, left: seq<Addr>)                 // try_forward_get_recipe
    | AwaitingRecipe(name: string, left: seq<Addr>, child: nat)
    | RecipeDone(answer: TcpMessage)
    | LeftEarly                                             // handle_order, error before driving
    | Crashed                                               // the parser panicked in this thread
    | Arrived(payload: Payload)                             // handle_process_payload
    | Trying(payload: Payload, left: seq<Addr>)             // try_forward_payload
    | Waiting(payload: Payload, left: seq<Addr>, child: nat)
    | Finishing(payload: Payload)
    | Driven(answer: TcpMessage)
    | Parked                                                // handle_order, on its channel
    | Woken(answer: TcpMessage)
    | Returned

  /** `hops` is the chain of nodes the thread's payload came through; `frames` is what an order
      thread has written to its client. */
  datatype Thread = Thread(node: Addr, kind: Kind, orderId: string, parent: Option<nat>,
                           hops: seq<Addr>, frames: seq<TcpMessage>, phase: Phase)

  /** `born` remembers the payload each order was created with. */
  datatype Work = Work(threads: seq<Thread>, pending: set<(Addr, string)>,
                       channel: map<string, seq<TcpMessage>>, delivers: seq<DeliverMsg>,
                       born: map<string, Payload>)

  const EMPTY := Work([], {}, map[], [], map[])

  // ── What a node knows ─────────────────────────────────────────────────────────

  predicate HasRecipe(id: Identity, name: string) {
    exists i :: 0 <= i < |id.recipes| && id.recipes[i].name == name
  }

  /** `iter().find(|r| r.name == name)`. */
  function FindRecipe(recipes: seq<Recipe>, name: string): (r: Option<Recipe>)
    ensures r.Some? ==> r.value in recipes && r.value.name == name
    ensures r.None? ==> forall x :: x in recipes ==> x.name != name
  {
    if recipes == [] then None
    else if recipes[0].name == name then Some(recipes[0])
    else FindRecipe(recipes[1..], name)
  }

  lemma FoundIffHas(id: Identity, name: string)
    ensures FindRecipe(id.recipes, name).Some? <==> HasRecipe(id, name)
  {
    if FindRecipe(id.recipes, name).None? {
      forall k | 0 <= k < |id.recipes| ensures id.recipes[k].name != name { assert id.recipes[k] in id.recipes; }
    } else {
      var k :| 0 <= k < |id.recipes| && id.recipes[k] == FindRecipe(id.recipes, name).value;
    }
  }

  /** Peers that advertise a recipe, or a capability. */
  function RecipePeers(table: PeerTable, name: string): set<Addr> {
    set a | a in table && name in table[a].recipes
  }

  function CapablePeers(table: PeerTable, action: string): set<Addr> {
    set a | a in table && action in table[a].capabilities
  }

  // ── Effects of one thread's step ──────────────────────────────────────────────

  /** What a step of one thread does besides changing the thread. */
  datatype Effect = Effect(thread: Thread, spawned: Option<Thread>, delivered: Option<DeliverMsg>,
                           created: Option<Payload>, registers: bool, removes: bool)

  function Only(t: Thread): Effect {
    Effect(t, None, None, None, false, false)
  }

  function Become(t: Thread, phase: Phase): Effect {
    Only(t.(phase := phase))
  }

  function Spawn(t: Thread, phase: Phase, child: Thread): Effect {
    Become(t, phase).(spawned := Some(child))
  }

  function Apply(w: Work, i: nat, e: Effect): Work
    requires i < |w.threads|
  {
    var t := w.threads[i];
    Work(
      w.threads[i := e.thread] + (if e.spawned.Some? then [e.spawned.value] else []),
      if e.registers then w.pending + {(t.node, t.orderId)}
      else if e.removes then w.pending - {(t.node, t.orderId)} else w.pending,
      if e.registers then w.channel[t.orderId := []] else w.channel,
      w.delivers + (if e.delivered.Some? then [e.delivered.value] else []),
      if e.created.Some? then w.born[t.orderId := e.created.value] else w.born)
  }

  // ── handle_order ──────────────────────────────────────────────────────────────

  /** Decline, fail to write the receipt, or write it, register, and look the recipe up. */
  ghost predicate BeginOrder(id: Identity, table: PeerTable, t: Thread, e: Effect) {
    && t.kind.OrderKind?
    && var name := t.kind.name;
    var receipted := t.(frames := t.frames + [OrderReceipt(t.orderId)]);
    if !HasRecipe(id, name) && RecipePeers(table, name) == {} then
      e == Only(t.(frames := t.frames + [OrderDeclined("Unknown recipe")], phase := LeftEarly))
    else
      || (exists m :: e == Only(t.(frames := t.frames + [Error(m)], phase := LeftEarly)))
      || e == Become(receipted, Asked(name)).(registers := true)
  }

  /** The recipe text, or why there is none, is in: parse it and create the payload. */
  ghost predicate BeginDrive(t: Thread, answer: TcpMessage, e: Effect) {
    && t.kind.OrderKind?
    && match answer
       case RecipeAnswer(dsl) =>
         (match ParseRecipes(dsl)
          case Panicked => e == Become(t, Crashed)
          case Err(_) => Fails(t, e)
          case Ok(recipes) =>
            match FindRecipe(recipes, t.kind.name)
            case None => Fails(t, e)
            case Some(r) => exists now ::
              var p := Payload(t.orderId, now, t.node, 0, Flatten(r.steps), "", []);
              e == Become(t, Arrived(p)).(created := Some(p)))
       case _ => Fails(t, e)
  }

  /** An early error return; the entry in `pending_orders` stays. */
  ghost predicate Fails(t: Thread, e: Effect) {
    exists m :: e == Only(t.(frames := t.frames + [Error(m)], phase := LeftEarly))
  }

  /** A placeholder means a `Deliver` was written: wait. Anything else is the final answer. */
  predicate Settle(t: Thread, answer: TcpMessage, e: Effect) {
    t.kind.OrderKind?
    && if answer.CompletedOrder? && answer.result.None? then e == Become(t, Parked)
       else e == Only(t.(frames := t.frames + [answer], phase := Returned)).(removes := true)
  }

  ghost predicate WakeUp(w: Work, t: Thread, e: Effect) {
    && t.kind.OrderKind? && t.orderId in w.channel
    && if w.channel[t.orderId] == [] then exists m :: e == Become(t, Woken(Error(m)))
       else e == Become(t, Woken(w.channel[t.orderId][0]))
  }

  predicate Answer(t: Thread, answer: TcpMessage, e: Effect) {
    && t.kind.OrderKind?
    && e == Only(t.(frames := t.frames + [Stamped(t.kind.name, answer)], phase := Returned)).(removes := true)
  }

  // ── handle_get_recipe ─────────────────────────────────────────────────────────

  ghost predicate LookUpRecipe(id: Identity, table: PeerTable, t: Thread, name: string, e: Effect) {
    match FindRecipe(id.recipes, name)
    case Some(r) => e == Become(t, RecipeDone(RecipeAnswer(r.source)))
    case None => exists order :: IsOrderOf(order, RecipePeers(table, name)) && e == Become(t, Asking(name, order))
  }

  ghost predicate AskNext(ids: Cluster, w: Work, i: nat, t: Thread, name: string, left: seq<Addr>, e: Effect) {
    if left == [] then exists m :: e == Become(t, RecipeDone(Error(m)))
    else
      || e == Become(t, Asking(name, left[1..]))
      || (left[0] in ids
          && e == Spawn(t, AwaitingRecipe(name, left[1..], |w.threads|),
                        Thread(left[0], RecipeKind(name), t.orderId, Some(i), [], [], Asked(name))))
  }

  predicate HearRecipe(w: Work, t: Thread, name: string, left: seq<Addr>, child: nat, e: Effect) {
    || e == Become(t, Asking(name, left))
    || (child < |w.threads| && w.threads[child].phase.RecipeDone?
        && e == Become(t, RecipeDone(w.threads[child].phase.answer)))
  }

  // ── handle_process_payload ────────────────────────────────────────────────────

  ghost predicate RunHere(id: Identity, table: PeerTable, t: Thread, p: Payload, e: Effect) {
    exists q :: LocalRun(id, p, q) && AfterRun(table, t, q, e)
  }

  ghost predicate AfterRun(table: PeerTable, t: Thread, q: Payload, e: Effect) {
    if q.index >= |q.sequence| then e == Become(t, Finishing(q))
    else exists order ::
      IsOrderOf(order, CapablePeers(table, q.sequence[q.index].name)) && e == Become(t, Trying(q, order))
  }

  /** The copy of a payload that is handed to a peer. */
  function Copy(p: Payload, peer: Addr, now: nat): Payload {
    p.(updates := p.updates + [Forward(peer, now)])
  }

  ghost predicate TryNext(ids: Cluster, w: Work, i: nat, t: Thread, p: Payload, left: seq<Addr>, e: Effect) {
    if left == [] then
      p.index < |p.sequence| && Delivers(t, DeliverMsg(p, Some(UnavailableError(p.sequence[p.index]))), e)
    else
      || e == Become(t, Trying(p, left[1..]))
      || (left[0] in ids && exists now ::
          e == Spawn(t, Waiting(p, left[1..], |w.threads|),
                     Thread(left[0], ProcessKind, t.orderId, Some(i), t.hops + [left[0]], [],
                            Arrived(Copy(p, left[0], now)))))
  }

  predicate HearAnswer(w: Work, t: Thread, p: Payload, left: seq<Addr>, child: nat, e: Effect) {
    || e == Become(t, Trying(p, left))
    || (child < |w.threads| && w.threads[child].phase.Driven?
        && e == Become(t, Driven(w.threads[child].phase.answer)))
  }

  function Label(t: Thread): string {
    if t.kind.OrderKind? then t.kind.name else "unknown"
  }

  /** `send_deliver`: written and reported so, or reported as failed — in which case it may
      still have been written. */
  ghost predicate Delivers(t: Thread, d: DeliverMsg, e: Effect) {
    || e == Become(t, Driven(CompletedOrder(Label(t), None))).(delivered := Some(d))
    || (exists m :: e == Become(t, Driven(Error(m))))
    || (exists m :: e == Become(t, Driven(Error(m))).(delivered := Some(d)))
  }

  ghost predicate Finish(t: Thread, p: Payload, e: Effect) {
    exists now :: Delivers(t, DeliverMsg(Copy(p, p.host, now), None), e)
  }

  // ── Steps ─────────────────────────────────────────────────────────────────────

  ghost predicate ThreadStep(ids: Cluster, table: PeerTable, w: Work, i: nat, e: Effect) {
    && i < |w.threads| && w.threads[i].node in ids
    && var t := w.threads[i];
    var id := ids[t.node];
    match t.phase
    case Received => BeginOrder(id, table, t, e)
    case Asked(name) => LookUpRecipe(id, table, t, name, e)
    case Asking(name, left) => AskNext(ids, w, i, t, name, left, e)
    case AwaitingRecipe(name, left, child) => HearRecipe(w, t, name, left, child, e)
    case RecipeDone(answer) => BeginDrive(t, answer, e)
    case Arrived(p) => RunHere(id, table, t, p, e)
    case Trying(p, left) => TryNext(ids, w, i, t, p, left, e)
    case Waiting(p, left, child) => HearAnswer(w, t, p, left, child, e)
    case Finishing(p) => Finish(t, p, e)
    case Driven(answer) => Settle(t, answer, e)
    case Parked => WakeUp(w, t, e)
    case Woken(answer) => Answer(t, answer, e)
    case LeftEarly => false
    case Crashed => false
    case Returned => false
  }

  /** What the thread waits for, if anything, is there. */
  predicate Ready(w: Work, t: Thread) {
    && (t.phase.AwaitingRecipe? ==> t.phase.child < |w.threads| && w.threads[t.phase.child].phase.RecipeDone?)
    && (t.phase.Waiting? ==> t.phase.child < |w.threads| && w.threads[t.phase.child].phase.Driven?)
    && (t.phase.Parked? ==> t.orderId in w.channel && w.channel[t.orderId] != [])
  }

  /** Nothing goes wrong in this step: every write succeeds, every peer is reached, and what is
      waited for is waited for long enough. */
  predicate Faultless(t: Thread, e: Effect) {
    match t.phase
    case Received => e.registers || (e.thread.frames != [] && e.thread.frames[|e.thread.frames| - 1].OrderDeclined?)
    case Asking(_, left) => left != [] ==> e.spawned.Some?
    case AwaitingRecipe(_, _, _) => e.thread.phase.RecipeDone?
    case Trying(_, left) => if left != [] then e.spawned.Some? else WroteDelivery(e)
    case Waiting(_, _, _) => e.thread.phase.Driven?
    case Finishing(_) => WroteDelivery(e)
    case Parked => e.thread.phase.Woken? && !e.thread.phase.answer.Error?
    case _ => true
  }

  predicate WroteDelivery(e: Effect) {
    e.delivered.Some? && e.thread.phase.Driven? && !e.thread.phase.answer.Error?
  }

  /** A client connects; the order id is fresh. */
  predicate NewOrder(ids: Cluster, w: Work, w': Work, node: Addr, name: string, orderId: string) {
    && node in ids
    && (forall i :: 0 <= i < |w.threads| ==> w.threads[i].orderId != orderId)
    && w' == w.(threads := w.threads + [Thread(node, OrderKind(name), orderId, None, [], [], Received)])
  }

  /** A client asks for a recipe; it has no order and no id. */
  predicate NewRequest(ids: Cluster, w: Work, w': Work, node: Addr, name: string) {
    && node in ids
    && w' == w.(threads := w.threads + [Thread(node, RecipeKind(name), "", None, [], [], Asked(name))])
  }

  /** The host of delivery `k` receives it: the first time its order is waiting there, the
      message goes on the channel; otherwise nothing happens. */
  predicate ReceiveDeliver(ids: Cluster, w: Work, w': Work, k: nat, now: nat) {
    && k < |w.delivers|
    && var d := w.delivers[k];
    var key := (d.payload.host, d.payload.orderId);
    && d.payload.host in ids
    && w' == if key in w.pending && key.1 in w.channel
             then w.(pending := w.pending - {key}, channel := w.channel[key.1 := w.channel[key.1] + [SignalAt(d, now)]])
             else w
  }

  ghost predicate ThreadMoves(ids: Cluster, tables: map<Addr, PeerTable>, w: Work, w': Work) {
    exists i: nat, e ::
      && i < |w.threads| && w.threads[i].node in tables
      && ThreadStep(ids, tables[w.threads[i].node], w, i, e) && w' == Apply(w, i, e)
  }

  ghost predicate WorkStep(ids: Cluster, tables: map<Addr, PeerTable>, w: Work, w': Work) {
    || ThreadMoves(ids, tables, w, w')
    || (exists node, name, orderId :: NewOrder(ids, w, w', node, name, orderId))
    || (exists node, name :: NewRequest(ids, w, w', node, name))
    || (exists k, now :: ReceiveDeliver(ids, w, w', k, now))
  }
}
