/** What every thread, delivery, channel and pending entry satisfies in every reachable state. */
module OrderInvariant {
  import opened Recipe
  import opened RecipeSpec
  import opened RecipeBook
  import opened RecipePanics
  import opened Gossip
  import opened Orders
  import opened OrderSystem
  import opened Traces

  // ── The cluster ───────────────────────────────────────────────────────────────

  predicate Knows(ids: Cluster, c: Addr, name: string) {
    c in ids && HasRecipe(ids[c], name)
  }

  // ── Payloads and deliveries ───────────────────────────────────────────────────

  /** A payload as its order created it. */
  predicate BornOk(ids: Cluster, orderId: string, b: Payload) {
    b.orderId == orderId && b.host in ids && b.index == 0 && b.content == "" && b.updates == []
  }

  /** The thread holds this payload: it is the order's, it is here, and its trace names exactly
      the nodes it came through. */
  predicate Carries(ids: Cluster, w: Work, t: Thread, p: Payload) {
    && t.orderId in w.born && p.orderId == t.orderId
    && InProgress(ids, w.born[t.orderId], p)
    && HolderOf(p.host, p.updates) == t.node
    && HopsOf(p.updates) == t.hops
  }

  /** A success delivery is complete and ends with the forward to its host; a failure names the
      first action not done. */
  predicate DeliverOk(ids: Cluster, born: map<string, Payload>, d: DeliverMsg) {
    var p := d.payload;
    && p.orderId in born
    && InProgress(ids, born[p.orderId], p)
    && match d.error
       case None =>
         && p.index == |p.sequence|
         && HolderOf(p.host, p.updates) == p.host
         && p.updates != [] && p.updates[|p.updates| - 1].Forward?
         && |HopsOf(p.updates)| <= |p.sequence| + 1
       case Some(e) =>
         && p.index < |p.sequence| && e == UnavailableError(p.sequence[p.index])
         && |HopsOf(p.updates)| <= p.index
         && var stuck := HolderOf(p.host, p.updates);
         stuck in ids && !CanRun(ids[stuck], p.sequence[p.index])
  }

  /** A `Deliver` for the order has been written. */
  predicate Sent(w: Work, orderId: string) {
    exists k :: 0 <= k < |w.delivers| && w.delivers[k].payload.orderId == orderId
  }

  ghost predicate SignalOf(d: DeliverMsg, m: TcpMessage) {
    exists now :: m == SignalAt(d, now)
  }

  /** The message is what some delivery of the order put on its channel. */
  ghost predicate Signalled(w: Work, orderId: string, m: TcpMessage) {
    exists k :: 0 <= k < |w.delivers| && w.delivers[k].payload.orderId == orderId && SignalOf(w.delivers[k], m)
  }

  // ── Answers ───────────────────────────────────────────────────────────────────

  /** `handle_process_payload` answers an error, or the empty placeholder after a delivery. */
  predicate DriveReply(w: Work, orderId: string, m: TcpMessage) {
    m.Error? || (m.CompletedOrder? && m.result.None? && Sent(w, orderId))
  }

  /** Node `node` gets the recipe from `c`: itself if it has one of that name, else any node
      that does. */
  predicate Serves(ids: Cluster, node: Addr, c: Addr, name: string) {
    c in ids && FindRecipe(ids[c].recipes, name).Some? && (c == node || !Knows(ids, node, name))
  }

  /** The recipe the node would order under that name reads back from its canonical text. */
  ghost predicate ServedOnFile(ids: Cluster, node: Addr, name: string) {
    forall c :: Serves(ids, node, c, name) ==> RecipeOnFile(FindRecipe(ids[c].recipes, name).value)
  }

  /** It was read from some file, and no LF CR LF is left in its tokens. */
  ghost predicate ServedLoaded(ids: Cluster, node: Addr, name: string) {
    forall c :: Serves(ids, node, c, name) ==>
      var r := FindRecipe(ids[c].recipes, name).value; IsLoaded(r) && RecipeUnbroken(r)
  }

  ghost predicate IsSourceOf(ids: Cluster, node: Addr, name: string, text: string) {
    exists c :: Serves(ids, node, c, name) && FindRecipe(ids[c].recipes, name).value.source == text
  }

  ghost predicate RecipeReply(ids: Cluster, node: Addr, name: string, m: TcpMessage) {
    m.Error? || (m.RecipeAnswer? && IsSourceOf(ids, node, name, m.recipe))
  }

  /** What the parser makes of a text in which the recipe `name` is looked for. */
  predicate ReadsAs(text: string, name: string, sequence: seq<ActionDef>) {
    var parsed := ParseRecipes(text);
    && parsed.Ok? && FindRecipe(parsed.value, name).Some?
    && Flatten(FindRecipe(parsed.value, name).value.steps) == sequence
  }

  /** The sequence of an order: what is read from the canonical text of the recipe. */
  ghost predicate IsFlatRecipe(ids: Cluster, node: Addr, name: string, sequence: seq<ActionDef>) {
    exists text :: IsSourceOf(ids, node, name, text) && ReadsAs(text, name, sequence)
  }

  ghost predicate TextPanics(ids: Cluster, node: Addr, name: string) {
    exists text :: IsSourceOf(ids, node, name, text) && ParseRecipes(text).Panicked?
  }

  ghost predicate FinalReply(w: Work, t: Thread, m: TcpMessage)
    requires t.kind.OrderKind?
  {
    m.Error? || exists signal :: Signalled(w, t.orderId, signal) && m == Stamped(t.kind.name, signal)
  }

  // ── Threads ───────────────────────────────────────────────────────────────────

  predicate Receipted(t: Thread) {
    t.kind.OrderKind? && t.frames == [OrderReceipt(t.orderId)]
  }

  predicate IsThread(w: Work, child: nat, kind: Kind, orderId: string) {
    && child < |w.threads| && w.threads[child].parent.Some?
    && w.threads[child].kind == kind && w.threads[child].orderId == orderId
  }

  /** An order thread whose payload exists: it delivers to itself, and runs the recipe ordered. */
  ghost predicate Ordered(ids: Cluster, w: Work, t: Thread) {
    && Receipted(t) && t.orderId in w.born
    && w.born[t.orderId].host == t.node
    && IsFlatRecipe(ids, t.node, t.kind.name, w.born[t.orderId].sequence)
  }

  ghost predicate Driving(ids: Cluster, w: Work, t: Thread) {
    t.kind.ProcessKind? || Ordered(ids, w, t)
  }

  /** Neither this node nor any candidate is out of place: the node cannot run the next action,
      and every peer still to be tried is another node that can. */
  predicate Blocked(ids: Cluster, t: Thread, p: Payload, left: seq<Addr>) {
    && p.index < |p.sequence| && |t.hops| <= p.index
    && t.node in ids && !CanRun(ids[t.node], p.sequence[p.index])
    && forall c :: c in left ==> c in ids && CanRun(ids[c], p.sequence[p.index])
  }

  predicate Wants(t: Thread, name: string) {
    (Receipted(t) && t.kind.name == name) || (t.kind.RecipeKind? && t.kind.wanted == name)
  }

  predicate Seeking(ids: Cluster, t: Thread, name: string, left: seq<Addr>) {
    && Wants(t, name) && !Knows(ids, t.node, name)
    && forall c :: c in left ==> Knows(ids, c, name)
  }

  predicate KindOk(ids: Cluster, t: Thread) {
    && t.node in ids
    && match t.kind
       case OrderKind(_) => t.parent.None? && t.hops == []
       case RecipeKind(wanted) => t.hops == [] && t.frames == [] && (t.parent.Some? ==> Knows(ids, t.node, wanted))
       case ProcessKind => t.parent.Some? && t.hops != [] && t.frames == []
  }

  ghost predicate PhaseOk(ids: Cluster, w: Work, t: Thread)
    requires KindOk(ids, t)
  {
    match t.phase
    case Received => t.kind.OrderKind? && t.frames == []
    case Asked(name) => Wants(t, name)
    case Asking(name, left) => Seeking(ids, t, name, left)
    case AwaitingRecipe(name, left, child) =>
      Seeking(ids, t, name, left) && IsThread(w, child, RecipeKind(name), t.orderId)
    case RecipeDone(m) =>
      || (Receipted(t) && RecipeReply(ids, t.node, t.kind.name, m))
      || (t.kind.RecipeKind? && RecipeReply(ids, t.node, t.kind.wanted, m) && (t.parent.Some? ==> m.RecipeAnswer?))
    case LeftEarly => t.kind.OrderKind? && EarlyFrames(t)
    case Crashed => Receipted(t) && TextPanics(ids, t.node, t.kind.name)
    case Arrived(p) =>
      && Driving(ids, w, t) && Carries(ids, w, t, p)
      && (t.kind.ProcessKind? ==>
          p.index < |p.sequence| && CanRun(ids[t.node], p.sequence[p.index]) && |t.hops| <= p.index + 1)
    case Trying(p, left) => Driving(ids, w, t) && Carries(ids, w, t, p) && Blocked(ids, t, p, left)
    case Waiting(p, left, child) =>
      && Driving(ids, w, t) && Carries(ids, w, t, p) && Blocked(ids, t, p, left)
      && IsThread(w, child, ProcessKind, t.orderId)
    case Finishing(p) =>
      Driving(ids, w, t) && Carries(ids, w, t, p) && p.index == |p.sequence| && |t.hops| <= p.index
    case Driven(m) => Driving(ids, w, t) && DriveReply(w, t.orderId, m)
    case Parked => Ordered(ids, w, t) && Sent(w, t.orderId)
    case Woken(m) => Ordered(ids, w, t) && (m.Error? || Signalled(w, t.orderId, m))
    case Returned =>
      && t.kind.OrderKind? && |t.frames| == 2 && t.frames[0] == OrderReceipt(t.orderId)
      && Ordered(ids, w, t.(frames := t.frames[..1])) && FinalReply(w, t, t.frames[1])
  }

  /** The frames an order that never got driven has written. */
  predicate EarlyFrames(t: Thread) {
    || (|t.frames| == 1 && (t.frames[0].OrderDeclined? || t.frames[0].Error?))
    || (|t.frames| == 2 && t.frames[0] == OrderReceipt(t.orderId) && t.frames[1].Error?)
  }

  ghost predicate ThreadOk(ids: Cluster, w: Work, t: Thread) {
    KindOk(ids, t) && PhaseOk(ids, w, t)
  }

  // ── The whole state ───────────────────────────────────────────────────────────

  /** An order thread with this id. */
  predicate OrderedBy(w: Work, orderId: string) {
    exists i :: 0 <= i < |w.threads| && w.threads[i].kind.OrderKind? && w.threads[i].orderId == orderId
  }

  predicate OneThreadPerOrder(w: Work) {
    forall i, j :: 0 <= i < j < |w.threads| && w.threads[i].kind.OrderKind? && w.threads[j].kind.OrderKind? ==>
      w.threads[i].orderId != w.threads[j].orderId
  }

  /** `t` handles what `s` handed to a peer: never to itself. A payload's chain of nodes grows by
      one; a recipe is asked for on behalf of an order or a client, never of another peer. */
  predicate IsChildOf(s: Thread, t: Thread) {
    && t.node != s.node && t.orderId == s.orderId
    && match t.kind
       case OrderKind(_) => false
       case RecipeKind(name) => s.kind == OrderKind(name) || (s.kind == t.kind && s.parent.None?)
       case ProcessKind => !s.kind.RecipeKind? && t.hops == s.hops + [t.node]
  }

  predicate ChainsOk(w: Work) {
    forall i :: 0 <= i < |w.threads| && w.threads[i].parent.Some? ==>
      w.threads[i].parent.value < i && IsChildOf(w.threads[w.threads[i].parent.value], w.threads[i])
  }

  /** The payload does not exist yet, or never will. */
  predicate Unborn(phase: Phase) {
    phase.Received? || phase.Asked? || phase.Asking? || phase.AwaitingRecipe? || phase.RecipeDone?
    || phase.LeftEarly? || phase.Crashed?
  }

  /** An order that has its receipt but no payload. */
  predicate OnlyRegistered(t: Thread) {
    t.kind.OrderKind? && Unborn(t.phase) && t.frames != [] && t.frames[0] == OrderReceipt(t.orderId)
  }

  /** An order has a channel from its receipt on, and keeps its entry at least until its payload
      is created. */
  predicate NotYet(w: Work, t: Thread) {
    && (t.phase.Received? ==> t.orderId !in w.channel)
    && (Receipted(t) ==> t.orderId in w.channel)
    && (Unborn(t.phase) ==> t.orderId !in w.born)
    && (OnlyRegistered(t) ==> (t.node, t.orderId) in w.pending)
  }

  predicate NothingAhead(w: Work) {
    forall i :: 0 <= i < |w.threads| && w.threads[i].kind.OrderKind? ==> NotYet(w, w.threads[i])
  }

  /** At most one message per channel, and each is a delivery's. */
  ghost predicate ChannelsOk(w: Work) {
    forall id :: id in w.channel ==>
      OrderedBy(w, id) && |w.channel[id]| <= 1 && forall m :: m in w.channel[id] ==> Signalled(w, id, m)
  }

  /** The order thread has registered, and has not returned after driving its payload. */
  predicate Waits(t: Thread, node: Addr, orderId: string) {
    && t.kind.OrderKind? && t.node == node && t.orderId == orderId
    && !t.phase.Received? && !t.phase.Returned? && (t.phase.LeftEarly? ==> |t.frames| == 2)
  }

  /** An entry still in the map: nothing was sent, and its order thread has not cleared it. */
  predicate PendingOk(w: Work) {
    forall e :: e in w.pending ==>
      e.1 in w.channel && w.channel[e.1] == [] && exists i :: 0 <= i < |w.threads| && Waits(w.threads[i], e.0, e.1)
  }

  ghost predicate WorkOk(ids: Cluster, w: Work) {
    && (forall i :: 0 <= i < |w.threads| ==> ThreadOk(ids, w, w.threads[i]))
    && OneThreadPerOrder(w) && ChainsOk(w) && NothingAhead(w)
    && (forall id :: id in w.born ==> BornOk(ids, id, w.born[id]) && OrderedBy(w, id))
    && (forall k :: 0 <= k < |w.delivers| ==> DeliverOk(ids, w.born, w.delivers[k]))
    && ChannelsOk(w) && PendingOk(w)
  }

  // ── What a step leaves alone ──────────────────────────────────────────────────

  /** Threads keep what they were started for; payload records and deliveries only accrue. */
  predicate Grows(w: Work, w': Work) {
    && |w.threads| <= |w'.threads|
    && (forall i :: 0 <= i < |w.threads| ==> SameThread(w.threads[i], w'.threads[i]))
    && (forall id :: id in w.born ==> id in w'.born && w'.born[id] == w.born[id])
    && |w.delivers| <= |w'.delivers|
    && (forall k :: 0 <= k < |w.delivers| ==> w'.delivers[k] == w.delivers[k])
  }

  /** Nothing recorded is lost or changed, and channels are only added to. */
  predicate Accrues(w: Work, w': Work) {
    Grows(w, w') && forall id :: id in w.channel ==> id in w'.channel && w.channel[id] <= w'.channel[id]
  }

  predicate SameThread(t: Thread, t': Thread) {
    t.node == t'.node && t.kind == t'.kind && t.orderId == t'.orderId && t.parent == t'.parent && t.hops == t'.hops
  }

  lemma SentGrows(w: Work, w': Work, orderId: string)
    requires Grows(w, w') && Sent(w, orderId)
    ensures Sent(w', orderId)
  {
    var k :| 0 <= k < |w.delivers| && w.delivers[k].payload.orderId == orderId;
    assert w'.delivers[k] == w.delivers[k];
  }

  lemma SignalledGrows(w: Work, w': Work, orderId: string, m: TcpMessage)
    requires Grows(w, w') && Signalled(w, orderId, m)
    ensures Signalled(w', orderId, m)
  {
    var k :| 0 <= k < |w.delivers| && w.delivers[k].payload.orderId == orderId && SignalOf(w.delivers[k], m);
    assert w'.delivers[k] == w.delivers[k];
  }

  lemma ThreadOkGrows(ids: Cluster, w: Work, w': Work, t: Thread)
    requires Grows(w, w') && ThreadOk(ids, w, t)
    ensures ThreadOk(ids, w', t)
  {
    hide InProgress, HopsOf, HolderOf, IsFlatRecipe, IsSourceOf, TextPanics, SignalOf, Sent, Signalled;
    match t.phase
    case Driven(m) => if m.CompletedOrder? { SentGrows(w, w', t.orderId); }
    case Parked => SentGrows(w, w', t.orderId);
    case Woken(m) => if !m.Error? { SignalledGrows(w, w', t.orderId, m); }
    case Returned =>
      var m := t.frames[1];
      if !m.Error? {
        var signal :| Signalled(w, t.orderId, signal) && m == Stamped(t.kind.name, signal);
        SignalledGrows(w, w', t.orderId, signal);
      }
    case _ =>
  }

  lemma OrderedByGrows(w: Work, w': Work, orderId: string)
    requires Grows(w, w') && OrderedBy(w, orderId)
    ensures OrderedBy(w', orderId)
  {
    var i :| 0 <= i < |w.threads| && w.threads[i].kind.OrderKind? && w.threads[i].orderId == orderId;
    assert SameThread(w.threads[i], w'.threads[i]);
  }
}
