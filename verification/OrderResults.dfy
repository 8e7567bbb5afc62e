/** What the cluster promises about orders, in every reachable state: whatever is lost, late,
    tried again or done twice. */
module OrderResults {
  import opened Text
  import opened Recipe
  import opened RecipeSpec
  import opened RecipePanics
  import opened Gossip
  import opened Orders
  import opened OrderSystem
  import opened Traces
  import opened OrderInvariant
  import opened OrderPreservation
  import opened ClusterSystem

  /** Thread `i` is that of an order. */
  predicate IsOrder(s: State, i: nat) {
    i < |s.work.threads| && s.work.threads[i].kind.OrderKind?
  }

  lemma ThreadFacts(ids: Cluster, s: State, i: nat)
    requires ClusterOk(ids) && Reachable(ids, s) && i < |s.work.threads|
    ensures ThreadOk(ids, s.work, s.work.threads[i])
    ensures s.work.threads[i].kind.OrderKind? ==> NotYet(s.work, s.work.threads[i])
  {
    hide ThreadOk, WorkOk, ClusterOk, Reachable;
    ReachableOk(ids, s);
    AtThread(ids, s.work, i);
  }

  lemma StepAccrues(ids: Cluster, s: State, s': State)
    requires ClusterOk(ids) && StateOk(ids, s) && ClusterStep(ids, s, s')
    ensures Accrues(s.work, s'.work)
  {
    hide WorkOk, WorkStep, GossipNetwork.Ok, GossipNetwork.Step, TableTrue, ClusterOk;
    if s'.net == s.net && WorkStep(ids, Tables(s), s.work, s'.work) {
      OkTablesTrue(ids, s);
      WorkStepOk(ids, Tables(s), s.work, s'.work);
    }
  }

  /** Along every run: the payload an order was created with, the deliveries written and what a
      channel was sent are never changed or lost. */
  lemma {:induction false} HistoryKept(ids: Cluster, run: seq<State>, i: nat, j: nat)
    requires ClusterOk(ids) && IsRun(ids, run) && i <= j < |run|
    ensures Accrues(run[i].work, run[j].work)
  {
    hide ClusterOk, ClusterStep, StateOk;
    if i < j {
      HistoryKept(ids, run, i, j - 1);
      RunOk(ids, run, j - 1);
      StepAccrues(ids, run[j - 1], run[j]);
    }
  }

  // ── The result of an order ────────────────────────────────────────────────────

  /** The trace of a finished pizza: every action once and in order, each by a node that can do
      it, then the hand-over to the host and one delivery. */
  predicate FullTrace(ids: Cluster, host: Addr, sequence: seq<ActionDef>, us: seq<Update>) {
    |us| >= 2
    && us[|us| - 1].Deliver?
    && var done := us[..|us| - 1];
    && done[|done| - 1].Forward? && HolderOf(host, done) == host
    && ActionsOf(done) == sequence
    && Attributed(ids, host, done)
    && |HopsOf(done)| <= |sequence| + 1
  }

  /** The delivery a thread was woken by. */
  lemma SignalFacts(ids: Cluster, s: State, orderId: string, m: TcpMessage) returns (d: DeliverMsg, now: nat)
    requires ClusterOk(ids) && Reachable(ids, s) && Signalled(s.work, orderId, m)
    ensures d in s.work.delivers && d.payload.orderId == orderId && m == SignalAt(d, now)
    ensures DeliverOk(ids, s.work.born, d) && BornOk(ids, orderId, s.work.born[orderId])
  {
    hide ThreadOk, ClusterOk, Reachable, InProgress, ChainsOk;
    ReachableOk(ids, s);
    var k :| 0 <= k < |s.work.delivers| && s.work.delivers[k].payload.orderId == orderId
      && SignalOf(s.work.delivers[k], m);
    d := s.work.delivers[k];
    now :| m == SignalAt(d, now);
    assert DeliverOk(ids, s.work.born, d);
  }

  lemma DeliveredTrace(ids: Cluster, born: map<string, Payload>, d: DeliverMsg, now: nat)
    requires DeliverOk(ids, born, d) && d.error.None?
    ensures var p := d.payload;
      && FullTrace(ids, p.host, p.sequence, p.updates + [Deliver(now)]) && p.content == ContentOf(p.sequence)
      && SameOrder(born[p.orderId], p)
  {
    var p := d.payload;
    var us := p.updates + [Deliver(now)];
    assert us[..|us| - 1] == p.updates;
    assert p.sequence[..p.index] == p.sequence;
  }

  /** End to end. A completed order is a recipe of that name (the node's own if it has one),
      with every action done in the recipe's order, nothing lost and nothing twice, under the
      id and creation time of this order and no other. */
  lemma CompletedOrderIsRight(ids: Cluster, s: State, i: nat)
    requires ClusterOk(ids) && Reachable(ids, s) && IsOrder(s, i)
    requires var t := s.work.threads[i]; t.phase.Returned? && |t.frames| == 2 && t.frames[1].CompletedOrder?
    ensures var t := s.work.threads[i];
      && t.orderId in s.work.born && var born := s.work.born[t.orderId];
      && BornOk(ids, t.orderId, born) && born.host == t.node
      && IsFlatRecipe(ids, t.node, t.kind.name, born.sequence)
      && t.frames[0] == OrderReceipt(t.orderId)
      && t.frames[1].recipeName == t.kind.name && t.frames[1].result.Some?
      && var r := t.frames[1].result.value;
      && r.orderId == t.orderId && r.timestamp == born.timestamp
      && r.content == ContentOf(born.sequence)
      && FullTrace(ids, t.node, born.sequence, r.updates)
  {
    hide ClusterOk, Reachable, FullTrace, Signalled, DeliverOk, IsFlatRecipe, ContentOf;
    ThreadFacts(ids, s, i);
    var t := s.work.threads[i];
    var signal :| Signalled(s.work, t.orderId, signal) && t.frames[1] == Stamped(t.kind.name, signal);
    var d, now := SignalFacts(ids, s, t.orderId, signal);
    DeliveredTrace(ids, s.work.born, d, now);
  }

  /** When the recipe ordered reads back from its canonical text, that sequence is the recipe's own. */
  lemma CompletedOrderIsTheRecipe(ids: Cluster, s: State, i: nat) returns (c: Addr)
    requires ClusterOk(ids) && Reachable(ids, s) && IsOrder(s, i)
    requires var t := s.work.threads[i]; t.phase.Returned? && |t.frames| == 2 && t.frames[1].CompletedOrder?
    requires ServedOnFile(ids, s.work.threads[i].node, s.work.threads[i].kind.name)
    ensures var t := s.work.threads[i];
      && Serves(ids, t.node, c, t.kind.name) && t.frames[1].result.Some?
      && var recipe := FindRecipe(ids[c].recipes, t.kind.name).value; var r := t.frames[1].result.value;
      && r.content == ContentOf(Flatten(recipe.steps))
      && FullTrace(ids, t.node, Flatten(recipe.steps), r.updates)
  {
    hide ClusterOk, ServedOnFile, Reachable, FullTrace, IsFlatRecipe, ContentOf, Flatten;
    CompletedOrderIsRight(ids, s, i);
    var t := s.work.threads[i];
    c := FlatRecipeIsOwn(ids, t.node, t.kind.name, s.work.born[t.orderId].sequence);
  }

  lemma FlatRecipeIsOwn(ids: Cluster, node: Addr, name: string, sequence: seq<ActionDef>) returns (c: Addr)
    requires ServedOnFile(ids, node, name) && IsFlatRecipe(ids, node, name, sequence)
    ensures Serves(ids, node, c, name) && sequence == Flatten(FindRecipe(ids[c].recipes, name).value.steps)
  {
    hide ServedOnFile, ParseRecipes, FindRecipe, Flatten;
    var text :| IsSourceOf(ids, node, name, text) && ReadsAs(text, name, sequence);
    SourceReadsBack(ids, node, name, text);
    c :| Serves(ids, node, c, name) && FindRecipe(ParseRecipes(text).value, name) == FindRecipe(ids[c].recipes, name);
  }

  /** A failed order names the first action that was not done, on a payload that had got that
      far and to a node that cannot do it. */
  lemma FailedOrderNamesUndoneAction(ids: Cluster, s: State, i: nat) returns (p: Payload)
    requires ClusterOk(ids) && Reachable(ids, s) && IsOrder(s, i)
    requires var t := s.work.threads[i]; t.phase.Returned? && |t.frames| == 2 && t.frames[1].FailedOrder?
    ensures var t := s.work.threads[i];
      && t.orderId in s.work.born && var born := s.work.born[t.orderId];
      && IsFlatRecipe(ids, t.node, t.kind.name, born.sequence)
      && p.index < |born.sequence|
      && t.frames[1] == FailedOrder(t.kind.name, UnavailableError(born.sequence[p.index]))
      && InProgress(ids, born, p)
      && HolderOf(t.node, p.updates) in ids && !CanRun(ids[HolderOf(t.node, p.updates)], born.sequence[p.index])
    ensures exists d :: d in s.work.delivers && d.payload == p && d.error.Some?
  {
    hide ClusterOk, Reachable, Signalled, IsFlatRecipe, ContentOf;
    ThreadFacts(ids, s, i);
    var t := s.work.threads[i];
    var signal :| Signalled(s.work, t.orderId, signal) && t.frames[1] == Stamped(t.kind.name, signal);
    var d, now := SignalFacts(ids, s, t.orderId, signal);
    p := d.payload;
  }

  // ── What the client sees ──────────────────────────────────────────────────────

  datatype ClientEnd = NoAnswer | Declined(reason: string) | Failed(error: string) | Errored(message: string)
                     | Delivered(result: Option<OrderResult>) | Unexpected

  /** `client_order`, on the frames it gets to read. */
  function ClientOrder(frames: seq<TcpMessage>): ClientEnd {
    if frames == [] then NoAnswer
    else match frames[0]
      case OrderDeclined(reason) => Declined(reason)
      case Error(message) => Errored(message)
      case OrderReceipt(_) =>
        if |frames| == 1 then NoAnswer
        else (match frames[1]
          case CompletedOrder(_, result) => Delivered(result)
          case FailedOrder(_, error) => Failed(error)
          case Error(message) => Errored(message)
          case _ => Unexpected)
      case _ => Unexpected
  }

  /** The frames an order may have written. */
  predicate FramesExpected(t: Thread) {
    || t.frames == []
    || (|t.frames| == 1 && (t.frames[0].OrderDeclined? || t.frames[0].Error? || t.frames[0] == OrderReceipt(t.orderId)))
    || (|t.frames| == 2 && t.frames[0] == OrderReceipt(t.orderId)
        && (t.frames[1].Error? || t.frames[1].FailedOrder?
            || (t.frames[1].CompletedOrder? && t.frames[1].result.Some?)))
  }

  lemma FrameShapes(ids: Cluster, s: State, i: nat)
    requires ClusterOk(ids) && Reachable(ids, s) && IsOrder(s, i)
    ensures FramesExpected(s.work.threads[i])
  {
    hide ClusterOk, Reachable, IsFlatRecipe, InProgress, Carries, Blocked, Sent, IsSourceOf, DeliverOk;
    ThreadFacts(ids, s, i);
    var t := s.work.threads[i];
    if t.phase.Returned? && !t.frames[1].Error? {
      var signal :| Signalled(s.work, t.orderId, signal) && t.frames[1] == Stamped(t.kind.name, signal);
      var d, now := SignalFacts(ids, s, t.orderId, signal);
    }
  }

  /** An order thread dies only of a recipe whose canonical text the parser panics on: never of
      one that was read from a file and has no LF CR LF left in a token. */
  lemma NoOrderDies(ids: Cluster, s: State, i: nat)
    requires ClusterOk(ids) && Reachable(ids, s) && IsOrder(s, i)
    requires ServedLoaded(ids, s.work.threads[i].node, s.work.threads[i].kind.name)
    ensures !s.work.threads[i].phase.Crashed?
  {
    hide ClusterOk, Reachable, ParseRecipes, Receipted, IsLoaded, RecipeUnbroken;
    ThreadFacts(ids, s, i);
    var t := s.work.threads[i];
    forall text | IsSourceOf(ids, t.node, t.kind.name, text) ensures !ParseRecipes(text).Panicked? {
      var c :| Serves(ids, t.node, c, t.kind.name) && FindRecipe(ids[c].recipes, t.kind.name).value.source == text;
      LoadedReturns(FindRecipe(ids[c].recipes, t.kind.name).value);
    }
  }

  /** Exactly of what an order thread has died: the canonical text of the recipe it ordered has an
      action text that closes before it opens, where `ParserPanicsIff` says. `OrderCanDie` is the
      other direction. */
  lemma DeadOrderHadPanic(ids: Cluster, s: State, i: nat) returns (c: Addr, b: nat, step: nat, a: nat)
    requires ClusterOk(ids) && Reachable(ids, s) && IsOrder(s, i) && s.work.threads[i].phase.Crashed?
    ensures var t := s.work.threads[i];
      && Serves(ids, t.node, c, t.kind.name)
      && FilePanicsAt(FindRecipe(ids[c].recipes, t.kind.name).value.source, b, step, a)
  {
    hide ClusterOk, Reachable, ParseRecipes, Receipted, FilePanicsAt;
    ThreadFacts(ids, s, i);
    var t := s.work.threads[i];
    var text :| IsSourceOf(ids, t.node, t.kind.name, text) && ParseRecipes(text).Panicked?;
    c :| Serves(ids, t.node, c, t.kind.name) && FindRecipe(ids[c].recipes, t.kind.name).value.source == text;
    ParserPanicsIff(text);
    b, step, a :| FilePanicsAt(text, b, step, a);
  }

  lemma ReachOneMore(ids: Cluster, s: State, s': State)
    requires Reachable(ids, s) && ClusterStep(ids, s, s')
    ensures Reachable(ids, s')
  {
    hide ClusterStep;
    var run :| IsRun(ids, run) && run[|run| - 1] == s;
    var longer := run + [s'];
    assert IsRun(ids, longer) && longer[|longer| - 1] == s';
  }

  lemma ReachByMove(ids: Cluster, s: State, i: nat, e: Effect)
    requires Reachable(ids, s) && i < |s.work.threads| && s.work.threads[i].node in Tables(s)
    requires ThreadStep(ids, Tables(s)[s.work.threads[i].node], s.work, i, e)
    ensures Reachable(ids, State(s.net, Apply(s.work, i, e)))
  {
    hide ThreadStep, Apply, Reachable;
    ReachOneMore(ids, s, State(s.net, Apply(s.work, i, e)));
  }

  /** Thread `i` of a reachable state. */
  ghost predicate Has(ids: Cluster, s: State, i: nat, t: Thread) {
    Reachable(ids, s) && i < |s.work.threads| && s.work.threads[i] == t && t.node in Tables(s) && t.node in ids
  }

  lemma MoveOn(ids: Cluster, s: State, i: nat, t: Thread, e: Effect) returns (s': State)
    requires Has(ids, s, i, t) && ThreadStep(ids, Tables(s)[t.node], s.work, i, e)
    requires e.thread.node == t.node && e.spawned.None?
    ensures Has(ids, s', i, e.thread)
  {
    hide ThreadStep, Reachable;
    s' := State(s.net, Apply(s.work, i, e));
    ReachByMove(ids, s, i, e);
  }

  lemma OrderBegins(ids: Cluster, s: State, i: nat, t: Thread) returns (s': State)
    requires Has(ids, s, i, t) && t.kind.OrderKind? && t.phase.Received? && HasRecipe(ids[t.node], t.kind.name)
    ensures Has(ids, s', i, t.(frames := t.frames + [OrderReceipt(t.orderId)], phase := Asked(t.kind.name)))
  {
    hide Has, HasRecipe;
    HasIt(ids, s, i, t);
    var receipted := t.(frames := t.frames + [OrderReceipt(t.orderId)]);
    s' := MoveOn(ids, s, i, t, Become(receipted, Asked(t.kind.name)).(registers := true));
  }

  lemma HasIt(ids: Cluster, s: State, i: nat, t: Thread)
    requires Has(ids, s, i, t)
    ensures i < |s.work.threads| && s.work.threads[i] == t && t.node in Tables(s) && t.node in ids
  {}

  lemma OrderFinds(ids: Cluster, s: State, i: nat, t: Thread, name: string) returns (s': State)
    requires Has(ids, s, i, t) && t.phase == Asked(name) && FindRecipe(ids[t.node].recipes, name).Some?
    ensures Has(ids, s', i, t.(phase := RecipeDone(RecipeAnswer(FindRecipe(ids[t.node].recipes, name).value.source))))
  {
    hide Has, FindRecipe;
    HasIt(ids, s, i, t);
    s' := MoveOn(ids, s, i, t, Become(t, RecipeDone(RecipeAnswer(FindRecipe(ids[t.node].recipes, name).value.source))));
  }

  lemma OrderDies(ids: Cluster, s: State, i: nat, t: Thread, text: string) returns (s': State)
    requires Has(ids, s, i, t) && t.kind.OrderKind? && t.phase == RecipeDone(RecipeAnswer(text))
    requires ParseRecipes(text).Panicked?
    ensures Has(ids, s', i, t.(phase := Crashed))
  {
    hide Has, ParseRecipes;
    HasIt(ids, s, i, t);
    s' := MoveOn(ids, s, i, t, Become(t, Crashed));
  }

  /** And it can die of every such recipe: of one the node has itself, whatever else goes on. */
  lemma OrderCanDie(ids: Cluster, s: State, node: Addr, name: string, orderId: string) returns (s': State, i: nat)
    requires ClusterOk(ids) && Reachable(ids, s)
    requires forall j :: 0 <= j < |s.work.threads| ==> s.work.threads[j].orderId != orderId
    requires node in ids && FindRecipe(ids[node].recipes, name).Some?
    requires ParseRecipes(FindRecipe(ids[node].recipes, name).value.source).Panicked?
    ensures Reachable(ids, s') && IsOrder(s', i)
    ensures var t := s'.work.threads[i]; t.kind == OrderKind(name) && t.node == node && t.phase.Crashed?
  {
    hide Reachable, ParseRecipes, FindRecipe, HasRecipe, WorkOk;
    ReachableOk(ids, s);
    FoundIffHas(ids[node], name);
    i := |s.work.threads|;
    var t := Thread(node, OrderKind(name), orderId, None, [], [], Received);
    s' := State(s.net, s.work.(threads := s.work.threads + [t]));
    assert NewOrder(ids, s.work, s'.work, node, name, orderId);
    ReachOneMore(ids, s, s');
    var text := FindRecipe(ids[node].recipes, name).value.source;
    var receipted := t.(frames := t.frames + [OrderReceipt(orderId)], phase := Asked(name));
    s' := OrderBegins(ids, s', i, t);
    s' := OrderFinds(ids, s', i, receipted, name);
    s' := OrderDies(ids, s', i, receipted.(phase := RecipeDone(RecipeAnswer(text))), text);
  }

  /** However much of the answer arrives, the client never meets a frame it does not expect,
      and what it calls delivered is a result. */
  lemma ClientNeverSurprised(ids: Cluster, s: State, i: nat, read: nat)
    requires ClusterOk(ids) && Reachable(ids, s) && IsOrder(s, i) && read <= |s.work.threads[i].frames|
    ensures var end := ClientOrder(s.work.threads[i].frames[..read]);
      !end.Unexpected? && (end.Delivered? ==> end.result.Some? && s.work.threads[i].phase.Returned?)
  {
    hide ClusterOk, Reachable, IsFlatRecipe, InProgress, Carries, Blocked, Sent, IsSourceOf, FinalReply;
    FrameShapes(ids, s, i);
    ThreadFacts(ids, s, i);
  }

  /** The client that reads everything reports exactly how the order ended: delivered with the
      result of the completed order, failed with its error, declined with its reason, or the
      error; and no answer exactly while the order has not ended, or if its thread died. */
  lemma ClientReportsTheEnd(ids: Cluster, s: State, i: nat)
    requires ClusterOk(ids) && Reachable(ids, s) && IsOrder(s, i)
    ensures var t := s.work.threads[i]; var end := ClientOrder(t.frames);
      && (forall r :: end == Delivered(Some(r)) <==>
            t.phase.Returned? && t.frames == [OrderReceipt(t.orderId), CompletedOrder(t.kind.name, Some(r))])
      && (forall e :: end == Failed(e) <==>
            t.phase.Returned? && t.frames == [OrderReceipt(t.orderId), FailedOrder(t.kind.name, e)])
      && (forall reason :: end == Declined(reason) <==> t.phase.LeftEarly? && t.frames == [OrderDeclined(reason)])
      && (forall m :: end == Errored(m) <==>
            || (t.phase.LeftEarly? && t.frames == [Error(m)])
            || ((t.phase.LeftEarly? || t.phase.Returned?) && t.frames == [OrderReceipt(t.orderId), Error(m)]))
      && (end.NoAnswer? <==> !t.phase.LeftEarly? && !t.phase.Returned?)
  {
    hide ClusterOk, Reachable, IsFlatRecipe, InProgress, Carries, Blocked, Sent, IsSourceOf, DeliverOk;
    FrameShapes(ids, s, i);
    ThreadFacts(ids, s, i);
    var t := s.work.threads[i];
    if t.phase.Returned? && !t.frames[1].Error? {
      var signal :| Signalled(s.work, t.orderId, signal) && t.frames[1] == Stamped(t.kind.name, signal);
      var d, now := SignalFacts(ids, s, t.orderId, signal);
    }
  }

  // ── Payloads on their way ─────────────────────────────────────────────────────

  function PayloadOf(phase: Phase): Option<Payload> {
    match phase
    case Arrived(p) => Some(p)
    case Trying(p, _) => Some(p)
    case Waiting(p, _, _) => Some(p)
    case Finishing(p) => Some(p)
    case _ => None
  }

  predicate HopsBounded(ids: Cluster, t: Thread, p: Payload) {
    || |t.hops| <= p.index
    || (|t.hops| == p.index + 1 && t.phase.Arrived? && t.node in ids
        && p.index < |p.sequence| && CanRun(ids[t.node], p.sequence[p.index]))
  }

  lemma CarriesFacts(ids: Cluster, w: Work, t: Thread, p: Payload)
    requires ThreadOk(ids, w, t) && PayloadOf(t.phase) == Some(p)
    ensures Carries(ids, w, t, p) && HopsBounded(ids, t, p)
  {
    hide Carries, Ordered;
  }

  /** Every copy of every payload: it records exactly the actions done, each by a node that can
      do it; its forwards are exactly the chain of nodes it came through (failed attempts leave
      nothing), which ends here; and it has hopped at most once per action done, plus the hop it
      has just made to a node that can do the next one. */
  lemma TraceIsTrue(ids: Cluster, s: State, i: nat, p: Payload)
    requires ClusterOk(ids) && Reachable(ids, s) && i < |s.work.threads|
    requires PayloadOf(s.work.threads[i].phase) == Some(p)
    ensures var t := s.work.threads[i];
      && t.orderId in s.work.born && SameOrder(s.work.born[t.orderId], p)
      && p.index <= |p.sequence| && p.content == ContentOf(p.sequence[..p.index])
      && ActionsOf(p.updates) == p.sequence[..p.index] && Attributed(ids, p.host, p.updates)
      && HolderOf(p.host, p.updates) == t.node && HopsOf(p.updates) == t.hops
      && HopsBounded(ids, t, p)
  {
    hide ClusterOk, Reachable, ThreadOk, HopsBounded;
    ThreadFacts(ids, s, i);
    CarriesFacts(ids, s.work, s.work.threads[i], p);
  }

  /** A node never hands anything to itself; a payload's chain grows by exactly the node it is
      handed to; and a recipe request that came from a peer is never passed on. */
  lemma NeverToItself(ids: Cluster, s: State, i: nat)
    requires ClusterOk(ids) && Reachable(ids, s) && i < |s.work.threads| && s.work.threads[i].parent.Some?
    ensures var t := s.work.threads[i];
      && t.parent.value < i && var sender := s.work.threads[t.parent.value];
      && t.node != sender.node && t.orderId == sender.orderId
      && (t.kind.ProcessKind? ==> t.hops == sender.hops + [t.node])
      && (t.kind.RecipeKind? ==> sender.parent.None?)
  {
    hide ClusterOk, Reachable, WorkOk, PhaseOk;
    ReachableOk(ids, s);
    ChainFacts(ids, s.work, i);
    AtThread(ids, s.work, s.work.threads[i].parent.value);
  }

  lemma ChainFacts(ids: Cluster, w: Work, i: nat)
    requires WorkOk(ids, w) && i < |w.threads| && w.threads[i].parent.Some?
    ensures w.threads[i].parent.value < i && IsChildOf(w.threads[w.threads[i].parent.value], w.threads[i])
  {
    hide ThreadOk, DeliverOk, ChannelsOk, PendingOk, OneThreadPerOrder;
  }

  /** A forwarded payload is moved on by the node that gets it: it runs at least one action. */
  lemma EveryHopAdvances(ids: Cluster, s: State, i: nat, e: Effect)
    requires ClusterOk(ids) && Reachable(ids, s) && i < |s.work.threads|
    requires s.work.threads[i].kind.ProcessKind? && s.work.threads[i].phase.Arrived?
    requires s.work.threads[i].node in Tables(s)
    requires ThreadStep(ids, Tables(s)[s.work.threads[i].node], s.work, i, e)
    ensures PayloadOf(e.thread.phase).Some?
    ensures PayloadOf(e.thread.phase).value.index > s.work.threads[i].phase.payload.index
  {
    hide ClusterOk, Reachable, InProgress, IsFlatRecipe, HolderOf, HopsOf;
    ThreadFacts(ids, s, i);
    var t := s.work.threads[i];
    var p := t.phase.payload;
    var table := Tables(s)[t.node];
    assert ThreadStep(ids, table, s.work, i, e) ==> RunHere(ids[t.node], table, t, p, e);
    var q :| LocalRun(ids[t.node], p, q) && AfterRun(table, t, q, e);
    RunFacts(ids, s.work.born[t.orderId], p, q);
  }

  /** A node answers a peer's recipe request from its own recipes, and never asks further. */
  lemma PeerAnswersItself(ids: Cluster, s: State, i: nat)
    requires ClusterOk(ids) && Reachable(ids, s) && i < |s.work.threads|
    requires s.work.threads[i].kind.RecipeKind? && s.work.threads[i].parent.Some?
    ensures var t := s.work.threads[i];
      && t.node in ids && var own := FindRecipe(ids[t.node].recipes, t.kind.wanted);
      && own.Some?
      && (t.phase == Asked(t.kind.wanted) || t.phase == RecipeDone(RecipeAnswer(own.value.source)))
  {
    hide ClusterOk, Reachable, InProgress, DeliverOk;
    ThreadFacts(ids, s, i);
    var t := s.work.threads[i];
    FoundIffHas(ids[t.node], t.kind.wanted);
  }

  /** The answer to a drive is an error, or an empty placeholder with a delivery written. */
  lemma PlaceholderMeansDelivered(ids: Cluster, s: State, i: nat)
    requires ClusterOk(ids) && Reachable(ids, s) && i < |s.work.threads| && s.work.threads[i].phase.Driven?
    ensures var t := s.work.threads[i]; var m := t.phase.answer;
      || m.Error?
      || (m.CompletedOrder? && m.result.None? && exists d :: d in s.work.delivers && d.payload.orderId == t.orderId)
  {
    hide ClusterOk, Reachable, InProgress, DeliverOk, Driving;
    ThreadFacts(ids, s, i);
    var t := s.work.threads[i];
    if !t.phase.answer.Error? {
      var k :| 0 <= k < |s.work.delivers| && s.work.delivers[k].payload.orderId == t.orderId;
    }
  }

  // ── Waiting orders ────────────────────────────────────────────────────────────

  /** At most one message is ever put on an order's channel, and none while its entry is in the
      map: a delivery that finds the entry never blocks on a full slot. */
  lemma SlotIsFree(ids: Cluster, s: State, key: (Addr, string))
    requires ClusterOk(ids) && Reachable(ids, s)
    ensures key.1 in s.work.channel ==> |s.work.channel[key.1]| <= 1
    ensures key in s.work.pending ==> key.1 in s.work.channel && s.work.channel[key.1] == []
  {
    hide ThreadOk, ClusterOk, Reachable, DeliverOk, ChainsOk;
    ReachableOk(ids, s);
  }

  /** An order that has ended has left its entry behind exactly when it ended between its receipt
      and driving its payload: in an error, or because the parser panicked. */
  lemma EntryLeftIffEarlyError(ids: Cluster, s: State, i: nat)
    requires ClusterOk(ids) && Reachable(ids, s) && IsOrder(s, i)
    requires var phase := s.work.threads[i].phase; phase.LeftEarly? || phase.Returned? || phase.Crashed?
    ensures var t := s.work.threads[i];
      (exists node :: (node, t.orderId) in s.work.pending) <==>
        (t.phase.LeftEarly? && |t.frames| == 2) || t.phase.Crashed?
  {
    hide ClusterOk, Reachable, DeliverOk, ChainsOk, IsFlatRecipe, FinalReply, ChannelsOk;
    ThreadFacts(ids, s, i);
    ReachableOk(ids, s);
    var t := s.work.threads[i];
    if node :| (node, t.orderId) in s.work.pending {
      var j :| 0 <= j < |s.work.threads| && Waits(s.work.threads[j], node, t.orderId);
      assert j == i;
    }
  }
}
