/** One order with which nothing goes wrong, from the moment it is placed, in a cluster where
    anything may have happened before and may happen to other orders: the handlers of this order
    act on converged peer tables, every request of theirs reaches its peer, every answer is heard
    and every delivery is written and waited for. */
module ReliableOrders {
  import opened Text
  import opened StringOrder
  import opened Recipe
  import opened RecipeSpec
  import opened Gossip
  import opened Orders
  import opened OrderSystem
  import opened Traces
  import opened OrderInvariant
  import opened OrderPreservation
  import opened ClusterSystem
  import opened OrderTermination
  import opened OrderResults
  import opened Listing

  /** Every node knows what every other node can do. */
  predicate TableConverged(ids: Cluster, n: Addr, table: PeerTable) {
    forall m :: m in ids && m != n ==> m in table && table[m].capabilities == ids[m].capabilities
  }

  /** ... and which recipes it has. */
  predicate Converged(ids: Cluster, tables: map<Addr, PeerTable>) {
    && tables.Keys == ids.Keys
    && (forall n :: n in ids ==> TableConverged(ids, n, tables[n]))
    && (forall n, m :: n in ids && m in ids && m != n ==>
        m in tables[n] && tables[n][m].recipes == RecipeNames(ids[m].recipes))
  }

  predicate SomeoneKnows(ids: Cluster, name: string) {
    exists c :: c in ids && HasRecipe(ids[c], name)
  }

  /** If some node has the recipe, this one has it or sees one that does. */
  predicate RecipeSeen(ids: Cluster, n: Addr, table: PeerTable, name: string) {
    SomeoneKnows(ids, name) ==> Knows(ids, n, name) || RecipePeers(table, name) != {}
  }

  /** The table says what this handler needs from it now. */
  predicate Informed(ids: Cluster, t: Thread, table: PeerTable) {
    && TableConverged(ids, t.node, table)
    && match t.phase
       case Received => t.kind.OrderKind? ==> RecipeSeen(ids, t.node, table, t.kind.name)
       case Asked(name) => RecipeSeen(ids, t.node, table, name)
       case _ => true
  }

  lemma ConvergedInforms(ids: Cluster, tables: map<Addr, PeerTable>, t: Thread)
    requires Converged(ids, tables) && t.node in ids
    ensures Informed(ids, t, tables[t.node])
  {
    forall name ensures RecipeSeen(ids, t.node, tables[t.node], name) {
      if SomeoneKnows(ids, name) && !Knows(ids, t.node, name) {
        var c :| c in ids && HasRecipe(ids[c], name);
        var k :| 0 <= k < |ids[c].recipes| && ids[c].recipes[k].name == name;
        assert RecipeNames(ids[c].recipes)[k] == name;
        assert c in RecipePeers(tables[t.node], name);
      }
    }
  }

  /** A handler of this order moves without a fault, on a converged table. */
  ghost predicate GoodMove(ids: Cluster, tables: map<Addr, PeerTable>, w: Work, w': Work, orderId: string) {
    exists i: nat, e ::
      && i < |w.threads| && w.threads[i].orderId == orderId && w.threads[i].node in tables
      && Informed(ids, w.threads[i], tables[w.threads[i].node])
      && ThreadStep(ids, tables[w.threads[i].node], w, i, e) && Faultless(w.threads[i], e) && w' == Apply(w, i, e)
  }

  /** A handler of any other order moves, whatever goes wrong. */
  ghost predicate OtherMove(ids: Cluster, tables: map<Addr, PeerTable>, w: Work, w': Work, orderId: string) {
    exists i: nat, e ::
      && i < |w.threads| && w.threads[i].orderId != orderId && w.threads[i].node in tables
      && ThreadStep(ids, tables[w.threads[i].node], w, i, e) && w' == Apply(w, i, e)
  }

  ghost predicate ClientOrDelivery(ids: Cluster, w: Work, w': Work) {
    || (exists node, name, orderId :: NewOrder(ids, w, w', node, name, orderId))
    || (exists node, name :: NewRequest(ids, w, w', node, name))
    || (exists k, now :: ReceiveDeliver(ids, w, w', k, now))
  }

  ghost predicate GoodStep(ids: Cluster, orderId: string, s: State, s': State) {
    || (GossipNetwork.Step(ids, s.net, s'.net) && s'.work == s.work)
    || (s'.net == s.net
        && (GoodMove(ids, Tables(s), s.work, s'.work, orderId) || OtherMove(ids, Tables(s), s.work, s'.work, orderId)
            || ClientOrDelivery(ids, s.work, s'.work)))
  }

  ghost predicate Placed(ids: Cluster, orderId: string, s: State, s': State) {
    s'.net == s.net && exists node, name :: NewOrder(ids, s.work, s'.work, node, name, orderId)
  }

  /** Any reachable state, the order, and good steps from there on. */
  ghost predicate IsGoodRun(ids: Cluster, orderId: string, run: seq<State>) {
    && |run| >= 2 && Reachable(ids, run[0]) && Placed(ids, orderId, run[0], run[1])
    && forall i :: 1 <= i < |run| - 1 ==> GoodStep(ids, orderId, run[i], run[i + 1])
  }

  /** The order has been placed some time ago, and nothing has gone wrong with it since. */
  ghost predicate GoodSince(ids: Cluster, orderId: string, s: State) {
    exists run :: IsGoodRun(ids, orderId, run) && run[|run| - 1] == s
  }

  // ── What that adds to the invariant ───────────────────────────────────────────

  predicate Nobody(ids: Cluster, a: ActionDef) {
    forall c :: c in ids ==> !CanRun(ids[c], a)
  }

  predicate StuckForGood(ids: Cluster, p: Payload) {
    p.index < |p.sequence| && Nobody(ids, p.sequence[p.index])
  }

  /** Some node has the recipe, and the one that the node would order reads back. */
  ghost predicate Obtainable(ids: Cluster, node: Addr, name: string) {
    SomeoneKnows(ids, name) && ServedOnFile(ids, node, name)
  }

  /** Giving up means nobody can, or nobody has the recipe; a drive never fails; and an order of a
      recipe that somebody has never ends early. */
  ghost predicate CleanThread(ids: Cluster, t: Thread) {
    match t.phase
    case Asking(name, left) => left == [] ==> !SomeoneKnows(ids, name)
    case RecipeDone(m) => t.kind.OrderKind? && SomeoneKnows(ids, t.kind.name) ==> m.RecipeAnswer?
    case LeftEarly => t.kind.OrderKind? ==> !Obtainable(ids, t.node, t.kind.name)
    case Crashed => t.kind.OrderKind? ==> !Obtainable(ids, t.node, t.kind.name)
    case Trying(p, left) => left == [] ==> StuckForGood(ids, p)
    case Driven(m) => !m.Error?
    case Woken(m) => !m.Error?
    case Returned => |t.frames| == 2 ==> !t.frames[1].Error?
    case _ => true
  }

  predicate CleanDelivery(ids: Cluster, d: DeliverMsg) {
    d.error.Some? ==> StuckForGood(ids, d.payload)
  }

  /** A thread waits only for threads started after it. */
  predicate WaitsForLater(i: nat, t: Thread) {
    (t.phase.AwaitingRecipe? ==> i < t.phase.child) && (t.phase.Waiting? ==> i < t.phase.child)
  }

  /** An order that waits is still in the map, or has its message. */
  predicate Linked(w: Work, t: Thread) {
    Waits(t, t.node, t.orderId) ==>
      (t.node, t.orderId) in w.pending || (t.orderId in w.channel && w.channel[t.orderId] != [])
  }

  /** All of this for the threads and the deliveries of one order. */
  ghost predicate CleanOk(ids: Cluster, w: Work, orderId: string) {
    && (forall i :: 0 <= i < |w.threads| && w.threads[i].orderId == orderId ==>
        CleanThread(ids, w.threads[i]) && WaitsForLater(i, w.threads[i]) && Linked(w, w.threads[i]))
    && (forall k :: 0 <= k < |w.delivers| && w.delivers[k].payload.orderId == orderId ==>
        CleanDelivery(ids, w.delivers[k]))
  }

  ghost predicate EffectClean(ids: Cluster, i: nat, t: Thread, e: Effect) {
    && (t.phase.Received? ==> e.registers || (e.thread.phase.LeftEarly? && |e.thread.frames| == 1))
    && CleanThread(ids, e.thread) && WaitsForLater(i, e.thread)
    && (e.spawned.Some? ==>
        !e.spawned.value.kind.OrderKind? && (e.spawned.value.phase.Asked? || e.spawned.value.phase.Arrived?))
    && (e.delivered.Some? ==> CleanDelivery(ids, e.delivered.value))
  }

  // ── Good steps keep it ────────────────────────────────────────────────────────

  lemma NoCandidateMeansNobody(ids: Cluster, n: Addr, table: PeerTable, a: ActionDef)
    requires n in ids && !CanRun(ids[n], a) && TableConverged(ids, n, table) && CapablePeers(table, a.name) == {}
    ensures Nobody(ids, a)
  {
    forall c | c in ids ensures !CanRun(ids[c], a) {
      if c != n { assert c !in CapablePeers(table, a.name); }
    }
  }

  lemma RunClean(ids: Cluster, table: PeerTable, w: Work, i: nat, e: Effect, p: Payload)
    requires WorkOk(ids, w) && ThreadStep(ids, table, w, i, e) && w.threads[i].phase == Arrived(p)
    requires TableConverged(ids, w.threads[i].node, table)
    ensures EffectClean(ids, i, w.threads[i], e)
  {
    hide WorkOk, InProgress, HolderOf, HopsOf, LocalRun, Ordered, CanRun, TableConverged, Nobody;
    var t := w.threads[i];
    AtThread(ids, w, i);
    var q :| LocalRun(ids[t.node], p, q) && AfterRun(table, t, q, e);
    RunFacts(ids, w.born[t.orderId], p, q);
    if q.index < |q.sequence| {
      var action := q.sequence[q.index];
      var order :| IsOrderOf(order, CapablePeers(table, action.name)) && e == Become(t, Trying(q, order));
      if CapablePeers(table, action.name) == {} { NoCandidateMeansNobody(ids, t.node, table, action); }
      HasElement(order);
      forall c | c in CapablePeers(table, action.name) ensures order != [] { assert c in order; }
    }
  }

  lemma FetchClean(ids: Cluster, table: PeerTable, w: Work, i: nat, e: Effect)
    requires WorkOk(ids, w) && ThreadStep(ids, table, w, i, e) && Faultless(w.threads[i], e)
    requires CleanThread(ids, w.threads[i]) && Informed(ids, w.threads[i], table)
    requires var phase := w.threads[i].phase; phase.Received? || phase.Asked? || phase.Asking?
    ensures EffectClean(ids, i, w.threads[i], e)
  {
    hide WorkOk, StuckForGood, ServedOnFile, SomeoneKnows, TableConverged;
    var t := w.threads[i];
    AtThread(ids, w, i);
    if t.phase.Asked? {
      var name := t.phase.name;
      FoundIffHas(ids[t.node], name);
      if FindRecipe(ids[t.node].recipes, name).None? {
        var order :| IsOrderOf(order, RecipePeers(table, name)) && e == Become(t, Asking(name, order));
        forall c | c in RecipePeers(table, name) ensures order != [] { assert c in order; }
      }
    }
  }

  /** A peer that is asked has the recipe, and answers with it. */
  lemma HearClean(ids: Cluster, table: PeerTable, w: Work, i: nat, e: Effect)
    requires WorkOk(ids, w) && ThreadStep(ids, table, w, i, e) && Faultless(w.threads[i], e)
    requires w.threads[i].phase.AwaitingRecipe?
    ensures EffectClean(ids, i, w.threads[i], e)
  {
    hide WorkOk, StuckForGood, ServedOnFile, SomeoneKnows, IsSourceOf;
    var t := w.threads[i];
    AtThread(ids, w, i);
    AtThread(ids, w, t.phase.child);
  }

  lemma DriveClean(ids: Cluster, table: PeerTable, w: Work, i: nat, e: Effect)
    requires WorkOk(ids, w) && ThreadStep(ids, table, w, i, e) && w.threads[i].phase.RecipeDone?
    requires CleanThread(ids, w.threads[i])
    ensures EffectClean(ids, i, w.threads[i], e)
  {
    hide WorkOk, StuckForGood, ParseRecipes, FindRecipe, ServedOnFile, Flatten, SomeoneKnows;
    var t := w.threads[i];
    AtThread(ids, w, i);
    if t.phase.answer.RecipeAnswer? && ServedOnFile(ids, t.node, t.kind.name) {
      SourceReadsBack(ids, t.node, t.kind.name, t.phase.answer.recipe);
    }
  }

  lemma PayloadClean(ids: Cluster, table: PeerTable, w: Work, i: nat, e: Effect)
    requires i < |w.threads| && WorkOk(ids, w) && CleanOk(ids, w, w.threads[i].orderId)
    requires ThreadStep(ids, table, w, i, e) && Faultless(w.threads[i], e)
    requires var phase := w.threads[i].phase; phase.Trying? || phase.Waiting? || phase.Finishing?
    ensures EffectClean(ids, i, w.threads[i], e)
  {
    hide WorkOk, StuckForGood, Linked, Carries, Blocked, Ordered;
    AtThread(ids, w, i);
  }

  lemma ReplyClean(ids: Cluster, table: PeerTable, w: Work, i: nat, e: Effect)
    requires i < |w.threads| && WorkOk(ids, w) && CleanOk(ids, w, w.threads[i].orderId)
    requires ThreadStep(ids, table, w, i, e) && Faultless(w.threads[i], e)
    requires var phase := w.threads[i].phase; phase.Driven? || phase.Parked? || phase.Woken?
    ensures EffectClean(ids, i, w.threads[i], e)
  {
    hide WorkOk, StuckForGood, Linked, IsFlatRecipe, Signalled, Sent, Carries, Blocked,
      Seeking, TextPanics, RecipeReply;
    var t := w.threads[i];
    assert CleanThread(ids, t);
    AtThread(ids, w, i);
  }

  lemma StepClean(ids: Cluster, table: PeerTable, w: Work, i: nat, e: Effect)
    requires WorkOk(ids, w) && i < |w.threads| && CleanOk(ids, w, w.threads[i].orderId)
    requires ThreadStep(ids, table, w, i, e) && Faultless(w.threads[i], e)
    requires Informed(ids, w.threads[i], table)
    ensures EffectClean(ids, i, w.threads[i], e)
  {
    hide WorkOk, EffectClean, Faultless, TableConverged, CleanThread;
    match w.threads[i].phase {
      case RecipeDone(_) => DriveClean(ids, table, w, i, e);
      case Arrived(p) => RunClean(ids, table, w, i, e, p);
      case Trying(_, _) => PayloadClean(ids, table, w, i, e);
      case Waiting(_, _, _) => PayloadClean(ids, table, w, i, e);
      case Finishing(_) => PayloadClean(ids, table, w, i, e);
      case Received => FetchClean(ids, table, w, i, e);
      case Asked(_) => FetchClean(ids, table, w, i, e);
      case Asking(_, _) => FetchClean(ids, table, w, i, e);
      case AwaitingRecipe(_, _, _) => HearClean(ids, table, w, i, e);
      case _ => ReplyClean(ids, table, w, i, e);
    }
  }

  lemma LinksKept(ids: Cluster, w: Work, i: nat, e: Effect, j: nat)
    requires OneThreadPerOrder(w) && i < |w.threads| && j < |w.threads|
    requires EffectOk(ids, w, i, e) && EffectClean(ids, i, w.threads[i], e) && Linked(w, w.threads[j])
    ensures var w' := Apply(w, i, e); Linked(w', w'.threads[j])
  {
    hide ThreadOk, DeliverOk, CleanThread, CleanDelivery;
    var t, t' := w.threads[i], e.thread;
    if j == i {
      assert Waits(t', t.node, t.orderId) ==> Waits(t, t.node, t.orderId) || e.registers;
    } else {
      assert t.kind.OrderKind? && w.threads[j].kind.OrderKind? ==> w.threads[j].orderId != t.orderId;
    }
  }

  lemma EffectKeepsClean(ids: Cluster, w: Work, i: nat, e: Effect)
    requires WorkOk(ids, w) && i < |w.threads| && CleanOk(ids, w, w.threads[i].orderId)
    requires EffectOk(ids, w, i, e) && EffectClean(ids, i, w.threads[i], e)
    ensures CleanOk(ids, Apply(w, i, e), w.threads[i].orderId)
  {
    hide ThreadOk, DeliverOk, ChannelsOk, PendingOk, ChainsOk, StuckForGood, Obtainable, SomeoneKnows;
    var w', orderId := Apply(w, i, e), w.threads[i].orderId;
    forall j | 0 <= j < |w'.threads| && w'.threads[j].orderId == orderId ensures Linked(w', w'.threads[j]) {
      if j < |w.threads| { LinksKept(ids, w, i, e, j); }
    }
  }

  /** What another order does, well or badly, does not touch this one. */
  lemma OtherKeepsClean(ids: Cluster, w: Work, i: nat, e: Effect, orderId: string)
    requires i < |w.threads| && w.threads[i].orderId != orderId && CleanOk(ids, w, orderId) && EffectOk(ids, w, i, e)
    ensures CleanOk(ids, Apply(w, i, e), orderId)
  {
    hide ThreadOk, DeliverOk, CleanThread, CleanDelivery, WaitsForLater;
    var w' := Apply(w, i, e);
    forall j | 0 <= j < |w'.threads| && w'.threads[j].orderId == orderId
      ensures j < |w.threads| && w'.threads[j] == w.threads[j] && Linked(w', w'.threads[j])
    {
      assert j != i && j < |w.threads| && Linked(w, w.threads[j]);
    }
  }

  lemma ReceiveKeepsClean(ids: Cluster, w: Work, w': Work, k: nat, now: nat, orderId: string)
    requires CleanOk(ids, w, orderId) && ReceiveDeliver(ids, w, w', k, now)
    ensures CleanOk(ids, w', orderId)
  {
    hide CleanThread, CleanDelivery, WaitsForLater;
    forall j | 0 <= j < |w'.threads| && w'.threads[j].orderId == orderId ensures Linked(w', w'.threads[j]) {
      assert Linked(w, w.threads[j]);
    }
  }

  lemma ClientKeepsClean(ids: Cluster, w: Work, w': Work, orderId: string)
    requires CleanOk(ids, w, orderId) && ClientOrDelivery(ids, w, w')
    ensures CleanOk(ids, w', orderId)
  {
    if k, now :| ReceiveDeliver(ids, w, w', k, now) {
      ReceiveKeepsClean(ids, w, w', k, now, orderId);
    } else {
      hide CleanDelivery, Obtainable, SomeoneKnows;
      assert w' == w.(threads := w'.threads) && |w'.threads| == |w.threads| + 1;
      assert w'.threads[..|w.threads|] == w.threads;
      forall j | 0 <= j < |w'.threads| && w'.threads[j].orderId == orderId
        ensures CleanThread(ids, w'.threads[j]) && WaitsForLater(j, w'.threads[j]) && Linked(w', w'.threads[j])
      {
        if j < |w.threads| { assert w'.threads[j] == w.threads[j] && Linked(w, w.threads[j]); }
      }
    }
  }

  lemma GoodStepKeepsClean(ids: Cluster, orderId: string, s: State, s': State)
    requires ClusterOk(ids) && StateOk(ids, s) && CleanOk(ids, s.work, orderId) && GoodStep(ids, orderId, s, s')
    ensures StateOk(ids, s') && CleanOk(ids, s'.work, orderId)
  {
    hide WorkOk, CleanOk, GossipNetwork.Ok, GossipNetwork.Step, TableTrue, ThreadStep, Faultless, Apply, Informed,
      EffectOk, EffectClean, ClientOrDelivery, ClusterStep;
    GoodIsStep(ids, orderId, s, s');
    StepKeepsOk(ids, s, s');
    OkTablesTrue(ids, s);
    var w, w' := s.work, s'.work;
    if s'.net == s.net && GoodMove(ids, Tables(s), w, w', orderId) {
      var i: nat, e :| i < |w.threads| && w.threads[i].orderId == orderId && w.threads[i].node in Tables(s)
        && Informed(ids, w.threads[i], Tables(s)[w.threads[i].node])
        && ThreadStep(ids, Tables(s)[w.threads[i].node], w, i, e) && Faultless(w.threads[i], e) && w' == Apply(w, i, e);
      ThreadStepOrderly(ids, Tables(s)[w.threads[i].node], w, i, e);
      StepClean(ids, Tables(s)[w.threads[i].node], w, i, e);
      EffectKeepsClean(ids, w, i, e);
    } else if s'.net == s.net && OtherMove(ids, Tables(s), w, w', orderId) {
      var i: nat, e :| i < |w.threads| && w.threads[i].orderId != orderId && w.threads[i].node in Tables(s)
        && ThreadStep(ids, Tables(s)[w.threads[i].node], w, i, e) && w' == Apply(w, i, e);
      ThreadStepOrderly(ids, Tables(s)[w.threads[i].node], w, i, e);
      OtherKeepsClean(ids, w, i, e, orderId);
    } else if w' != w {
      ClientKeepsClean(ids, w, w', orderId);
    }
  }

  /** At the start there is nothing of the order but its thread. */
  lemma PlacedIsClean(ids: Cluster, orderId: string, s: State, s': State)
    requires ClusterOk(ids) && Reachable(ids, s) && Placed(ids, orderId, s, s')
    ensures Reachable(ids, s') && CleanOk(ids, s'.work, orderId)
  {
    hide Reachable, ThreadOk, InProgress, ChannelsOk, PendingOk, ChainsOk, BornOk;
    ReachableOk(ids, s);
    assert ClusterStep(ids, s, s');
    ReachOneMore(ids, s, s');
    var w := s.work;
    forall k | 0 <= k < |w.delivers| ensures w.delivers[k].payload.orderId != orderId {
      assert DeliverOk(ids, w.born, w.delivers[k]);
      assert OrderedBy(w, w.delivers[k].payload.orderId);
    }
  }

  lemma {:induction false} GoodRunOk(ids: Cluster, orderId: string, run: seq<State>, i: nat)
    requires ClusterOk(ids) && IsGoodRun(ids, orderId, run) && 1 <= i < |run|
    ensures Reachable(ids, run[i]) && CleanOk(ids, run[i].work, orderId)
  {
    hide ClusterOk, Reachable, GoodStep, CleanOk, Placed, ClusterStep;
    if i == 1 {
      PlacedIsClean(ids, orderId, run[0], run[1]);
    } else {
      GoodRunOk(ids, orderId, run, i - 1);
      ReachableOk(ids, run[i - 1]);
      GoodStepKeepsClean(ids, orderId, run[i - 1], run[i]);
      GoodIsStep(ids, orderId, run[i - 1], run[i]);
      ReachOneMore(ids, run[i - 1], run[i]);
    }
  }

  lemma GoodIsReachable(ids: Cluster, orderId: string, s: State)
    requires ClusterOk(ids) && GoodSince(ids, orderId, s)
    ensures Reachable(ids, s) && StateOk(ids, s) && CleanOk(ids, s.work, orderId)
  {
    hide ClusterOk, Reachable, StateOk, CleanOk, GoodStep, Placed;
    var run :| IsGoodRun(ids, orderId, run) && run[|run| - 1] == s;
    GoodRunOk(ids, orderId, run, |run| - 1);
    ReachableOk(ids, s);
  }

  lemma GoodIsStep(ids: Cluster, orderId: string, s: State, s': State)
    requires GoodStep(ids, orderId, s, s')
    ensures ClusterStep(ids, s, s')
  {
    hide ThreadStep, Apply, GossipNetwork.Step, Faultless, Informed;
  }

  // ── What an order of a local recipe comes to ──────────────────────────────────

  predicate Somebody(ids: Cluster, name: string) {
    exists c :: c in ids && name in ids[c].capabilities
  }

  lemma CoveredIsCluster(ids: Cluster, n: Addr, table: PeerTable, name: string)
    requires n in ids && TableTrue(ids, table) && TableConverged(ids, n, table)
    ensures name in Covered(ids[n], table) <==> Somebody(ids, name)
  {
    forall c | c in ids ensures name in ids[c].capabilities ==> name in Covered(ids[n], table) {
      assert c != n ==> c in table.Keys && table[c].capabilities == ids[c].capabilities;
    }
    forall a | a in table ensures name in table[a].capabilities ==> Somebody(ids, name) {
      assert EntryTrue(ids, a, table[a]);
    }
  }

  /** Whatever a trace records was done by somebody who can do it. */
  lemma {:induction false} RecordedIsPossible(ids: Cluster, host: Addr, us: seq<Update>)
    requires Attributed(ids, host, us)
    ensures forall a :: a in ActionsOf(us) ==> Somebody(ids, a.name)
  {
    if us != [] { RecordedIsPossible(ids, host, us[..|us| - 1]); }
  }

  /** In any network, however unreliable: an order completes only if for each of its actions
      some node has the capability. */
  lemma CompletedMeansPossible(ids: Cluster, s: State, i: nat)
    requires ClusterOk(ids) && Reachable(ids, s) && IsOrder(s, i)
    requires var t := s.work.threads[i]; t.phase.Returned? && |t.frames| == 2 && t.frames[1].CompletedOrder?
    ensures var t := s.work.threads[i];
      t.orderId in s.work.born && forall a :: a in s.work.born[t.orderId].sequence ==> Somebody(ids, a.name)
  {
    hide Reachable, Somebody, IsFlatRecipe, ContentOf;
    CompletedOrderIsRight(ids, s, i);
    var us := s.work.threads[i].frames[1].result.value.updates;
    RecordedIsPossible(ids, s.work.threads[i].node, us[..|us| - 1]);
  }

  /** Thread `i` is that of an order with which nothing has gone wrong. */
  ghost predicate GoodOrder(ids: Cluster, s: State, i: nat) {
    IsOrder(s, i) && GoodSince(ids, s.work.threads[i].orderId, s)
  }

  /** The delivery that answered the order: complete, or stopped for good. */
  lemma AnswerOfGoodOrder(ids: Cluster, s: State, i: nat) returns (d: DeliverMsg, now: nat)
    requires ClusterOk(ids) && GoodOrder(ids, s, i) && s.work.threads[i].phase.Returned?
    ensures var t := s.work.threads[i];
      && |t.frames| == 2 && t.frames[1] == Stamped(t.kind.name, SignalAt(d, now))
      && t.orderId == d.payload.orderId && DeliverOk(ids, s.work.born, d) && CleanDelivery(ids, d)
      && d in s.work.delivers && IsFlatRecipe(ids, t.node, t.kind.name, d.payload.sequence)
  {
    hide Reachable, GoodSince, Signalled, IsFlatRecipe, WorkOk, InProgress, StuckForGood;
    var t := s.work.threads[i];
    GoodIsReachable(ids, t.orderId, s);
    AtThread(ids, s.work, i);
    assert CleanThread(ids, t);
    var signal :| Signalled(s.work, t.orderId, signal) && t.frames[1] == Stamped(t.kind.name, signal);
    d, now := SignalFacts(ids, s, t.orderId, signal);
    assert InProgress(ids, s.work.born[t.orderId], d.payload);
    SequenceIsBorn(ids, s.work.born[t.orderId], d.payload);
  }

  lemma SequenceIsBorn(ids: Cluster, born: Payload, p: Payload)
    requires InProgress(ids, born, p)
    ensures p.sequence == born.sequence
  {}

  /** The payload has done exactly what comes before the first missing action. */
  predicate StoppedAt(p: Payload, missing: seq<string>) {
    && missing != [] && p.index < |p.sequence| && p.sequence[p.index].name == missing[0]
    && (forall j :: 0 <= j < p.index ==> p.sequence[j].name !in missing)
    && ActionsOf(p.updates) == p.sequence[..p.index] && p.content == ContentOf(p.sequence[..p.index])
  }

  /** How far a delivery got is decided by what the cluster can do. */
  lemma DeliveryMeetsMissing(ids: Cluster, born: map<string, Payload>, d: DeliverMsg, covered: set<string>)
    requires DeliverOk(ids, born, d) && CleanDelivery(ids, d)
    requires forall name :: name in covered <==> Somebody(ids, name)
    ensures var p, missing := d.payload, MissingOf(ActionNames(d.payload.sequence), covered);
      && (d.error.None? <==> missing == [])
      && (d.error.Some? ==> StoppedAt(p, missing))
  {
    hide Somebody, ContentOf, HopsOf, HolderOf, Attributed, ActionsOf, MissingOf, Distinct;
    var p := d.payload;
    var names := ActionNames(p.sequence);
    RecordedIsPossible(ids, p.host, p.updates);
    forall j | 0 <= j < p.index ensures names[j] in covered {
      assert p.sequence[..p.index][j] in p.sequence[..p.index];
    }
    MissingIsUncovered(names, covered);
    if d.error.Some? {
      NobodyIsNotSomebody(ids, p.sequence[p.index]);
      FirstMissing(names, covered, p.index);
      assert forall j :: 0 <= j < p.index ==> names[j] == p.sequence[j].name;
    } else {
      HasElement(MissingOf(names, covered));
    }
  }

  lemma NobodyIsNotSomebody(ids: Cluster, a: ActionDef)
    requires Nobody(ids, a)
    ensures !Somebody(ids, a.name)
  {
    forall c | c in ids ensures a.name !in ids[c].capabilities { assert !CanRun(ids[c], a); }
  }

  /** No other recipe of the node has the name. */
  predicate UniqueName(recipes: seq<Recipe>, name: string) {
    forall i, j :: 0 <= i < j < |recipes| ==> !(recipes[i].name == recipes[j].name == name)
  }

  lemma OwnListing(ids: Cluster, node: Addr, name: string, table: PeerTable, sequence: seq<ActionDef>)
    requires Knows(ids, node, name) && ServedOnFile(ids, node, name) && UniqueName(ids[node].recipes, name)
    requires IsFlatRecipe(ids, node, name, sequence)
    ensures Reports(ids[node], table, name, MissingOf(ActionNames(sequence), Covered(ids[node], table)))
  {
    hide ServedOnFile, Flatten, MissingOf, Covered, ActionNames, Advertised, IsFlatRecipe;
    var c := FlatRecipeIsOwn(ids, node, name, sequence);
    var recipes := ids[node].recipes;
    var k :| 0 <= k < |recipes| && recipes[k] == FindRecipe(recipes, name).value;
    OwnRecipeListed(recipes, Covered(ids[node], table), k);
  }

  /** What the list of the node says is missing for the recipe it is asked to order. */
  predicate Reports(id: Identity, table: PeerTable, name: string, missing: seq<string>) {
    var list := RecipeList(id, table);
    name in list && list[name] == Local(missing)
  }

  /** How an order ended, given what is missing for the actions it set out to do. */
  ghost predicate EndsFor(s: State, t: Thread, missing: seq<string>, d: DeliverMsg) {
    && t.kind.OrderKind? && |t.frames| == 2
    && (missing == [] <==> t.frames[1].CompletedOrder?)
    && (missing != [] ==> t.frames[1] == FailedOrder(t.kind.name, "Action " + missing[0] + " not available"))
    && d in s.work.delivers && d.payload.orderId == t.orderId
    && (missing != [] ==> StoppedAt(d.payload, missing))
  }

  /** When nothing goes wrong with it, an order, of an own recipe or of one that was fetched,
      completes exactly if every action of the recipe it got is covered by the nodes its node knows
      of; else it fails for the first that is not, having done exactly everything before it. */
  lemma CompletesIffCovered(ids: Cluster, s: State, i: nat) returns (missing: seq<string>, d: DeliverMsg)
    requires ClusterOk(ids) && GoodOrder(ids, s, i) && s.work.threads[i].phase.Returned?
    requires var t := s.work.threads[i]; t.node in Tables(s) && TableConverged(ids, t.node, Tables(s)[t.node])
    ensures var t := s.work.threads[i];
      && t.node in ids && IsFlatRecipe(ids, t.node, t.kind.name, d.payload.sequence)
      && missing == MissingOf(ActionNames(d.payload.sequence), Covered(ids[t.node], Tables(s)[t.node]))
      && EndsFor(s, t, missing, d)
  {
    hide Reachable, GoodSince, WorkOk, InProgress, ContentOf, ActionsOf, HolderOf, HopsOf, Attributed, Somebody,
      MissingOf, Covered, IsFlatRecipe, CleanDelivery, CleanOk;
    var t := s.work.threads[i];
    var now: nat;
    d, now := AnswerOfGoodOrder(ids, s, i);
    var table := Tables(s)[t.node];
    GoodIsReachable(ids, t.orderId, s);
    OkTablesTrue(ids, s);
    AtThread(ids, s.work, i);
    var covered := Covered(ids[t.node], table);
    missing := MissingOf(ActionNames(d.payload.sequence), covered);
    forall name ensures name in covered <==> Somebody(ids, name) { CoveredIsCluster(ids, t.node, table, name); }
    DeliveryMeetsMissing(ids, s.work.born, d, covered);
  }

  /** So an order of a node's own recipe completes exactly if the list the node answers with says
      nothing is missing; else it fails for the first action the list says is missing. */
  lemma CompletesIffNothingMissing(ids: Cluster, s: State, i: nat) returns (missing: seq<string>, d: DeliverMsg)
    requires ClusterOk(ids) && GoodOrder(ids, s, i) && s.work.threads[i].phase.Returned?
    requires var t := s.work.threads[i]; t.node in Tables(s) && TableConverged(ids, t.node, Tables(s)[t.node])
    requires var t := s.work.threads[i];
      && Knows(ids, t.node, t.kind.name) && ServedOnFile(ids, t.node, t.kind.name)
      && UniqueName(ids[t.node].recipes, t.kind.name)
    ensures var t := s.work.threads[i];
      Reports(ids[t.node], Tables(s)[t.node], t.kind.name, missing) && EndsFor(s, t, missing, d)
  {
    hide GoodSince, MissingOf, Covered, IsFlatRecipe, ServedOnFile, Reports, EndsFor, TableConverged;
    var t := s.work.threads[i];
    missing, d := CompletesIffCovered(ids, s, i);
    OwnListing(ids, t.node, t.kind.name, Tables(s)[t.node], d.payload.sequence);
  }

  // ── Every order is answered ───────────────────────────────────────────────────

  /** No handler of the order can move without a fault, and none of its deliveries still has
      somewhere to go. */
  ghost predicate Quiet(ids: Cluster, s: State, orderId: string) {
    && (forall w' :: !GoodMove(ids, Tables(s), s.work, w', orderId))
    && (forall w', k, now :: ArrivalOf(ids, s.work, w', k, now, orderId) ==> w' == s.work)
  }

  predicate ArrivalOf(ids: Cluster, w: Work, w': Work, k: nat, now: nat, orderId: string) {
    ReceiveDeliver(ids, w, w', k, now) && w.delivers[k].payload.orderId == orderId
  }

  /** A thread of the order that has not ended. */
  predicate Running(t: Thread, orderId: string) {
    t.orderId == orderId && !Ended(t)
  }

  lemma {:induction false} LastRunning(threads: seq<Thread>, i: nat, orderId: string) returns (j: nat)
    requires i < |threads| && Running(threads[i], orderId)
    ensures i <= j < |threads| && Running(threads[j], orderId)
    ensures forall k :: j < k < |threads| ==> !Running(threads[k], orderId)
    decreases |threads| - i
  {
    j := i;
    if k :| i < k < |threads| && Running(threads[k], orderId) { j := LastRunning(threads, k, orderId); }
  }

  lemma EndedChildIsReady(ids: Cluster, w: Work, i: nat)
    requires WorkOk(ids, w) && i < |w.threads|
    requires var t := w.threads[i]; t.phase.AwaitingRecipe? || t.phase.Waiting?
    ensures var t := w.threads[i];
      && t.phase.child < |w.threads| && w.threads[t.phase.child].orderId == t.orderId
      && (Ended(w.threads[t.phase.child]) ==> Ready(w, t))
  {
    hide WorkOk, Carries, Blocked, RecipeReply, FinalReply, IsFlatRecipe, TextPanics;
    AtThread(ids, w, i);
    AtThread(ids, w, w.threads[i].phase.child);
  }

  /** A parked order without a message finds one among the deliveries written. */
  lemma ParkedCanReceive(ids: Cluster, s: State, i: nat)
    requires WorkOk(ids, s.work) && i < |s.work.threads| && CleanOk(ids, s.work, s.work.threads[i].orderId)
    requires s.work.threads[i].phase.Parked? && !Ready(s.work, s.work.threads[i])
    ensures exists w', k, now :: ArrivalOf(ids, s.work, w', k, now, s.work.threads[i].orderId) && w' != s.work
  {
    hide InProgress, IsFlatRecipe, CleanThread, CleanDelivery, WorkOk;
    var w := s.work;
    var t := w.threads[i];
    AtThread(ids, w, i);
    assert Linked(w, t);
    var k :| 0 <= k < |w.delivers| && w.delivers[k].payload.orderId == t.orderId;
    DeliveryHost(ids, w, k);
    var key := (t.node, t.orderId);
    var queue := w.channel[key.1] + [SignalAt(w.delivers[k], 0)];
    var w' := w.(pending := w.pending - {key}, channel := w.channel[key.1 := queue]);
    assert key !in w'.pending;
    assert ArrivalOf(ids, w, w', k, 0, t.orderId);
  }

  lemma DeliveryHost(ids: Cluster, w: Work, k: nat)
    requires WorkOk(ids, w) && k < |w.delivers|
    ensures var p := w.delivers[k].payload; p.orderId in w.born && p.host == w.born[p.orderId].host && p.host in ids
  {
    hide ThreadOk, ChannelsOk, PendingOk, ChainsOk, OneThreadPerOrder, NothingAhead;
    assert DeliverOk(ids, w.born, w.delivers[k]);
  }

  /** As long as a handler of the order is running, one can go on without anything going wrong. */
  lemma SomebodyCanGoOn(ids: Cluster, s: State, i: nat, orderId: string)
    requires ClusterOk(ids) && StateOk(ids, s) && CleanOk(ids, s.work, orderId) && Converged(ids, Tables(s))
    requires i < |s.work.threads| && Running(s.work.threads[i], orderId)
    ensures !Quiet(ids, s, orderId)
  {
    hide WorkOk, ThreadStep, Faultless, ReceiveDeliver, Apply, CleanThread, CleanDelivery, Linked, Informed;
    var w := s.work;
    var j := LastRunning(w.threads, i, orderId);
    var t := w.threads[j];
    AtThread(ids, w, j);
    if t.phase.Parked? && !Ready(w, t) {
      ParkedCanReceive(ids, s, j);
    } else {
      if t.phase.AwaitingRecipe? || t.phase.Waiting? {
        assert WaitsForLater(j, t);
        EndedChildIsReady(ids, w, j);
      }
      ConvergedInforms(ids, Tables(s), t);
      var e := ThreadCanMove(ids, Tables(s)[t.node], w, j);
      assert GoodMove(ids, Tables(s), w, Apply(w, j, e), orderId);
    }
  }

  /** When a converged cluster has nothing left to do for it, an order of a recipe that some node
      has is answered, and `CompletesIffCovered` says how. */
  lemma QuietMeansAnswered(ids: Cluster, s: State, i: nat)
    requires ClusterOk(ids) && GoodOrder(ids, s, i) && Converged(ids, Tables(s))
    requires Quiet(ids, s, s.work.threads[i].orderId)
    requires Obtainable(ids, s.work.threads[i].node, s.work.threads[i].kind.name)
    ensures s.work.threads[i].phase.Returned? && |s.work.threads[i].frames| == 2
  {
    hide Reachable, GoodSince, Quiet, WorkOk, Linked, CleanDelivery, StuckForGood, Carries, Blocked, Seeking,
      IsFlatRecipe, TextPanics, RecipeReply, FinalReply, Obtainable, SomeoneKnows, Converged;
    var t := s.work.threads[i];
    GoodIsReachable(ids, t.orderId, s);
    if !Ended(t) { SomebodyCanGoOn(ids, s, i, t.orderId); }
    assert CleanThread(ids, t);
    AtThread(ids, s.work, i);
  }

  // ── It does come to that ──────────────────────────────────────────────────────

  lemma GoodOneMore(ids: Cluster, orderId: string, s: State, s': State)
    requires GoodSince(ids, orderId, s) && GoodStep(ids, orderId, s, s')
    ensures GoodSince(ids, orderId, s')
  {
    hide GoodStep, Reachable, Placed;
    var run :| IsGoodRun(ids, orderId, run) && run[|run| - 1] == s;
    var longer := run + [s'];
    assert IsGoodRun(ids, orderId, longer) && longer[|longer| - 1] == s';
  }

  /** A good move uses up effort, a delivery that arrives uses up an entry. */
  lemma MoveUsesUp(ids: Cluster, s: State, w': Work, orderId: string, longest: nat)
    requires ClusterOk(ids) && StateOk(ids, s) && RecipesWithin(ids, longest)
    requires GoodMove(ids, Tables(s), s.work, w', orderId)
    ensures Load(|ids|, longest, w'.threads) < Load(|ids|, longest, s.work.threads)
  {
    hide WorkOk, ThreadStep, Apply, Faultless, TableTrue, RecipesWithin, Load, Informed;
    OkTablesTrue(ids, s);
    var w := s.work;
    var i: nat, e :| i < |w.threads| && w.threads[i].orderId == orderId && w.threads[i].node in Tables(s)
      && Informed(ids, w.threads[i], Tables(s)[w.threads[i].node])
      && ThreadStep(ids, Tables(s)[w.threads[i].node], w, i, e) && Faultless(w.threads[i], e) && w' == Apply(w, i, e);
    StepUsesUp(ids, Tables(s)[w.threads[i].node], w, i, e, longest);
  }

  lemma ArrivalUsesUp(ids: Cluster, w: Work, w': Work, k: nat, now: nat)
    requires ReceiveDeliver(ids, w, w', k, now) && w' != w
    ensures w'.threads == w.threads && |w'.pending| < |w.pending|
  {
    SubsetSmaller(w'.pending, w.pending);
  }

  /** One step on from a state that is not quiet. */
  lemma OneStepOn(ids: Cluster, s: State, orderId: string, longest: nat) returns (s': State)
    requires ClusterOk(ids) && RecipesWithin(ids, longest) && GoodSince(ids, orderId, s) && !Quiet(ids, s, orderId)
    ensures GoodSince(ids, orderId, s') && s'.net == s.net && Accrues(s.work, s'.work)
    ensures var n := |ids|; var before, after := Load(n, longest, s.work.threads), Load(n, longest, s'.work.threads);
      after < before || (after == before && |s'.work.pending| < |s.work.pending|)
  {
    hide GoodMove, OtherMove, ReceiveDeliver, WorkOk, CleanOk, Load, RecipesWithin, GoodSince, Reachable, Accrues,
      GossipNetwork.Ok;
    GoodIsReachable(ids, orderId, s);
    if w' :| GoodMove(ids, Tables(s), s.work, w', orderId) {
      s' := State(s.net, w');
      MoveUsesUp(ids, s, w', orderId, longest);
    } else {
      var w', k, now :| ArrivalOf(ids, s.work, w', k, now, orderId) && w' != s.work;
      s' := State(s.net, w');
      ArrivalUsesUp(ids, s.work, w', k, now);
    }
    assert GoodStep(ids, orderId, s, s');
    GoodOneMore(ids, orderId, s, s');
    GoodIsStep(ids, orderId, s, s');
    StepAccrues(ids, s, s');
  }

  /** Going on with the order, and without a fault, leads to a quiet state. */
  lemma {:induction false} GoodOrdersSettle(ids: Cluster, s: State, orderId: string, longest: nat) returns (s': State)
    requires ClusterOk(ids) && RecipesWithin(ids, longest) && GoodSince(ids, orderId, s)
    ensures GoodSince(ids, orderId, s') && s'.net == s.net && Quiet(ids, s', orderId) && Accrues(s.work, s'.work)
    decreases Load(|ids|, longest, s.work.threads), |s.work.pending|
  {
    hide ClusterOk, Load, RecipesWithin, GoodSince, Quiet;
    if Quiet(ids, s, orderId) {
      s' := s;
    } else {
      var next := OneStepOn(ids, s, orderId, longest);
      s' := GoodOrdersSettle(ids, next, orderId, longest);
    }
  }

  /** So in every reachable state with converged tables, whatever happened before and whatever
      else is under way, an order newly placed for a recipe that some node has can be brought to
      its result, which is a pizza exactly if nothing is missing for that recipe: as the node's own
      list reports it, if the recipe is its own. */
  lemma OrderCanBeSettled(ids: Cluster, s: State, node: Addr, name: string, orderId: string)
    returns (s': State, i: nat, c: Addr, missing: seq<string>)
    requires ClusterOk(ids) && Reachable(ids, s) && Converged(ids, Tables(s)) && node in ids
    requires Obtainable(ids, node, name)
    requires forall j :: 0 <= j < |s.work.threads| ==> s.work.threads[j].orderId != orderId
    ensures GoodSince(ids, orderId, s') && s'.net == s.net && IsOrder(s', i)
    ensures node in Tables(s) && Serves(ids, node, c, name)
    ensures missing == MissingActions(FindRecipe(ids[c].recipes, name).value, Covered(ids[node], Tables(s)[node]))
    ensures Knows(ids, node, name) && UniqueName(ids[node].recipes, name) ==>
      Reports(ids[node], Tables(s)[node], name, missing)
    ensures var t := s'.work.threads[i];
      && t.node == node && t.kind == OrderKind(name) && t.orderId == orderId && |t.frames| == 2
      && (t.frames[1].CompletedOrder? <==> missing == [])
  {
    hide ClusterOk, RecipesWithin, Reachable, Quiet, RecipeList, Load, UniqueName, HasRecipe, ServedOnFile,
      SomeoneKnows, IsFlatRecipe, MissingOf, Covered, Flatten, Reports;
    i := |s.work.threads|;
    var t := Thread(node, OrderKind(name), orderId, None, [], [], Received);
    var placed := State(s.net, s.work.(threads := s.work.threads + [t]));
    assert NewOrder(ids, s.work, placed.work, node, name, orderId);
    assert IsGoodRun(ids, orderId, [s, placed]) && [s, placed][1] == placed;
    var longest := RecipesBounded(ids);
    s' := GoodOrdersSettle(ids, placed, orderId, longest);
    assert SameThread(placed.work.threads[i], s'.work.threads[i]);
    QuietMeansAnswered(ids, s', i);
    var d;
    missing, d := CompletesIffCovered(ids, s', i);
    c := FlatRecipeIsOwn(ids, node, name, d.payload.sequence);
    if Knows(ids, node, name) && UniqueName(ids[node].recipes, name) {
      OwnListing(ids, node, name, Tables(s)[node], d.payload.sequence);
    }
  }
}
