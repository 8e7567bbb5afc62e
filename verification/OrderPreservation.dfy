/** Every step of the order system keeps the invariant. */
module OrderPreservation {
  import opened Text
  import opened Recipe
  import opened RecipeSpec
  import opened RecipeBook
  import opened Gossip
  import opened Orders
  import opened OrderSystem
  import opened Traces
  import opened OrderInvariant

  /** What an effect must be for the rest of the state not to notice. */
  ghost predicate EffectOk(ids: Cluster, w: Work, i: nat, e: Effect)
    requires i < |w.threads|
  {
    var t, w' := w.threads[i], Apply(w, i, e);
    && SameThread(t, e.thread)
    && ThreadOk(ids, w', e.thread)
    && !e.thread.phase.Received? && (Unborn(e.thread.phase) ==> Unborn(t.phase))
    && (e.spawned.Some? ==>
        e.spawned.value.parent == Some(i) && IsChildOf(t, e.spawned.value) && ThreadOk(ids, w', e.spawned.value))
    && (e.delivered.Some? ==>
        DeliverOk(ids, w.born, e.delivered.value) && e.delivered.value.payload.orderId == t.orderId && e.created.None?)
    && (e.created.Some? ==>
        t.kind.OrderKind? && Unborn(t.phase) && !Unborn(e.thread.phase) && BornOk(ids, t.orderId, e.created.value))
    && (e.registers ==> t.kind.OrderKind? && t.phase.Received? && e.thread.phase.Asked?)
    && (e.thread.phase.Returned? <==> e.removes) && (e.removes ==> t.kind.OrderKind?)
    && (Receipted(e.thread) ==> Receipted(t) || e.registers)
    && (OnlyRegistered(e.thread) ==> OnlyRegistered(t) || e.registers)
    && (e.thread.phase.LeftEarly? && |e.thread.frames| != 2 ==> t.phase.Received?)
    && !t.phase.LeftEarly? && !t.phase.Returned? && !t.phase.Crashed?
  }

  lemma ApplyGrows(ids: Cluster, w: Work, i: nat, e: Effect)
    requires i < |w.threads| && SameThread(w.threads[i], e.thread)
    requires e.created.Some? ==> w.threads[i].orderId !in w.born
    ensures Grows(w, Apply(w, i, e))
  {}

  /** An effect on its own thread only: being right before the step is enough. */
  lemma OwnEffectOk(ids: Cluster, w: Work, i: nat, e: Effect)
    requires i < |w.threads| && SameThread(w.threads[i], e.thread) && ThreadOk(ids, w, e.thread)
    requires !e.thread.phase.Received? && (Unborn(e.thread.phase) ==> Unborn(w.threads[i].phase))
    requires e.spawned.None? && e.delivered.None? && e.created.None? && !e.registers
    requires (e.thread.phase.Returned? <==> e.removes) && (e.removes ==> w.threads[i].kind.OrderKind?)
    requires Receipted(e.thread) ==> Receipted(w.threads[i])
    requires OnlyRegistered(e.thread) ==> OnlyRegistered(w.threads[i])
    requires var t := w.threads[i]; !t.phase.LeftEarly? && !t.phase.Returned? && !t.phase.Crashed?
    requires !e.thread.phase.LeftEarly?
    ensures EffectOk(ids, w, i, e)
  {
    hide ThreadOk;
    ApplyGrows(ids, w, i, e);
    ThreadOkGrows(ids, w, Apply(w, i, e), e.thread);
  }

  // ── An orderly effect keeps the invariant ─────────────────────────────────────

  lemma ThreadsKept(ids: Cluster, w: Work, i: nat, e: Effect)
    requires WorkOk(ids, w) && i < |w.threads| && EffectOk(ids, w, i, e)
    ensures Grows(w, Apply(w, i, e))
    ensures forall j :: 0 <= j < |Apply(w, i, e).threads| ==> ThreadOk(ids, Apply(w, i, e), Apply(w, i, e).threads[j])
  {
    hide ChainsOk, ThreadOk, DeliverOk, ChannelsOk, PendingOk;
    var w' := Apply(w, i, e);
    assert e.created.Some? ==> NotYet(w, w.threads[i]);
    ApplyGrows(ids, w, i, e);
    forall j | 0 <= j < |w'.threads| ensures ThreadOk(ids, w', w'.threads[j]) {
      if j < |w.threads| && j != i { ThreadOkGrows(ids, w, w', w.threads[j]); }
    }
  }

  lemma OrdersKept(ids: Cluster, w: Work, i: nat, e: Effect)
    requires WorkOk(ids, w) && i < |w.threads| && EffectOk(ids, w, i, e)
    ensures OneThreadPerOrder(Apply(w, i, e)) && NothingAhead(Apply(w, i, e))
  {
    hide ChainsOk, ThreadOk, DeliverOk, ChannelsOk, PendingOk, BornOk;
    var w' := Apply(w, i, e);
    var t := w.threads[i];
    forall j | 0 <= j < |w'.threads| && w'.threads[j].kind.OrderKind? ensures NotYet(w', w'.threads[j]) {
      assert j < |w.threads|;
      assert NotYet(w, w.threads[j]);
      if j != i {
        assert (e.created.Some? || e.registers) ==> w.threads[j].orderId != t.orderId;
      }
    }
  }

  lemma ChainsKept(ids: Cluster, w: Work, i: nat, e: Effect)
    requires ChainsOk(w) && i < |w.threads| && EffectOk(ids, w, i, e)
    ensures ChainsOk(Apply(w, i, e))
  {
    hide ThreadOk, DeliverOk, BornOk;
    var w' := Apply(w, i, e);
    forall j | 0 <= j < |w.threads| ensures SameThread(w.threads[j], w'.threads[j]) {}
  }

  lemma RecordsKept(ids: Cluster, w: Work, i: nat, e: Effect)
    requires WorkOk(ids, w) && i < |w.threads| && EffectOk(ids, w, i, e)
    requires Grows(w, Apply(w, i, e))
    ensures var w' := Apply(w, i, e);
      && (forall id :: id in w'.born ==> BornOk(ids, id, w'.born[id]) && OrderedBy(w', id))
      && (forall k :: 0 <= k < |w'.delivers| ==> DeliverOk(ids, w'.born, w'.delivers[k]))
  {
    hide ChainsOk, ThreadOk, ChannelsOk, PendingOk, BornOk, InProgress;
    var w' := Apply(w, i, e);
    forall id | id in w'.born ensures BornOk(ids, id, w'.born[id]) && OrderedBy(w', id) {
      if id in w.born { OrderedByGrows(w, w', id); } else { assert SameThread(w.threads[i], w'.threads[i]); }
    }
  }

  lemma ChannelsKept(ids: Cluster, w: Work, i: nat, e: Effect)
    requires WorkOk(ids, w) && i < |w.threads| && EffectOk(ids, w, i, e)
    requires Grows(w, Apply(w, i, e))
    ensures ChannelsOk(Apply(w, i, e)) && PendingOk(Apply(w, i, e))
  {
    hide ChainsOk, ThreadOk, DeliverOk, BornOk;
    var t, w' := w.threads[i], Apply(w, i, e);
    forall id | id in w'.channel
      ensures OrderedBy(w', id) && |w'.channel[id]| <= 1 && forall m :: m in w'.channel[id] ==> Signalled(w', id, m)
    {
      if e.registers && id == t.orderId {
        assert SameThread(w.threads[i], w'.threads[i]);
      } else {
        OrderedByGrows(w, w', id);
        forall m | m in w'.channel[id] ensures Signalled(w', id, m) { SignalledGrows(w, w', id, m); }
      }
    }
    forall p | p in w'.pending
      ensures p.1 in w'.channel && w'.channel[p.1] == []
      ensures exists j :: 0 <= j < |w'.threads| && Waits(w'.threads[j], p.0, p.1)
    {
      if e.registers && p == (t.node, t.orderId) {
        assert Waits(w'.threads[i], p.0, p.1);
      } else {
        var j :| 0 <= j < |w.threads| && Waits(w.threads[j], p.0, p.1);
        assert Waits(w'.threads[j], p.0, p.1);
      }
    }
  }

  lemma EffectKeepsOk(ids: Cluster, w: Work, i: nat, e: Effect)
    requires WorkOk(ids, w) && i < |w.threads| && EffectOk(ids, w, i, e)
    ensures WorkOk(ids, Apply(w, i, e))
  {
    ThreadsKept(ids, w, i, e);
    OrdersKept(ids, w, i, e);
    ChainsKept(ids, w, i, e);
    RecordsKept(ids, w, i, e);
    ChannelsKept(ids, w, i, e);
  }

  lemma AtThread(ids: Cluster, w: Work, i: nat)
    requires WorkOk(ids, w) && i < |w.threads|
    ensures ThreadOk(ids, w, w.threads[i])
    ensures w.threads[i].kind.OrderKind? ==> NotYet(w, w.threads[i])
  {
    hide ThreadOk;
  }

  lemma AtChannel(ids: Cluster, w: Work, orderId: string)
    requires WorkOk(ids, w) && orderId in w.channel
    ensures |w.channel[orderId]| <= 1 && forall m :: m in w.channel[orderId] ==> Signalled(w, orderId, m)
  {
    hide ThreadOk, ChainsOk;
  }

  // ── handle_get_recipe ─────────────────────────────────────────────────────────

  lemma AccurateRecipePeers(ids: Cluster, table: PeerTable, name: string)
    requires TableTrue(ids, table)
    ensures forall a :: a in RecipePeers(table, name) ==> Knows(ids, a, name)
  {
    forall a | a in RecipePeers(table, name) ensures Knows(ids, a, name) {
      assert EntryTrue(ids, a, table[a]);
      var names := RecipeNames(ids[a].recipes);
      var k :| 0 <= k < |names| && names[k] == name;
    }
  }

  lemma AccurateCapablePeers(ids: Cluster, table: PeerTable, action: ActionDef)
    requires TableTrue(ids, table)
    ensures forall a :: a in CapablePeers(table, action.name) ==> a in ids && CanRun(ids[a], action)
  {
    forall a | a in CapablePeers(table, action.name) ensures a in ids && CanRun(ids[a], action) {
      assert EntryTrue(ids, a, table[a]);
    }
  }

  /** A request forwarded by a peer is always answered from the node's own recipes; a node that
      has to ask others never asks itself. */
  lemma LookUpOk(ids: Cluster, table: PeerTable, w: Work, i: nat, e: Effect, name: string)
    requires WorkOk(ids, w) && TableTrue(ids, table)
    requires ThreadStep(ids, table, w, i, e) && w.threads[i].phase == Asked(name)
    ensures EffectOk(ids, w, i, e)
  {
    hide WorkOk, DeliverOk, ChannelsOk, PendingOk, BornOk, TableTrue;
    var t := w.threads[i];
    AtThread(ids, w, i);
    FoundIffHas(ids[t.node], name);
    assert FindRecipe(ids[t.node].recipes, name).Some? ==> Serves(ids, t.node, t.node, name);
    AccurateRecipePeers(ids, table, name);
    if FindRecipe(ids[t.node].recipes, name).None? {
      var order :| IsOrderOf(order, RecipePeers(table, name)) && e == Become(t, Asking(name, order));
      assert Seeking(ids, t, name, order);
    }
  }

  lemma AskOk(ids: Cluster, table: PeerTable, w: Work, i: nat, e: Effect)
    requires WorkOk(ids, w)
    requires ThreadStep(ids, table, w, i, e) && (w.threads[i].phase.Asking? || w.threads[i].phase.AwaitingRecipe?)
    ensures EffectOk(ids, w, i, e)
  {
    hide WorkOk, DeliverOk, ChannelsOk, PendingOk, BornOk, IsSourceOf;
    var t, w' := w.threads[i], Apply(w, i, e);
    AtThread(ids, w, i);
    if t.phase.Asking? && e.spawned.Some? {
      assert w'.threads[|w.threads|] == e.spawned.value;
    }
    if t.phase.AwaitingRecipe? {
      var asked := w.threads[t.phase.child];
      AtThread(ids, w, t.phase.child);
      if asked.phase.RecipeDone? { ReplyPassedOn(ids, asked.node, t.node, t.phase.name, asked.phase.answer); }
    }
  }

  /** A node without the recipe may take any other node's reply as its own. */
  lemma ReplyPassedOn(ids: Cluster, from: Addr, to: Addr, name: string, m: TcpMessage)
    requires RecipeReply(ids, from, name, m) && !Knows(ids, to, name)
    ensures RecipeReply(ids, to, name, m)
  {
    if !m.Error? {
      var c :| Serves(ids, from, c, name) && FindRecipe(ids[c].recipes, name).value.source == m.recipe;
      assert Serves(ids, to, c, name);
    }
  }

  // ── handle_order ──────────────────────────────────────────────────────────────

  lemma BeginOk(ids: Cluster, table: PeerTable, w: Work, i: nat, e: Effect)
    requires WorkOk(ids, w)
    requires ThreadStep(ids, table, w, i, e) && w.threads[i].phase.Received?
    ensures EffectOk(ids, w, i, e)
  {
    hide WorkOk, DeliverOk, ChannelsOk, PendingOk, BornOk;
    AtThread(ids, w, i);
    assert Receipted(e.thread) ==> e.thread.frames[0].OrderReceipt?;
  }

  /** The payload is made from what the text of the recipe ordered is read as. */
  lemma BeginDriveOk(ids: Cluster, table: PeerTable, w: Work, i: nat, e: Effect)
    requires WorkOk(ids, w)
    requires ThreadStep(ids, table, w, i, e) && w.threads[i].phase.RecipeDone?
    ensures EffectOk(ids, w, i, e)
  {
    hide WorkOk, DeliverOk, ChannelsOk, PendingOk, ParseRecipes, IsSourceOf, OneThreadPerOrder, Flatten, FindRecipe;
    var t := w.threads[i];
    AtThread(ids, w, i);
    if t.phase.answer.RecipeAnswer? {
      var text := t.phase.answer.recipe;
      assert ParseRecipes(text).Panicked? ==> TextPanics(ids, t.node, t.kind.name);
      if e.created.Some? {
        var p := e.created.value;
        assert ReadsAs(text, t.kind.name, p.sequence);
        assert p.sequence[..p.index] == [];
      }
    }
  }

  /** When it reads back, the text of the recipe ordered is read as the recipe that some node
      holds under that name: the node itself if it has one. */
  lemma SourceReadsBack(ids: Cluster, node: Addr, name: string, text: string)
    requires ServedOnFile(ids, node, name) && IsSourceOf(ids, node, name, text)
    ensures ParseRecipes(text).Ok? && FindRecipe(ParseRecipes(text).value, name).Some?
    ensures exists c ::
      Serves(ids, node, c, name) && FindRecipe(ParseRecipes(text).value, name) == FindRecipe(ids[c].recipes, name)
  {
    hide ParseRecipes, RecipeOnFile;
    var c :| Serves(ids, node, c, name) && FindRecipe(ids[c].recipes, name).value.source == text;
    var r := FindRecipe(ids[c].recipes, name).value;
    WireRoundTrips(r);
    assert FindRecipe([r], name) == Some(r);
  }

  lemma SettleOk(ids: Cluster, table: PeerTable, w: Work, i: nat, e: Effect)
    requires WorkOk(ids, w)
    requires ThreadStep(ids, table, w, i, e) && w.threads[i].phase.Driven?
    ensures EffectOk(ids, w, i, e)
  {
    hide WorkOk, DeliverOk, ChannelsOk, PendingOk, BornOk, IsFlatRecipe, Sent, Signalled, Attributed, EffectOk;
    var t := w.threads[i];
    AtThread(ids, w, i);
    var f := t.frames + [t.phase.answer];
    assert f[..1] == t.frames;
    OwnEffectOk(ids, w, i, e);
  }

  lemma WakeOk(ids: Cluster, table: PeerTable, w: Work, i: nat, e: Effect)
    requires WorkOk(ids, w)
    requires ThreadStep(ids, table, w, i, e) && w.threads[i].phase.Parked?
    ensures EffectOk(ids, w, i, e)
  {
    hide WorkOk, DeliverOk, PendingOk, BornOk, IsFlatRecipe, Sent, Signalled, EffectOk;
    AtThread(ids, w, i);
    AtChannel(ids, w, w.threads[i].orderId);
    OwnEffectOk(ids, w, i, e);
  }

  lemma AnswerOk(ids: Cluster, table: PeerTable, w: Work, i: nat, e: Effect)
    requires WorkOk(ids, w)
    requires ThreadStep(ids, table, w, i, e) && w.threads[i].phase.Woken?
    ensures EffectOk(ids, w, i, e)
  {
    hide WorkOk, DeliverOk, ChannelsOk, PendingOk, BornOk, IsFlatRecipe, Sent, Signalled, EffectOk;
    var t := w.threads[i];
    AtThread(ids, w, i);
    var f := t.frames + [Stamped(t.kind.name, t.phase.answer)];
    assert f[..1] == t.frames;
    OwnEffectOk(ids, w, i, e);
  }

  // ── handle_process_payload ────────────────────────────────────────────────────

  lemma RunHereOk(ids: Cluster, table: PeerTable, w: Work, i: nat, e: Effect, p: Payload)
    requires WorkOk(ids, w) && TableTrue(ids, table)
    requires ThreadStep(ids, table, w, i, e) && w.threads[i].phase == Arrived(p)
    ensures EffectOk(ids, w, i, e)
  {
    hide WorkOk, DeliverOk, ChannelsOk, PendingOk, BornOk, InProgress, HolderOf, HopsOf, TableTrue,
      IsFlatRecipe, EffectOk, LocalRun, CanRun;
    var t := w.threads[i];
    AtThread(ids, w, i);
    var q :| LocalRun(ids[t.node], p, q) && AfterRun(table, t, q, e);
    RunFacts(ids, w.born[t.orderId], p, q);
    if q.index < |q.sequence| {
      AccurateCapablePeers(ids, table, q.sequence[q.index]);
    }
    OwnEffectOk(ids, w, i, e);
  }

  lemma RunFacts(ids: Cluster, born: Payload, p: Payload, q: Payload)
    requires InProgress(ids, born, p) && HolderOf(p.host, p.updates) in ids
    requires LocalRun(ids[HolderOf(p.host, p.updates)], p, q)
    ensures var id := ids[HolderOf(p.host, p.updates)];
      && InProgress(ids, born, q) && q.orderId == p.orderId
      && HolderOf(q.host, q.updates) == HolderOf(p.host, p.updates) && HopsOf(q.updates) == HopsOf(p.updates)
      && p.index <= q.index <= |q.sequence| == |p.sequence|
      && (q.index < |q.sequence| ==> !CanRun(id, q.sequence[q.index]))
      && (p.index < |p.sequence| && CanRun(id, p.sequence[p.index]) ==> p.index < q.index)
  {
    RunKeepsProgress(ids, born, p, q);
    assert InProgress(ids, born, q) ==> q.index <= |q.sequence|;
  }

  lemma TryOk(ids: Cluster, table: PeerTable, w: Work, i: nat, e: Effect, p: Payload, left: seq<Addr>)
    requires WorkOk(ids, w)
    requires ThreadStep(ids, table, w, i, e) && w.threads[i].phase == Trying(p, left)
    ensures EffectOk(ids, w, i, e)
  {
    hide WorkOk, ChannelsOk, PendingOk, BornOk, InProgress, HolderOf, HopsOf, IsFlatRecipe;
    var t, w' := w.threads[i], Apply(w, i, e);
    AtThread(ids, w, i);
    if left == [] {
      GiveUpOk(ids, w, t, DeliverMsg(p, Some(UnavailableError(p.sequence[p.index]))));
      DeliversOk(ids, w, i, DeliverMsg(p, Some(UnavailableError(p.sequence[p.index]))), e);
    } else if e.spawned.Some? {
      var now :| e == Spawn(t, Waiting(p, left[1..], |w.threads|),
        Thread(left[0], ProcessKind, t.orderId, Some(i), t.hops + [left[0]], [], Arrived(Copy(p, left[0], now))));
      CopyKeepsProgress(ids, w.born[t.orderId], p, left[0], now);
      assert w'.threads[|w.threads|] == e.spawned.value;
    }
  }

  lemma GiveUpOk(ids: Cluster, w: Work, t: Thread, d: DeliverMsg)
    requires Carries(ids, w, t, d.payload) && Blocked(ids, t, d.payload, [])
    requires d.error == Some(UnavailableError(d.payload.sequence[d.payload.index]))
    ensures DeliverOk(ids, w.born, d)
  {}

  lemma DeliversOk(ids: Cluster, w: Work, i: nat, d: DeliverMsg, e: Effect)
    requires i < |w.threads| && KindOk(ids, w.threads[i]) && Driving(ids, w, w.threads[i])
    requires w.threads[i].phase.Trying? || w.threads[i].phase.Finishing?
    requires Delivers(w.threads[i], d, e) && DeliverOk(ids, w.born, d) && d.payload.orderId == w.threads[i].orderId
    ensures EffectOk(ids, w, i, e)
  {
    hide DeliverOk, IsFlatRecipe;
    var w' := Apply(w, i, e);
    if e.delivered.Some? {
      assert w'.delivers[|w.delivers|] == d;
    }
  }

  lemma FinishOk(ids: Cluster, table: PeerTable, w: Work, i: nat, e: Effect, p: Payload)
    requires WorkOk(ids, w)
    requires ThreadStep(ids, table, w, i, e) && w.threads[i].phase == Finishing(p)
    ensures EffectOk(ids, w, i, e)
  {
    hide WorkOk, ChannelsOk, PendingOk, BornOk, InProgress, HolderOf, HopsOf, IsFlatRecipe;
    var t := w.threads[i];
    AtThread(ids, w, i);
    var now :| Delivers(t, DeliverMsg(Copy(p, p.host, now), None), e);
    CopyKeepsProgress(ids, w.born[t.orderId], p, p.host, now);
    DeliversOk(ids, w, i, DeliverMsg(Copy(p, p.host, now), None), e);
  }

  lemma HearOk(ids: Cluster, table: PeerTable, w: Work, i: nat, e: Effect)
    requires WorkOk(ids, w)
    requires ThreadStep(ids, table, w, i, e) && w.threads[i].phase.Waiting?
    ensures EffectOk(ids, w, i, e)
  {
    hide WorkOk, DeliverOk, ChannelsOk, PendingOk, BornOk, InProgress, HolderOf, HopsOf, IsFlatRecipe, Sent, EffectOk;
    var t := w.threads[i];
    AtThread(ids, w, i);
    if t.phase.child < |w.threads| { AtThread(ids, w, t.phase.child); }
    OwnEffectOk(ids, w, i, e);
  }

  // ── All steps ─────────────────────────────────────────────────────────────────

  lemma ThreadStepOrderly(ids: Cluster, table: PeerTable, w: Work, i: nat, e: Effect)
    requires ClusterOk(ids) && WorkOk(ids, w) && TableTrue(ids, table) && ThreadStep(ids, table, w, i, e)
    ensures EffectOk(ids, w, i, e)
  {
    hide WorkOk, EffectOk, TableTrue;
    match w.threads[i].phase {
      case Received => BeginOk(ids, table, w, i, e);
      case Asked(name) => LookUpOk(ids, table, w, i, e, name);
      case Asking(_, _) => AskOk(ids, table, w, i, e);
      case AwaitingRecipe(_, _, _) => AskOk(ids, table, w, i, e);
      case RecipeDone(_) => BeginDriveOk(ids, table, w, i, e);
      case Arrived(p) => RunHereOk(ids, table, w, i, e, p);
      case Trying(p, left) => TryOk(ids, table, w, i, e, p, left);
      case Waiting(_, _, _) => HearOk(ids, table, w, i, e);
      case Finishing(p) => FinishOk(ids, table, w, i, e, p);
      case Driven(_) => SettleOk(ids, table, w, i, e);
      case Parked => WakeOk(ids, table, w, i, e);
      case Woken(_) => AnswerOk(ids, table, w, i, e);
    }
  }

  lemma ThreadStepOk(ids: Cluster, table: PeerTable, w: Work, i: nat, e: Effect)
    requires ClusterOk(ids) && WorkOk(ids, w) && TableTrue(ids, table) && ThreadStep(ids, table, w, i, e)
    ensures WorkOk(ids, Apply(w, i, e)) && Accrues(w, Apply(w, i, e))
  {
    hide WorkOk, EffectOk, TableTrue, Accrues;
    ThreadStepOrderly(ids, table, w, i, e);
    EffectKeepsOk(ids, w, i, e);
    EffectAccrues(ids, w, i, e);
  }

  lemma EffectAccrues(ids: Cluster, w: Work, i: nat, e: Effect)
    requires WorkOk(ids, w) && i < |w.threads| && EffectOk(ids, w, i, e)
    ensures Accrues(w, Apply(w, i, e))
  {
    hide ThreadOk, WorkOk;
    ThreadsKept(ids, w, i, e);
    AtThread(ids, w, i);
  }

  /** A new thread is a fresh order before its receipt, or no order at all. */
  predicate IsNewThread(w: Work, w': Work, t: Thread) {
    && w' == w.(threads := w.threads + [t])
    && t.parent.None?
    && (t.kind.OrderKind? ==> t.phase.Received? && t.frames == [])
    && (t.kind.OrderKind? ==> forall i :: 0 <= i < |w.threads| ==> w.threads[i].orderId != t.orderId)
  }

  lemma NewThreadsOk(ids: Cluster, w: Work, w': Work, t: Thread)
    requires WorkOk(ids, w) && IsNewThread(w, w', t) && ThreadOk(ids, w', t)
    ensures Grows(w, w') && forall j :: 0 <= j < |w'.threads| ==> ThreadOk(ids, w', w'.threads[j])
  {
    hide ChainsOk, ThreadOk, DeliverOk, BornOk, ChannelsOk, PendingOk;
    assert Grows(w, w');
    forall j | 0 <= j < |w.threads| ensures ThreadOk(ids, w', w'.threads[j]) {
      ThreadOkGrows(ids, w, w', w.threads[j]);
    }
  }

  lemma NewThreadWaits(w: Work, w': Work, t: Thread)
    requires ChannelsOk(w) && PendingOk(w) && IsNewThread(w, w', t) && Grows(w, w')
    ensures ChannelsOk(w') && PendingOk(w')
  {
    forall id | id in w.channel ensures OrderedBy(w', id) { OrderedByGrows(w, w', id); }
    forall id, m | id in w.channel && m in w.channel[id] ensures Signalled(w', id, m) { SignalledGrows(w, w', id, m); }
    forall p | p in w'.pending ensures exists j :: 0 <= j < |w'.threads| && Waits(w'.threads[j], p.0, p.1) {
      var j :| 0 <= j < |w.threads| && Waits(w.threads[j], p.0, p.1);
      assert Waits(w'.threads[j], p.0, p.1);
    }
  }

  lemma NewThreadOk(ids: Cluster, w: Work, w': Work, t: Thread)
    requires WorkOk(ids, w) && IsNewThread(w, w', t) && ThreadOk(ids, w', t)
    ensures WorkOk(ids, w')
  {
    hide DeliverOk, BornOk, ThreadOk, Grows, PendingOk;
    NewThreadsOk(ids, w, w', t);
    NewThreadWaits(w, w', t);
    assert t.kind.OrderKind? ==> !OrderedBy(w, t.orderId);
    assert forall j :: 0 <= j < |w.threads| && w.threads[j].kind.OrderKind? ==> NotYet(w, w.threads[j]);
    forall id | OrderedBy(w, id) ensures OrderedBy(w', id) { OrderedByGrows(w, w', id); }
  }

  lemma NewOrderOk(ids: Cluster, w: Work, w': Work, node: Addr, name: string, orderId: string)
    requires WorkOk(ids, w) && NewOrder(ids, w, w', node, name, orderId)
    ensures WorkOk(ids, w') && Accrues(w, w')
  {
    hide WorkOk;
    var t := Thread(node, OrderKind(name), orderId, None, [], [], Received);
    NewThreadOk(ids, w, w', t);
  }

  lemma NewRequestOk(ids: Cluster, w: Work, w': Work, node: Addr, name: string)
    requires WorkOk(ids, w) && NewRequest(ids, w, w', node, name)
    ensures WorkOk(ids, w') && Accrues(w, w')
  {
    hide WorkOk;
    var t := Thread(node, RecipeKind(name), "", None, [], [], Asked(name));
    NewThreadOk(ids, w, w', t);
  }

  lemma ChainsStillOk(w: Work, w': Work)
    requires ChainsOk(w) && w'.threads == w.threads
    ensures ChainsOk(w')
  {}

  /** Only an order whose entry is in the map gets a message, and the entry goes with it. */
  lemma ReceiveOk(ids: Cluster, w: Work, w': Work, k: nat, now: nat)
    requires WorkOk(ids, w) && ReceiveDeliver(ids, w, w', k, now)
    ensures WorkOk(ids, w') && Accrues(w, w')
  {
    hide InProgress, BornOk, ThreadOk, ChannelsOk, PendingOk, ChainsOk;
    ChainsStillOk(w, w');
    assert DeliverOk(ids, w.born, w.delivers[k]);
    assert Grows(w, w');
    forall j | 0 <= j < |w'.threads| ensures ThreadOk(ids, w', w'.threads[j]) {
      ThreadOkGrows(ids, w, w', w.threads[j]);
    }
    forall j | 0 <= j < |w'.threads| && w'.threads[j].kind.OrderKind? ensures NotYet(w', w'.threads[j]) {
      assert NotYet(w, w.threads[j]);
      assert PendingOk(w) && w'.channel.Keys == w.channel.Keys;
    }
    forall id | OrderedBy(w, id) ensures OrderedBy(w', id) { OrderedByGrows(w, w', id); }
    SignalStillOk(ids, w, w', k, now);
    PendingStillOk(ids, w, w', k, now);
  }

  /** Two entries for an order belong to its one thread, hence to one node. */
  lemma OneEntryPerOrder(w: Work, p: (Addr, string), q: (Addr, string))
    requires OneThreadPerOrder(w) && PendingOk(w) && p in w.pending && q in w.pending && p.1 == q.1
    ensures p == q
  {
    var i :| 0 <= i < |w.threads| && Waits(w.threads[i], p.0, p.1);
    var j :| 0 <= j < |w.threads| && Waits(w.threads[j], q.0, q.1);
  }

  lemma PendingStillOk(ids: Cluster, w: Work, w': Work, k: nat, now: nat)
    requires OneThreadPerOrder(w) && PendingOk(w) && ReceiveDeliver(ids, w, w', k, now)
    ensures PendingOk(w')
  {
    var d := w.delivers[k];
    var key := (d.payload.host, d.payload.orderId);
    forall p | p in w.pending && key in w.pending && p.1 == key.1 ensures p == key { OneEntryPerOrder(w, p, key); }
    forall p | p in w'.pending ensures exists j :: 0 <= j < |w'.threads| && Waits(w'.threads[j], p.0, p.1) {
      var j :| 0 <= j < |w.threads| && Waits(w.threads[j], p.0, p.1);
      assert Waits(w'.threads[j], p.0, p.1);
    }
  }

  lemma SignalStillOk(ids: Cluster, w: Work, w': Work, k: nat, now: nat)
    requires ChannelsOk(w) && PendingOk(w) && ReceiveDeliver(ids, w, w', k, now) && Grows(w, w')
    ensures ChannelsOk(w')
  {
    var d := w.delivers[k];
    forall id | id in w.channel ensures OrderedBy(w', id) { OrderedByGrows(w, w', id); }
    assert SignalOf(d, SignalAt(d, now));
    assert Signalled(w', d.payload.orderId, SignalAt(d, now)) by { assert w'.delivers[k] == d; }
    forall id, m | id in w.channel && m in w.channel[id] ensures Signalled(w', id, m) { SignalledGrows(w, w', id, m); }
  }

  lemma WorkStepOk(ids: Cluster, tables: map<Addr, PeerTable>, w: Work, w': Work)
    requires ClusterOk(ids) && WorkOk(ids, w) && WorkStep(ids, tables, w, w')
    requires forall n :: n in tables ==> TableTrue(ids, tables[n])
    ensures WorkOk(ids, w') && Accrues(w, w')
  {
    hide WorkOk, ThreadStep, Apply, ClusterOk, TableTrue, Accrues;
    if ThreadMoves(ids, tables, w, w') {
      var i: nat, e :| i < |w.threads| && w.threads[i].node in tables
        && ThreadStep(ids, tables[w.threads[i].node], w, i, e) && w' == Apply(w, i, e);
      ThreadStepOk(ids, tables[w.threads[i].node], w, i, e);
    } else if node, name, orderId :| NewOrder(ids, w, w', node, name, orderId) {
      NewOrderOk(ids, w, w', node, name, orderId);
    } else if node, name :| NewRequest(ids, w, w', node, name) {
      NewRequestOk(ids, w, w', node, name);
    } else {
      var k, now :| ReceiveDeliver(ids, w, w', k, now);
      ReceiveOk(ids, w, w', k, now);
    }
  }
}
