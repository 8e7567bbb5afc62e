/** Every order comes to an end: with no new requests, only so many handler steps are possible,
    and no handler gets stuck before it has answered. */
module OrderTermination {
  import opened Text
  import opened StringOrder
  import opened Recipe
  import opened RecipeSpec
  import opened Gossip
  import opened Orders
  import opened OrderSystem
  import opened Traces
  import opened OrderInvariant
  import opened OrderPreservation
  import opened ClusterSystem

  // ── How many steps are left ───────────────────────────────────────────────────

  /** For a payload just handed to a peer with `left` actions to do, in a cluster of `n` nodes:
      its own steps and those of all the copies it may lead to. */
  function Spread(n: nat, left: nat): nat {
    if left == 0 then 5 else 5 + n * (2 + Spread(n, left - 1))
  }

  lemma {:induction false} SpreadGrows(n: nat, a: nat, b: nat)
    requires a <= b
    ensures 5 <= Spread(n, a) <= Spread(n, b)
  {
    if a > 0 {
      SpreadGrows(n, a - 1, b - 1);
      Scaled(n, 2 + Spread(n, a - 1), 2 + Spread(n, b - 1));
    }
  }

  lemma Scaled(n: nat, a: nat, b: nat)
    requires a <= b
    ensures n * a <= n * b && a * n <= b * n
  {}

  function Left(p: Payload): nat {
    if p.index <= |p.sequence| then |p.sequence| - p.index else 0
  }

  /** The most a thread and what it starts can still do; `longest` bounds the recipes. */
  function Effort(n: nat, longest: nat, t: Thread): nat {
    var drive := 1 + Spread(n, longest + 1);
    match t.phase
    case Received => drive + 3 + n * 3
    case Asked(_) => if t.parent.Some? then 1 else drive + 2 + n * 3
    case Asking(_, left) => drive + 1 + |left| * 3
    case AwaitingRecipe(_, left, _) => drive + 2 + |left| * 3
    case RecipeDone(_) => if t.kind.OrderKind? then drive else 0
    case Arrived(p) => Spread(n, if t.kind.ProcessKind? then Left(p) else Left(p) + 1)
    case Trying(p, left) => 4 + |left| * (2 + Spread(n, Left(p)))
    case Waiting(p, left, _) => 5 + |left| * (2 + Spread(n, Left(p)))
    case Finishing(_) => 4
    case Driven(_) => 3
    case Parked => 2
    case Woken(_) => 1
    case LeftEarly => 0
    case Crashed => 0
    case Returned => 0
  }

  function Load(n: nat, longest: nat, threads: seq<Thread>): nat {
    if threads == [] then 0
    else Load(n, longest, threads[..|threads| - 1]) + Effort(n, longest, threads[|threads| - 1])
  }

  lemma {:induction false} LoadUpdated(n: nat, longest: nat, threads: seq<Thread>, i: nat, t: Thread)
    requires i < |threads|
    ensures Load(n, longest, threads[i := t]) ==
      Load(n, longest, threads) - Effort(n, longest, threads[i]) + Effort(n, longest, t)
  {
    hide Effort;
    var last := |threads| - 1;
    if i < last {
      LoadUpdated(n, longest, threads[..last], i, t);
      assert threads[i := t][..last] == threads[..last][i := t];
    } else {
      assert threads[i := t][..last] == threads[..last];
    }
  }

  // ── Every step uses some up ───────────────────────────────────────────────────

  ghost predicate RecipesWithin(ids: Cluster, longest: nat) {
    forall node, name, sequence :: IsFlatRecipe(ids, node, name, sequence) ==> |sequence| <= longest
  }

  function EffortOf(n: nat, longest: nat, e: Effect): nat {
    Effort(n, longest, e.thread) + if e.spawned.Some? then Effort(n, longest, e.spawned.value) else 0
  }

  lemma CandidatesBounded(ids: Cluster, order: seq<Addr>, peers: set<Addr>)
    requires IsOrderOf(order, peers) && forall a :: a in peers ==> a in ids
    ensures |order| <= |ids|
  {
    OrderLength(order, peers);
    SubsetSmaller(peers, ids.Keys);
  }

  lemma AskingUsesUp(ids: Cluster, table: PeerTable, w: Work, i: nat, e: Effect, longest: nat)
    requires WorkOk(ids, w) && TableTrue(ids, table) && ThreadStep(ids, table, w, i, e)
    requires var phase := w.threads[i].phase; phase.Received? || phase.Asked? || phase.Asking? || phase.AwaitingRecipe?
    ensures EffortOf(|ids|, longest, e) < Effort(|ids|, longest, w.threads[i])
  {
    hide WorkOk, Spread, TableTrue;
    var t := w.threads[i];
    AtThread(ids, w, i);
    if t.phase.Asked? {
      var name := t.phase.name;
      FoundIffHas(ids[t.node], name);
      AccurateRecipePeers(ids, table, name);
      if FindRecipe(ids[t.node].recipes, name).None? {
        var order :| IsOrderOf(order, RecipePeers(table, name)) && e == Become(t, Asking(name, order));
        CandidatesBounded(ids, order, RecipePeers(table, name));
      }
    }
  }

  lemma RunUsesUp(ids: Cluster, table: PeerTable, w: Work, i: nat, e: Effect, longest: nat, p: Payload)
    requires WorkOk(ids, w) && TableTrue(ids, table) && ThreadStep(ids, table, w, i, e)
    requires w.threads[i].phase == Arrived(p)
    ensures EffortOf(|ids|, longest, e) < Effort(|ids|, longest, w.threads[i])
  {
    hide WorkOk, Spread, TableTrue, InProgress, HolderOf, HopsOf, LocalRun, Ordered, CanRun;
    var n := |ids|;
    var t := w.threads[i];
    AtThread(ids, w, i);
    var q :| LocalRun(ids[t.node], p, q) && AfterRun(table, t, q, e);
    RunFacts(ids, w.born[t.orderId], p, q);
    var left := if t.kind.ProcessKind? then Left(p) else Left(p) + 1;
    SpreadStep(n, left, Left(q));
    if q.index < |q.sequence| {
      var action := q.sequence[q.index];
      AccurateCapablePeers(ids, table, action);
      var order :| IsOrderOf(order, CapablePeers(table, action.name)) && e == Become(t, Trying(q, order));
      CandidatesBounded(ids, order, CapablePeers(table, action.name));
      Scaled(2 + Spread(n, Left(q)), |order|, n);
    }
  }

  lemma SpreadStep(n: nat, left: nat, after: nat)
    requires after < left
    ensures Spread(n, left) > 4 + n * (2 + Spread(n, after)) && Spread(n, left) >= 5
  {
    SpreadGrows(n, after, left - 1);
    Scaled(n, 2 + Spread(n, after), 2 + Spread(n, left - 1));
  }

  lemma DriveUsesUp(ids: Cluster, table: PeerTable, w: Work, i: nat, e: Effect, longest: nat)
    requires WorkOk(ids, w) && ThreadStep(ids, table, w, i, e)
    requires var phase := w.threads[i].phase; phase.Trying? || phase.Waiting? || phase.Finishing?
    ensures EffortOf(|ids|, longest, e) < Effort(|ids|, longest, w.threads[i])
  {
    hide WorkOk, Spread;
    var t := w.threads[i];
    if t.phase.Trying? && t.phase.left != [] {
      var k, s := |t.phase.left|, 2 + Spread(|ids|, Left(t.phase.payload));
      assert k * s == (k - 1) * s + s;
    }
  }

  lemma OrderUsesUp(ids: Cluster, table: PeerTable, w: Work, i: nat, e: Effect, longest: nat)
    requires WorkOk(ids, w) && RecipesWithin(ids, longest) && ThreadStep(ids, table, w, i, e)
    requires w.threads[i].phase.RecipeDone?
    ensures EffortOf(|ids|, longest, e) < Effort(|ids|, longest, w.threads[i])
  {
    hide WorkOk, Spread, ParseRecipes, Flatten, FindRecipe, IsSourceOf;
    var t := w.threads[i];
    AtThread(ids, w, i);
    if e.created.Some? {
      var p := e.created.value;
      assert ReadsAs(t.phase.answer.recipe, t.kind.name, p.sequence);
      assert IsFlatRecipe(ids, t.node, t.kind.name, p.sequence);
      SpreadGrows(|ids|, Left(p) + 1, longest + 1);
    }
  }

  lemma StepUsesUp(ids: Cluster, table: PeerTable, w: Work, i: nat, e: Effect, longest: nat)
    requires ClusterOk(ids) && WorkOk(ids, w) && TableTrue(ids, table) && RecipesWithin(ids, longest)
    requires ThreadStep(ids, table, w, i, e)
    ensures Load(|ids|, longest, Apply(w, i, e).threads) < Load(|ids|, longest, w.threads)
  {
    hide WorkOk, TableTrue, RecipesWithin, Load, Spread;
    match w.threads[i].phase {
      case RecipeDone(_) => OrderUsesUp(ids, table, w, i, e, longest);
      case Arrived(p) => RunUsesUp(ids, table, w, i, e, longest, p);
      case Trying(_, _) => DriveUsesUp(ids, table, w, i, e, longest);
      case Waiting(_, _, _) => DriveUsesUp(ids, table, w, i, e, longest);
      case Finishing(_) => DriveUsesUp(ids, table, w, i, e, longest);
      case Received => AskingUsesUp(ids, table, w, i, e, longest);
      case Asked(_) => AskingUsesUp(ids, table, w, i, e, longest);
      case Asking(_, _) => AskingUsesUp(ids, table, w, i, e, longest);
      case AwaitingRecipe(_, _, _) => AskingUsesUp(ids, table, w, i, e, longest);
      case _ =>
    }
    LoadApplied(|ids|, longest, w, i, e);
  }

  lemma LoadApplied(n: nat, longest: nat, w: Work, i: nat, e: Effect)
    requires i < |w.threads|
    ensures Load(n, longest, Apply(w, i, e).threads) ==
      Load(n, longest, w.threads) - Effort(n, longest, w.threads[i]) + EffortOf(n, longest, e)
  {
    hide Effort;
    var threads := w.threads[i := e.thread];
    LoadUpdated(n, longest, w.threads, i, e.thread);
    if e.spawned.Some? {
      assert (threads + [e.spawned.value])[..|threads|] == threads;
    } else {
      assert threads + [] == threads;
    }
  }

  // ── Runs without new requests ─────────────────────────────────────────────────

  ghost predicate HandlerMoves(ids: Cluster, s: State, s': State) {
    s'.net == s.net && ThreadMoves(ids, Tables(s), s.work, s'.work)
  }

  /** Anything but a client connecting: gossip goes on, deliveries arrive, handlers move. */
  ghost predicate CalmStep(ids: Cluster, s: State, s': State) {
    || (GossipNetwork.Step(ids, s.net, s'.net) && s'.work == s.work)
    || HandlerMoves(ids, s, s')
    || (s'.net == s.net && exists k, now :: ReceiveDeliver(ids, s.work, s'.work, k, now))
  }

  ghost predicate IsCalm(ids: Cluster, run: seq<State>) {
    run != [] && forall i :: 0 <= i < |run| - 1 ==> CalmStep(ids, run[i], run[i + 1])
  }

  /** How many of the run's steps are a handler's. */
  ghost function Moves(ids: Cluster, run: seq<State>): nat {
    if |run| < 2 then 0
    else Moves(ids, run[..|run| - 1]) + if HandlerMoves(ids, run[|run| - 2], run[|run| - 1]) then 1 else 0
  }

  lemma CalmStepOk(ids: Cluster, s: State, s': State, longest: nat)
    requires ClusterOk(ids) && StateOk(ids, s) && RecipesWithin(ids, longest) && CalmStep(ids, s, s')
    ensures StateOk(ids, s')
    ensures Load(|ids|, longest, s'.work.threads) <= Load(|ids|, longest, s.work.threads)
    ensures HandlerMoves(ids, s, s') ==> Load(|ids|, longest, s'.work.threads) < Load(|ids|, longest, s.work.threads)
  {
    hide WorkOk, GossipNetwork.Ok, GossipNetwork.Step, TableTrue, ClusterOk, ThreadStep, Apply, RecipesWithin, Load;
    StepKeepsOk(ids, s, s');
    if HandlerMoves(ids, s, s') {
      OkTablesTrue(ids, s);
      var i: nat, e :| i < |s.work.threads| && s.work.threads[i].node in Tables(s)
        && ThreadStep(ids, Tables(s)[s.work.threads[i].node], s.work, i, e) && s'.work == Apply(s.work, i, e);
      StepUsesUp(ids, Tables(s)[s.work.threads[i].node], s.work, i, e, longest);
    }
  }

  /** For a given bound on the recipes: from any reachable state, with everything that is under
      way, the handlers make only so
      many steps before they need a new request. */
  lemma {:induction false} HandlersFinish(ids: Cluster, run: seq<State>, longest: nat)
    requires ClusterOk(ids) && RecipesWithin(ids, longest) && IsCalm(ids, run) && Reachable(ids, run[0])
    ensures StateOk(ids, run[|run| - 1])
    ensures Moves(ids, run) + Load(|ids|, longest, run[|run| - 1].work.threads) <=
      Load(|ids|, longest, run[0].work.threads)
  {
    hide StateOk, ClusterOk, CalmStep, HandlerMoves, RecipesWithin, Load, Reachable;
    var last := |run| - 1;
    if last == 0 {
      ReachableOk(ids, run[0]);
    } else {
      HandlersFinish(ids, run[..last], longest);
      CalmStepOk(ids, run[last - 1], run[last], longest);
    }
  }

  function LongestIn(recipes: seq<Recipe>): nat {
    if recipes == [] then 0
    else
      var n, rest := |Flatten(recipes[0].steps)|, LongestIn(recipes[1..]);
      if n > rest then n else rest
  }

  lemma {:induction false} LongestIsLongest(recipes: seq<Recipe>, name: string)
    requires FindRecipe(recipes, name).Some?
    ensures |Flatten(FindRecipe(recipes, name).value.steps)| <= LongestIn(recipes)
  {
    if recipes[0].name != name { LongestIsLongest(recipes[1..], name); }
  }

  function LongestRead(recipes: seq<Recipe>): nat {
    if recipes == [] then 0
    else
      var parsed, rest := ParseRecipes(recipes[0].source), LongestRead(recipes[1..]);
      var n := if parsed.Ok? then LongestIn(parsed.value) else 0;
      if n > rest then n else rest
  }

  lemma {:induction false} ReadIsBounded(recipes: seq<Recipe>, i: nat, name: string, sequence: seq<ActionDef>)
    requires i < |recipes| && ReadsAs(recipes[i].source, name, sequence)
    ensures |sequence| <= LongestRead(recipes)
  {
    hide ParseRecipes, Flatten, FindRecipe;
    if i > 0 {
      ReadIsBounded(recipes[1..], i - 1, name, sequence);
    } else {
      LongestIsLongest(ParseRecipes(recipes[0].source).value, name);
    }
  }

  lemma {:induction false} NodesBounded(ids: Cluster, nodes: set<Addr>) returns (longest: nat)
    requires nodes <= ids.Keys
    ensures forall c :: c in nodes ==> LongestRead(ids[c].recipes) <= longest
  {
    longest := 0;
    if nodes != {} {
      var c :| c in nodes;
      var rest := NodesBounded(ids, nodes - {c});
      longest := rest + LongestRead(ids[c].recipes);
    }
  }

  /** The recipes of a cluster are bounded. */
  lemma RecipesBounded(ids: Cluster) returns (longest: nat)
    ensures RecipesWithin(ids, longest)
  {
    hide ReadsAs, LongestRead;
    longest := NodesBounded(ids, ids.Keys);
    forall node, name, sequence | IsFlatRecipe(ids, node, name, sequence) ensures |sequence| <= longest {
      var text :| IsSourceOf(ids, node, name, text) && ReadsAs(text, name, sequence);
      var c :| Serves(ids, node, c, name) && FindRecipe(ids[c].recipes, name).value.source == text;
      var k :| 0 <= k < |ids[c].recipes| && ids[c].recipes[k] == FindRecipe(ids[c].recipes, name).value;
      ReadIsBounded(ids[c].recipes, k, name, sequence);
    }
  }

  /** From any reachable state, with everything that is under way, there is a bound on the steps
      that the handlers make before they need a new request, whatever the network and the
      gossip do. */
  lemma HandlersStop(ids: Cluster, s: State) returns (bound: nat)
    requires ClusterOk(ids) && Reachable(ids, s)
    ensures forall run :: IsCalm(ids, run) && run[0] == s ==> Moves(ids, run) <= bound
  {
    hide ClusterOk, RecipesWithin, Reachable, Moves, Load;
    var longest := RecipesBounded(ids);
    bound := Load(|ids|, longest, s.work.threads);
    forall run | IsCalm(ids, run) && run[0] == s ensures Moves(ids, run) <= bound {
      HandlersFinish(ids, run, longest);
    }
  }

  // ── No handler gets stuck ─────────────────────────────────────────────────────

  /** The handler has returned, or its thread has died. */
  predicate Ended(t: Thread) {
    || t.phase.LeftEarly? || t.phase.Returned? || t.phase.Crashed?
    || (t.phase.RecipeDone? && !t.kind.OrderKind?) || (t.phase.Driven? && !t.kind.OrderKind?)
  }

  lemma {:induction false} RunOn(id: Identity, start: Payload, p: Payload) returns (q: Payload)
    requires Ran(id, start, p)
    ensures Ran(id, start, q) && (q.index == |q.sequence| || !CanRun(id, q.sequence[q.index]))
    decreases |p.sequence| - p.index
  {
    hide Ran;
    assert SameOrder(start, p) && p.index <= |p.sequence| by { RanFacts(id, start, p); }
    if p.index == |p.sequence| || !CanRun(id, p.sequence[p.index]) {
      q := p;
    } else {
      RanOneMore(id, start, p, 0);
      q := RunOn(id, start, Executed(p, 0));
    }
  }

  lemma RanFacts(id: Identity, p: Payload, q: Payload)
    requires Ran(id, p, q)
    ensures SameOrder(p, q) && q.index <= |q.sequence|
  {}

  lemma RunExists(id: Identity, p: Payload) returns (q: Payload)
    ensures LocalRun(id, p, q)
  {
    q := p;
    if p.index < |p.sequence| {
      assert p.sequence[p.index..p.index] == [];
      q := RunOn(id, p, p);
    }
  }

  lemma RunCanMove(ids: Cluster, table: PeerTable, w: Work, i: nat, p: Payload) returns (e: Effect)
    requires i < |w.threads| && w.threads[i].node in ids && w.threads[i].phase == Arrived(p)
    ensures ThreadStep(ids, table, w, i, e)
  {
    hide LocalRun;
    var t := w.threads[i];
    var q := RunExists(ids[t.node], p);
    if q.index >= |q.sequence| {
      e := Become(t, Finishing(q));
    } else {
      var order := SortedSeq(CapablePeers(table, q.sequence[q.index].name));
      e := Become(t, Trying(q, order));
      assert IsOrderOf(order, CapablePeers(table, q.sequence[q.index].name));
    }
    assert AfterRun(table, t, q, e);
    assert RunHere(ids[t.node], table, t, p, e);
  }

  lemma DriveCanMove(ids: Cluster, table: PeerTable, w: Work, i: nat) returns (e: Effect)
    requires i < |w.threads| && w.threads[i].node in ids
    requires w.threads[i].phase.RecipeDone? && w.threads[i].kind.OrderKind?
    ensures ThreadStep(ids, table, w, i, e)
  {
    hide ParseRecipes, Flatten, FindRecipe;
    var t := w.threads[i];
    e := Only(t.(frames := t.frames + [Error("")], phase := LeftEarly));
    assert Fails(t, e);
    if t.phase.answer.RecipeAnswer? {
      var parsed := ParseRecipes(t.phase.answer.recipe);
      if parsed.Panicked? {
        e := Become(t, Crashed);
      } else if parsed.Ok? && FindRecipe(parsed.value, t.kind.name).Some? {
        var r := FindRecipe(parsed.value, t.kind.name).value;
        var p := Payload(t.orderId, 0, t.node, 0, Flatten(r.steps), "", []);
        e := Become(t, Arrived(p)).(created := Some(p));
      }
    }
  }

  lemma FetchCanMove(ids: Cluster, table: PeerTable, w: Work, i: nat) returns (e: Effect)
    requires WorkOk(ids, w) && i < |w.threads|
    requires var phase := w.threads[i].phase; phase.Received? || phase.Asked? || phase.Asking? || phase.AwaitingRecipe?
    ensures ThreadStep(ids, table, w, i, e) && (Ready(w, w.threads[i]) ==> Faultless(w.threads[i], e))
  {
    hide WorkOk, FindRecipe, IsSourceOf;
    AtThread(ids, w, i);
    var t := w.threads[i];
    var id := ids[t.node];
    match t.phase {
      case Received =>
        if !HasRecipe(id, t.kind.name) && RecipePeers(table, t.kind.name) == {} {
          e := Only(t.(frames := t.frames + [OrderDeclined("Unknown recipe")], phase := LeftEarly));
        } else {
          e := Become(t.(frames := t.frames + [OrderReceipt(t.orderId)]), Asked(t.kind.name)).(registers := true);
        }
      case Asked(name) =>
        if FindRecipe(id.recipes, name).Some? {
          e := Become(t, RecipeDone(RecipeAnswer(FindRecipe(id.recipes, name).value.source)));
        } else {
          var order := SortedSeq(RecipePeers(table, name));
          assert IsOrderOf(order, RecipePeers(table, name));
          e := Become(t, Asking(name, order));
        }
      case Asking(name, left) =>
        if left == [] {
          e := Become(t, RecipeDone(Error("")));
        } else {
          assert left[0] in left;
          e := Spawn(t, AwaitingRecipe(name, left[1..], |w.threads|),
                     Thread(left[0], RecipeKind(name), t.orderId, Some(i), [], [], Asked(name)));
        }
      case AwaitingRecipe(name, left, child) =>
        e := Become(t, if Ready(w, t) then RecipeDone(w.threads[child].phase.answer) else Asking(name, left));
    }
  }

  lemma ThreadCanMove(ids: Cluster, table: PeerTable, w: Work, i: nat) returns (e: Effect)
    requires WorkOk(ids, w) && i < |w.threads| && !Ended(w.threads[i])
    ensures ThreadStep(ids, table, w, i, e) && (Ready(w, w.threads[i]) ==> Faultless(w.threads[i], e))
  {
    hide WorkOk, RunHere, BeginDrive, FindRecipe, Signalled;
    AtThread(ids, w, i);
    var t := w.threads[i];
    match t.phase {
      case Received => e := FetchCanMove(ids, table, w, i);
      case Asked(_) => e := FetchCanMove(ids, table, w, i);
      case Asking(_, _) => e := FetchCanMove(ids, table, w, i);
      case AwaitingRecipe(_, _, _) => e := FetchCanMove(ids, table, w, i);
      case RecipeDone(_) => e := DriveCanMove(ids, table, w, i);
      case Arrived(p) => e := RunCanMove(ids, table, w, i, p);
      case Trying(p, left) => e := TryCanMove(ids, table, w, i, p, left);
      case Waiting(p, left, child) =>
        e := Become(t, if Ready(w, t) then Driven(w.threads[child].phase.answer) else Trying(p, left));
      case Finishing(p) =>
        var d := DeliverMsg(Copy(p, p.host, 0), None);
        e := Become(t, Driven(CompletedOrder(Label(t), None))).(delivered := Some(d));
        assert Delivers(t, d, e);
      case Driven(m) =>
        e := if m.CompletedOrder? && m.result.None? then Become(t, Parked)
             else Only(t.(frames := t.frames + [m], phase := Returned)).(removes := true);
      case Parked =>
        e := Become(t, Woken(if w.channel[t.orderId] == [] then Error("") else w.channel[t.orderId][0]));
        if Ready(w, t) { ChannelHasNoErrors(ids, w, t.orderId); }
      case Woken(m) =>
        e := Only(t.(frames := t.frames + [Stamped(t.kind.name, m)], phase := Returned)).(removes := true);
    }
  }

  lemma TryCanMove(ids: Cluster, table: PeerTable, w: Work, i: nat, p: Payload, left: seq<Addr>) returns (e: Effect)
    requires WorkOk(ids, w) && i < |w.threads| && w.threads[i].phase == Trying(p, left)
    ensures ThreadStep(ids, table, w, i, e) && Faultless(w.threads[i], e)
  {
    hide WorkOk, InProgress, HolderOf, HopsOf, Ordered;
    AtThread(ids, w, i);
    var t := w.threads[i];
    if left == [] {
      var d := DeliverMsg(p, Some(UnavailableError(p.sequence[p.index])));
      e := Become(t, Driven(CompletedOrder(Label(t), None))).(delivered := Some(d));
      assert Delivers(t, d, e);
    } else {
      assert left[0] in left;
      var child := Thread(left[0], ProcessKind, t.orderId, Some(i), t.hops + [left[0]], [],
                          Arrived(Copy(p, left[0], 0)));
      e := Spawn(t, Waiting(p, left[1..], |w.threads|), child);
    }
  }

  lemma ChannelHasNoErrors(ids: Cluster, w: Work, orderId: string)
    requires WorkOk(ids, w) && orderId in w.channel && w.channel[orderId] != []
    ensures !w.channel[orderId][0].Error? && Signalled(w, orderId, w.channel[orderId][0])
  {
    hide WorkOk;
    AtChannel(ids, w, orderId);
    var m := w.channel[orderId][0];
    assert m in w.channel[orderId];
    var k :| 0 <= k < |w.delivers| && w.delivers[k].payload.orderId == orderId && SignalOf(w.delivers[k], m);
  }

  /** In every reachable state every handler that has not ended can go on, so together with
      `HandlersStop` every order comes to an end. */
  lemma NoHandlerStuck(ids: Cluster, s: State, i: nat) returns (e: Effect)
    requires ClusterOk(ids) && Reachable(ids, s) && i < |s.work.threads| && !Ended(s.work.threads[i])
    ensures s.work.threads[i].node in Tables(s)
    ensures ThreadStep(ids, Tables(s)[s.work.threads[i].node], s.work, i, e)
  {
    hide Reachable, WorkOk, ThreadStep;
    ReachableOk(ids, s);
    AtThread(ids, s.work, i);
    e := ThreadCanMove(ids, Tables(s)[s.work.threads[i].node], s.work, i);
  }
}
