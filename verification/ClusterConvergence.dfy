/** What gossip can always come to, and with it every order. */
module ClusterConvergence {
  import opened Recipe
  import opened Gossip
  import opened GossipConvergence
  import opened OrderSystem
  import opened OrderInvariant
  import opened ClusterSystem
  import opened OrderResults
  import opened Listing
  import opened ReliableOrders

  lemma {:induction false} PathIsReachable(ids: Cluster, path: seq<GossipNetwork.Net>, s: State, s': GossipNetwork.Net)
    requires Reachable(ids, s) && IsPath(ids, path, s.net, s')
    ensures Reachable(ids, State(s', s.work))
    decreases |path|
  {
    hide GossipNetwork.Step, Reachable;
    if |path| > 1 {
      var next := State(path[1], s.work);
      assert GossipNetwork.Step(ids, path[0], path[1]);
      assert ClusterStep(ids, s, next);
      ReachOneMore(ids, s, next);
      PathIsReachable(ids, path[1..], next, s');
    }
  }

  /** In every reachable state of a cluster in which no group of nodes is cut off, in particular at
      the start if the bootstrap addresses connect it, gossip alone can lead to converged tables,
      whatever orders are under way. */
  lemma ClusterConverges(ids: Cluster, s: State) returns (s': State)
    requires Reachable(ids, s) && Joined(ids, s.net)
    ensures Reachable(ids, s') && s'.work == s.work
    ensures Converged(ids, Tables(s'))
  {
    hide Reachable, Joined, IsPath, AllTold, Converged;
    var path, net := GossipConverges(ids, s.net);
    PathIsReachable(ids, path, s, net);
    s' := State(net, s.work);
    AllToldIsConverged(ids, s');
  }

  lemma AllToldIsConverged(ids: Cluster, s: State)
    requires AllTold(ids, s.net)
    ensures Converged(ids, Tables(s))
  {
    var tables: map<Addr, PeerTable> := Tables(s);
    forall n: Addr, a: Addr | n in ids && a in ids && n != a
      ensures a in tables[n] && tables[n][a].capabilities == ids[a].capabilities
      ensures tables[n][a].recipes == RecipeNames(ids[a].recipes)
    {
      assert Told(ids, s.net, a, n);
    }
  }

  /** So in every reachable state of such a cluster, whatever happened before and whatever else is
      under way, an order newly placed for a recipe that some node has can be brought to its
      result: a pizza exactly if every action of the recipe has a node that can do it. */
  lemma OrderCanBeServed(ids: Cluster, s: State, node: Addr, name: string, orderId: string)
    returns (s': State, i: nat, c: Addr)
    requires ClusterOk(ids) && Reachable(ids, s) && Joined(ids, s.net)
    requires node in ids && Obtainable(ids, node, name)
    requires forall j :: 0 <= j < |s.work.threads| ==> s.work.threads[j].orderId != orderId
    ensures Reachable(ids, s') && IsOrder(s', i) && Serves(ids, node, c, name)
    ensures var t := s'.work.threads[i];
      && t.node == node && t.kind == OrderKind(name) && t.orderId == orderId && |t.frames| == 2
      && (t.frames[1].CompletedOrder? <==>
          forall a :: a in Flatten(FindRecipe(ids[c].recipes, name).value.steps) ==>
            Somebody(ids, a.name))
  {
    hide Reachable, Joined, Converged, GoodSince, Obtainable,
      Somebody, Flatten, Covered;
    var told := ClusterConverges(ids, s);
    var missing;
    s', i, c, missing := OrderCanBeSettled(ids, told, node, name, orderId);
    GoodIsReachable(ids, orderId, s');
    NothingMissing(ids, told, node, FindRecipe(ids[c].recipes, name).value);
  }

  lemma NothingMissing(ids: Cluster, s: State, node: Addr, r: Recipe)
    requires ClusterOk(ids) && Reachable(ids, s) && Converged(ids, Tables(s))
    requires node in ids
    ensures node in Tables(s)
    ensures MissingActions(r, Covered(ids[node], Tables(s)[node])) == [] <==>
      forall a :: a in Flatten(r.steps) ==> Somebody(ids, a.name)
  {
    hide Reachable, Somebody, Flatten, Covered, MissingOf, WorkOk,
      GossipNetwork.Ok;
    ReachableOk(ids, s);
    OkTablesTrue(ids, s);
    var table := Tables(s)[node];
    var covered := Covered(ids[node], table);
    forall name ensures name in covered <==> Somebody(ids, name) {
      CoveredIsCluster(ids, node, table, name);
    }
    var actions := Flatten(r.steps);
    var names := ActionNames(actions);
    MissingIsUncovered(names, covered);
    HasElement(MissingOf(names, covered));
    forall a | a in actions ensures a.name in names {
      var k :| 0 <= k < |actions| && actions[k] == a;
      assert names[k] == a.name;
    }
  }
}
