/** Nodes gossiping and handling orders at once: routing uses whatever the peer tables say at
    that moment. */
module ClusterSystem {
  import opened Recipe
  import opened Gossip
  import GossipNetwork
  import opened OrderSystem
  import opened OrderInvariant
  import opened OrderPreservation

  datatype State = State(net: GossipNetwork.Net, work: Work)

  function Tables(s: State): map<Addr, PeerTable> {
    map n | n in s.net.nodes :: s.net.nodes[n].peers
  }

  ghost predicate Init(ids: Cluster, s: State) {
    GossipNetwork.Init(ids, s.net) && s.work == EMPTY
  }

  ghost predicate ClusterStep(ids: Cluster, s: State, s': State) {
    || (GossipNetwork.Step(ids, s.net, s'.net) && s'.work == s.work)
    || (s'.net == s.net && WorkStep(ids, Tables(s), s.work, s'.work))
  }

  ghost predicate IsRun(ids: Cluster, run: seq<State>) {
    run != [] && Init(ids, run[0]) && forall i :: 0 <= i < |run| - 1 ==> ClusterStep(ids, run[i], run[i + 1])
  }

  /** `s` is the state after some run of any length. */
  ghost predicate Reachable(ids: Cluster, s: State) {
    exists run :: IsRun(ids, run) && run[|run| - 1] == s
  }

  ghost predicate StateOk(ids: Cluster, s: State) {
    GossipNetwork.Ok(ids, s.net) && WorkOk(ids, s.work)
  }

  lemma OkTablesTrue(ids: Cluster, s: State)
    requires GossipNetwork.Ok(ids, s.net)
    ensures forall n :: n in Tables(s) ==> TableTrue(ids, Tables(s)[n])
  {
    forall n, p | n in Tables(s) && p in Tables(s)[n] ensures EntryTrue(ids, p, Tables(s)[n][p]) {
      assert GossipNetwork.TablesOk(ids, s.net);
    }
  }

  lemma StepKeepsOk(ids: Cluster, s: State, s': State)
    requires ClusterOk(ids) && StateOk(ids, s) && ClusterStep(ids, s, s')
    ensures StateOk(ids, s')
  {
    hide WorkOk, WorkStep, GossipNetwork.Ok, GossipNetwork.Step, TableTrue, ClusterOk;
    if s'.net == s.net && WorkStep(ids, Tables(s), s.work, s'.work) {
      OkTablesTrue(ids, s);
      WorkStepOk(ids, Tables(s), s.work, s'.work);
    } else {
      GossipNetwork.StepKeepsOk(ids, s.net, s'.net);
    }
  }

  lemma InitOk(ids: Cluster, s: State)
    requires ClusterOk(ids) && Init(ids, s)
    ensures StateOk(ids, s)
  {
    assert GossipNetwork.IsRun(ids, [s.net]);
    GossipNetwork.RunOk(ids, [s.net], 0);
  }

  lemma {:induction false} RunOk(ids: Cluster, run: seq<State>, i: nat)
    requires ClusterOk(ids) && IsRun(ids, run) && i < |run|
    ensures StateOk(ids, run[i])
  {
    hide StateOk, ClusterOk, ClusterStep;
    if i == 0 {
      InitOk(ids, run[0]);
    } else {
      RunOk(ids, run, i - 1);
      StepKeepsOk(ids, run[i - 1], run[i]);
    }
  }

  lemma ReachableOk(ids: Cluster, s: State)
    requires ClusterOk(ids) && Reachable(ids, s)
    ensures StateOk(ids, s)
  {
    hide StateOk, ClusterOk;
    var run :| IsRun(ids, run) && run[|run| - 1] == s;
    RunOk(ids, run, |run| - 1);
  }

  /** Whatever the gossip has come to: a peer that a table says can do an action can do it, and
      one that it says has a recipe has it. */
  lemma TablesTrue(ids: Cluster, s: State, n: Addr, a: Addr, name: string)
    requires ClusterOk(ids) && Reachable(ids, s) && n in Tables(s)
    ensures a in CapablePeers(Tables(s)[n], name) ==> a in ids && name in ids[a].capabilities
    ensures a in RecipePeers(Tables(s)[n], name) ==> Knows(ids, a, name)
  {
    hide Reachable, WorkOk;
    ReachableOk(ids, s);
    OkTablesTrue(ids, s);
    AccurateRecipePeers(ids, Tables(s)[n], name);
    AccurateCapablePeers(ids, Tables(s)[n], ActionDef(name, map[]));
  }
}
