/** Gossip can always bring the nodes to know each other, as long as no group of them is cut off
    from the rest. */
module GossipConvergence {
  import opened Text
  import opened StringOrder
  import opened Gossip
  import opened GossipNetwork

  // ── Who knows whom ────────────────────────────────────────────────────────────

  /** Node `a` has the truth about `n` in its table. */
  predicate Told(ids: Cluster, s: Net, n: Addr, a: Addr) {
    && n in ids && a in s.nodes && n in s.nodes[a].peers
    && s.nodes[a].peers[n].capabilities == ids[n].capabilities
    && s.nodes[a].peers[n].recipes == RecipeNames(ids[n].recipes)
  }

  predicate Sees(s: Net, n: Addr, a: Addr) {
    n in s.nodes && a in s.nodes[n].peers
  }

  predicate AllTold(ids: Cluster, s: Net) {
    s.nodes.Keys == ids.Keys && forall n, a :: n in ids && a in ids && n != a ==> Told(ids, s, n, a)
  }

  /** One of the two is in the group, and one has the other in its table. */
  predicate Crosses(ids: Cluster, s: Net, group: set<Addr>, n: Addr, a: Addr) {
    n in ids && a in ids && Sees(s, n, a) && (n in group <==> a !in group)
  }

  /** No group of nodes is cut off: some node in it has one outside in its table, or the other way
      round. */
  ghost predicate Connected(ids: Cluster, s: Net) {
    forall group: set<Addr> :: group != {} && group < ids.Keys ==> exists n, a :: Crosses(ids, s, group, n, a)
  }

  ghost predicate Joined(ids: Cluster, s: Net) {
    && ClusterOk(ids) && s.nodes.Keys == ids.Keys == s.clock.Keys
    && (forall n :: n in s.clock ==> s.clock[n] <= U64_MAX)
    && Connected(ids, s)
  }

  // ── One node tells another ────────────────────────────────────────────────────

  /** Nothing known is forgotten. */
  ghost predicate Learns(ids: Cluster, s: Net, s': Net) {
    && s.nodes.Keys == s'.nodes.Keys
    && (forall n, a :: Sees(s, n, a) ==> Sees(s', n, a))
    && (forall n, a :: Told(ids, s, n, a) ==> Told(ids, s', n, a))
  }

  /** What a node sends while it handles a datagram can always be put in some order. */
  lemma SendsExist(id: Identity, g: GossipState, from: Addr, msg: UdpMessage, reply: Option<UdpMessage>)
    returns (sends: seq<(Addr, UdpMessage)>)
    ensures SendsOf(id, g, from, msg, reply, sends)
  {
    sends := [];
    if reply.Some? {
      sends := [(from, reply.value)];
      if msg.Announce? {
        var order := SortedSeq(RelayTargets(g.peers, id.addr, from));
        assert IsOrderOf(order, RelayTargets(g.peers, id.addr, from));
        sends := sends + ToEach(order, msg);
        assert sends[1..] == ToEach(order, msg);
      }
    }
  }

  /** Node `n` announces itself to everyone it knows. */
  lemma AnnouncesItself(ids: Cluster, s: Net, n: Addr, a: Addr) returns (mid: Net, i: nat)
    requires s.nodes.Keys == ids.Keys && n in ids && a != n && Sees(s, n, a)
    ensures Step(ids, s, mid) && mid.clock == s.clock && mid.nodes.Keys == s.nodes.Keys
    ensures forall m :: m in s.nodes ==> mid.nodes[m].peers == s.nodes[m].peers
    ensures i < |mid.flight| && mid.flight[i].from == n && mid.flight[i].to == a
    ensures var v := Bumped(s.nodes[n].version);
      mid.flight[i].msg == Announce(AnnouncementOf(ids[n], s.nodes[n].peers.Keys, v))
  {
    hide AnnouncementOf;
    var keys := s.nodes[n].peers.Keys - {n};
    var order := SortedSeq(keys);
    assert IsOrderOf(order, keys);
    var (g', msg) := BuildAnnounce(ids[n], s.nodes[n]);
    var sent := Datagrams(n, ToEach(order, msg));
    mid := s.(nodes := s.nodes[n := g'], flight := s.flight + sent);
    assert AnnounceAll(ids, s, mid, n, order);
    assert a in order;
    var k: nat :| k < |order| && order[k] == a;
    i := |s.flight| + k;
    assert mid.flight[i] == sent[k];
  }

  /** The announcement reaches one of them. */
  lemma Arrives(ids: Cluster, mid: Net, i: nat) returns (s': Net)
    requires mid.nodes.Keys == ids.Keys == mid.clock.Keys && i < |mid.flight|
    requires var d := mid.flight[i]; d.to in ids && d.msg.Announce? && mid.clock[d.to] <= U64_MAX
    ensures Step(ids, mid, s') && s'.clock == mid.clock && s'.nodes.Keys == mid.nodes.Keys
    ensures var d := mid.flight[i];
      && (forall m :: m in mid.nodes && m != d.to ==> s'.nodes[m] == mid.nodes[m])
      && s'.nodes[d.to].peers == Announced(mid.nodes[d.to].peers, ids[d.to].addr, d.msg.announce, mid.clock[d.to])
  {
    hide Announced, SendsOf;
    var d := mid.flight[i];
    var now := mid.clock[d.to];
    var (g', reply) := Handle(ids[d.to], mid.nodes[d.to], d.from, d.msg, now);
    var sends := SendsExist(ids[d.to], g', d.from, d.msg, reply);
    var flight := Without(mid.flight, i) + Datagrams(d.to, sends);
    s' := Net(mid.nodes[d.to := g'], flight, mid.clock[d.to := now], mid.pings);
    assert Deliver(ids, mid, s', i, now, sends);
  }

  /** After that the other node has the truth about it, and sees everyone that it sees. */
  lemma Tell(ids: Cluster, s: Net, n: Addr, a: Addr) returns (mid: Net, s': Net)
    requires Joined(ids, s) && n in ids && a in ids && n != a && Sees(s, n, a)
    ensures Step(ids, s, mid) && Step(ids, mid, s') && Joined(ids, s') && Learns(ids, s, s')
    ensures Told(ids, s', n, a)
    ensures forall x :: Sees(s, n, x) && x != a ==> Sees(s', a, x) || x == n
  {
    hide Step, Connected;
    var i;
    mid, i := AnnouncesItself(ids, s, n, a);
    s' := Arrives(ids, mid, i);
    var ann := mid.flight[i].msg.announce;
    TellTeaches(ids, s.nodes[a].peers, n, a, s.nodes[n].peers.Keys, ann.version, mid.clock[a]);
    assert Learns(ids, s, s') by {
      forall x, y | Told(ids, s, x, y) ensures Told(ids, s', x, y) {}
    }
    StaysConnected(ids, s, s');
  }

  lemma TellTeaches(ids: Cluster, peers: PeerTable, n: Addr, a: Addr, addrs: set<Addr>, v: Version, now: nat)
    requires ClusterOk(ids) && n in ids && a in ids && n != a
    ensures var peers' := Announced(peers, a, AnnouncementOf(ids[n], addrs, v), now);
      && n in peers' && peers'[n].capabilities == ids[n].capabilities
      && peers'[n].recipes == RecipeNames(ids[n].recipes)
      && peers.Keys <= peers'.Keys
      && (forall x :: x in peers && x != n ==> peers'[x] == peers[x])
      && (forall x :: x in addrs && x != a && x != n ==> x in peers')
  {
    var ann := AnnouncementOf(ids[n], addrs, v);
    var peers' := Announced(peers, a, ann, now);
    var entry := PeerInfo(ann.capabilities, ann.recipes, ann.version, now, EntryOf(peers, n).rtt);
    forall x | x in peers' ensures peers'[x] == if x == n then entry else EntryOf(peers, x) {
      AnnouncedEntry(peers, a, ann, now, x);
    }
  }

  lemma StaysConnected(ids: Cluster, s: Net, s': Net)
    requires Connected(ids, s) && Learns(ids, s, s')
    ensures Connected(ids, s')
  {
    forall group: set<Addr> | group != {} && group < ids.Keys ensures exists n, a :: Crosses(ids, s', group, n, a) {
      var n, a :| Crosses(ids, s, group, n, a);
      assert Crosses(ids, s', group, n, a);
    }
  }

  // ── When nobody can tell anybody anything new ─────────────────────────────────

  /** Telling `a` would teach it something: the truth about `n`, or an address. */
  predicate Useful(ids: Cluster, s: Net, n: Addr, a: Addr) {
    && n in ids && a in ids && n != a && Sees(s, n, a)
    && (!Told(ids, s, n, a) || exists x :: x in ids && News(s, n, a, x))
  }

  predicate News(s: Net, n: Addr, a: Addr, x: Addr) {
    n in s.nodes && a in s.nodes && x in s.nodes[n].peers && x != a && x != n && x !in s.nodes[a].peers
  }

  /** Then seeing is mutual and goes on from node to node, so each node sees all. */
  lemma NothingNewMeansAll(ids: Cluster, s: Net)
    requires Joined(ids, s) && forall n, a :: !Useful(ids, s, n, a)
    ensures AllTold(ids, s)
  {
    forall n, a | n in ids && a in ids && n != a ensures Told(ids, s, n, a) {
      SeesEveryone(ids, s, n);
      assert Sees(s, n, a) && !Useful(ids, s, n, a);
    }
  }

  lemma SeesEveryone(ids: Cluster, s: Net, n: Addr)
    requires Joined(ids, s) && n in ids && forall n, a :: !Useful(ids, s, n, a)
    ensures forall a :: a in ids && a != n ==> Sees(s, n, a)
  {
    var group := set m | m in ids && (m == n || Sees(s, n, m));
    if group != ids.Keys {
      assert n in group && group < ids.Keys;
      var u, v :| Crosses(ids, s, group, u, v);
      if u in group { NoWayOut(ids, s, n, u, v); } else { NoWayOut(ids, s, n, v, u); }
    }
  }

  /** Two nodes of which one sees the other are both seen by `n`, or neither. */
  lemma NoWayOut(ids: Cluster, s: Net, n: Addr, u: Addr, v: Addr)
    requires Joined(ids, s) && n in ids && u in ids && v in ids && u != v
    requires forall n, a :: !Useful(ids, s, n, a)
    requires (Sees(s, u, v) || Sees(s, v, u)) && (u == n || Sees(s, n, u))
    ensures v == n || Sees(s, n, v)
  {
    assert !Useful(ids, s, u, v) && !Useful(ids, s, v, u);
    assert Sees(s, u, v);
    if u != n && v != n {
      assert !Useful(ids, s, n, u) && !Useful(ids, s, u, n);
      assert Sees(s, u, n) && !News(s, u, n, v);
    }
  }

  // ── Until then ────────────────────────────────────────────────────────────────

  function Unseen(ids: Cluster, s: Net): set<(Addr, Addr)> {
    set n, a | n in ids && a in ids && !Sees(s, n, a) :: (n, a)
  }

  function Untold(ids: Cluster, s: Net): set<(Addr, Addr)> {
    set n, a | n in ids && a in ids && !Told(ids, s, n, a) :: (n, a)
  }

  lemma LessToLearn(ids: Cluster, s: Net, s': Net, n: Addr, a: Addr)
    requires s.nodes.Keys == ids.Keys && Useful(ids, s, n, a) && Learns(ids, s, s') && Told(ids, s', n, a)
    requires forall x :: Sees(s, n, x) && x != a ==> Sees(s', a, x) || x == n
    ensures |Unseen(ids, s')| + |Untold(ids, s')| < |Unseen(ids, s)| + |Untold(ids, s)|
  {
    assert Unseen(ids, s') <= Unseen(ids, s) && Untold(ids, s') <= Untold(ids, s);
    SubsetSmaller(Unseen(ids, s'), Unseen(ids, s));
    SubsetSmaller(Untold(ids, s'), Untold(ids, s));
    if !Told(ids, s, n, a) {
      SubsetSmaller(Untold(ids, s'), Untold(ids, s) - {(n, a)});
    } else {
      var x :| x in ids && News(s, n, a, x);
      assert (a, x) in Unseen(ids, s) && (a, x) !in Unseen(ids, s');
      SubsetSmaller(Unseen(ids, s'), Unseen(ids, s) - {(a, x)});
    }
  }

  /** A run of gossip from one state to another. */
  ghost predicate IsPath(ids: Cluster, path: seq<Net>, s: Net, s': Net) {
    && path != [] && path[0] == s && path[|path| - 1] == s'
    && forall i :: 0 <= i < |path| - 1 ==> Step(ids, path[i], path[i + 1])
  }

  /** From every state in which no group of nodes is cut off there is a run of gossip after which
      every node knows the capabilities and the recipes of every other. */
  lemma {:induction false} GossipConverges(ids: Cluster, s: Net) returns (path: seq<Net>, s': Net)
    requires Joined(ids, s)
    ensures IsPath(ids, path, s, s') && AllTold(ids, s')
    decreases |Unseen(ids, s)| + |Untold(ids, s)|
  {
    hide Step, Joined, Learns;
    if n, a :| Useful(ids, s, n, a) {
      var mid, next;
      JoinedHas(ids, s);
      mid, next := Tell(ids, s, n, a);
      LessToLearn(ids, s, next, n, a);
      var rest;
      rest, s' := GossipConverges(ids, next);
      path := [s, mid] + rest;
      forall i | 0 <= i < |path| - 1 ensures Step(ids, path[i], path[i + 1]) {
        if i >= 2 { assert path[i] == rest[i - 2] && path[i + 1] == rest[i - 1]; }
      }
    } else {
      path, s' := [s], s;
      NothingNewMeansAll(ids, s);
    }
  }

  lemma JoinedHas(ids: Cluster, s: Net)
    requires Joined(ids, s)
    ensures s.nodes.Keys == ids.Keys
  {}
}
