/** Flooding ends: over a finite set of addresses, a run in which datagrams only arrive or get
    lost has a bounded number of steps. */
module GossipFlooding {
  import opened Text
  import opened Gossip
  import opened GossipNetwork

  /** Every address anywhere in the state is one of `all`. */
  ghost predicate InUniverse(ids: Cluster, s: Net, all: set<Addr>) {
    && ClusterOk(ids) && s.nodes.Keys == ids.Keys <= all
    && (forall n :: n in s.nodes ==> s.nodes[n].peers.Keys <= all)
    && (forall i :: 0 <= i < |s.flight| ==> DatagramIn(s.flight[i], all))
  }

  predicate DatagramIn(d: Datagram, all: set<Addr>) {
    && d.from in all
    && (d.msg.Announce? ==> d.msg.announce.nodeAddr in all && forall a :: a in d.msg.announce.peers ==> a in all)
  }

  // ── The measure ───────────────────────────────────────────────────────────────

  /** Who does not know whom. */
  function Missing(s: Net, all: set<Addr>): set<(Addr, Addr)> {
    set n, a | n in s.nodes && a in all && a !in s.nodes[n].peers :: (n, a)
  }

  /** A ping still brings a pong; nothing else in flight brings a message of its own. */
  function WeightOf(d: Datagram): nat {
    if d.msg.Ping? then 2 else 1
  }

  function Weight(flight: seq<Datagram>): nat {
    if flight == [] then 0 else WeightOf(flight[0]) + Weight(flight[1..])
  }

  function Measure(s: Net, all: set<Addr>): nat {
    |Missing(s, all)| * (|all| + 1) + Weight(s.flight)
  }

  lemma {:induction false} WeightConcat(a: seq<Datagram>, b: seq<Datagram>)
    ensures Weight(a + b) == Weight(a) + Weight(b)
  {
    if a == [] {
      assert a + b == b;
    } else {
      assert (a + b)[1..] == a[1..] + b;
      WeightConcat(a[1..], b);
    }
  }

  lemma WeightWithout(flight: seq<Datagram>, i: nat)
    requires i < |flight|
    ensures Weight(Without(flight, i)) == Weight(flight) - WeightOf(flight[i])
  {
    WeightConcat(flight[..i], flight[i + 1..]);
    WeightConcat(flight[..i], flight[i..]);
    assert flight == flight[..i] + flight[i..];
    assert flight[i..][1..] == flight[i + 1..];
  }

  lemma {:induction false} WeightOfPlain(flight: seq<Datagram>)
    requires forall i :: 0 <= i < |flight| ==> !flight[i].msg.Ping?
    ensures Weight(flight) == |flight|
  {
    if flight != [] { WeightOfPlain(flight[1..]); }
  }

  // ── One delivery ──────────────────────────────────────────────────────────────

  lemma HandleStaysIn(id: Identity, g: GossipState, d: Datagram, now: nat, all: set<Addr>)
    requires g.peers.Keys <= all && DatagramIn(d, all)
    ensures var g' := Handle(id, g, d.from, d.msg, now).0; g.peers.Keys <= g'.peers.Keys <= all
  {}

  lemma SendsStayIn(id: Identity, g: GossipState, d: Datagram, now: nat, all: set<Addr>, sends: seq<(Addr, UdpMessage)>)
    requires g.peers.Keys <= all && DatagramIn(d, all) && id.addr in all
    requires var (g', reply) := Handle(id, g, d.from, d.msg, now); SendsOf(id, g', d.from, d.msg, reply, sends)
    ensures forall k :: 0 <= k < |sends| ==> DatagramIn(Datagram(id.addr, sends[k].0, sends[k].1), all)
  {
    HandleStaysIn(id, g, d, now, all);
    forall k | 0 <= k < |sends| ensures DatagramIn(Datagram(id.addr, sends[k].0, sends[k].1), all) {
      if k > 0 { assert sends[1..][k - 1] == sends[k]; }
    }
  }

  /** No delivery sends a ping: replies are announcements or pongs, relays are announcements. */
  lemma NoPingSent(id: Identity, g: GossipState, d: Datagram, now: nat, sends: seq<(Addr, UdpMessage)>)
    requires var (g', reply) := Handle(id, g, d.from, d.msg, now); SendsOf(id, g', d.from, d.msg, reply, sends)
    ensures forall i :: 0 <= i < |sends| ==> !sends[i].1.Ping?
  {
    hide Announced, Checked, RelayTargets, IsOrderOf, AnnouncementOf;
    forall i | 0 <= i < |sends| ensures !sends[i].1.Ping? {
      if i > 0 { assert sends[1..][i - 1] == sends[i]; }
    }
  }

  /** One relay for every known address but the node's own and the sender's. */
  lemma RelaysBounded(id: Identity, peers: PeerTable, from: Addr, msg: UdpMessage, all: set<Addr>,
                      reply: UdpMessage, g: GossipState, sends: seq<(Addr, UdpMessage)>)
    requires msg.Announce? && g.peers == peers && peers.Keys <= all && id.addr in all
    requires SendsOf(id, g, from, msg, Some(reply), sends)
    ensures |sends| <= |all|
  {
    hide Handle, IsOrderOf;
    var targets := RelayTargets(peers, id.addr, from);
    var order :| IsOrderOf(order, targets) && sends[1..] == ToEach(order, msg);
    OrderLength(order, targets);
    assert targets <= all - {id.addr};
    SubsetSmaller(targets, all - {id.addr});
  }

  /** The weight of what one delivery sends: a pong for a ping, at most one message per known
      address for an announcement that made the table grow, nothing otherwise. */
  lemma SendsWeight(id: Identity, g: GossipState, d: Datagram, now: nat, all: set<Addr>, sends: seq<(Addr, UdpMessage)>)
    requires g.peers.Keys <= all && DatagramIn(d, all) && id.addr in all
    requires var (g', reply) := Handle(id, g, d.from, d.msg, now); SendsOf(id, g', d.from, d.msg, reply, sends)
    ensures var g' := Handle(id, g, d.from, d.msg, now).0;
      Weight(Datagrams(id.addr, sends)) <=
        if d.msg.Ping? then 1 else if g.peers.Keys < g'.peers.Keys then |all| else 0
  {
    hide Announced, Checked, RelayTargets, AnnouncementOf, Weight, DatagramIn, IsOrderOf;
    var (g', reply) := Handle(id, g, d.from, d.msg, now);
    HandleStaysIn(id, g, d, now, all);
    NoPingSent(id, g, d, now, sends);
    WeightOfPlain(Datagrams(id.addr, sends));
    if d.msg.Announce? && reply.Some? {
      RelaysBounded(id, g'.peers, d.from, d.msg, all, reply.value, g', sends);
    }
  }

  lemma MissingShrinks(s: Net, s': Net, all: set<Addr>, n: Addr)
    requires n in s.nodes && s'.nodes.Keys == s.nodes.Keys
    requires forall m :: m in s.nodes && m != n ==> s'.nodes[m] == s.nodes[m]
    requires s.nodes[n].peers.Keys <= s'.nodes[n].peers.Keys <= all
    ensures |Missing(s', all)| <= |Missing(s, all)|
    ensures s.nodes[n].peers.Keys < s'.nodes[n].peers.Keys ==> |Missing(s', all)| < |Missing(s, all)|
  {
    assert Missing(s', all) <= Missing(s, all);
    SubsetSmaller(Missing(s', all), Missing(s, all));
    if s.nodes[n].peers.Keys < s'.nodes[n].peers.Keys {
      var a :| a in s'.nodes[n].peers.Keys && a !in s.nodes[n].peers.Keys;
      assert (n, a) in Missing(s, all) && (n, a) !in Missing(s', all);
      SubsetSmaller(Missing(s', all), Missing(s, all) - {(n, a)});
    }
  }

  lemma MulStep(m': nat, m: nat, k: nat)
    ensures m' <= m ==> m' * k <= m * k
    ensures m' < m ==> m' * k + k <= m * k
  {
    if m' < m {
      assert (m' + 1) * k <= m * k;
      assert (m' + 1) * k == m' * k + k;
    }
  }

  lemma MeasureDrops(m: nat, m': nat, size: nat, w: nat, w': nat)
    requires m' <= m && (w' < w || (m' < m && w' < w + size))
    ensures m' * (size + 1) + w' < m * (size + 1) + w
  {
    var k := size + 1;
    MulStep(m', m, k);
  }

  lemma DeliverStaysIn(ids: Cluster, s: Net, s': Net, all: set<Addr>, i: nat, now: nat, sends: seq<(Addr, UdpMessage)>)
    requires InUniverse(ids, s, all) && Deliver(ids, s, s', i, now, sends)
    ensures InUniverse(ids, s', all)
  {
    hide Handle, SendsOf;
    var d := s.flight[i];
    HandleStaysIn(ids[d.to], s.nodes[d.to], d, now, all);
    SendsStayIn(ids[d.to], s.nodes[d.to], d, now, all, sends);
  }

  lemma DeliverShrinks(ids: Cluster, s: Net, s': Net, all: set<Addr>, i: nat, now: nat, sends: seq<(Addr, UdpMessage)>)
    requires InUniverse(ids, s, all) && Deliver(ids, s, s', i, now, sends)
    ensures InUniverse(ids, s', all) && Measure(s', all) < Measure(s, all)
  {
    hide Handle, SendsOf, Missing, Weight;
    var d := s.flight[i];
    DeliverStaysIn(ids, s, s', all, i, now, sends);
    HandleStaysIn(ids[d.to], s.nodes[d.to], d, now, all);
    SendsWeight(ids[d.to], s.nodes[d.to], d, now, all, sends);
    MissingShrinks(s, s', all, d.to);
    WeightWithout(s.flight, i);
    WeightConcat(Without(s.flight, i), Datagrams(d.to, sends));
    MeasureDrops(|Missing(s, all)|, |Missing(s', all)|, |all|, Weight(s.flight), Weight(s'.flight));
  }

  lemma LoseShrinks(ids: Cluster, s: Net, s': Net, all: set<Addr>, i: nat)
    requires InUniverse(ids, s, all) && Lose(s, s', i)
    ensures InUniverse(ids, s', all) && Measure(s', all) < Measure(s, all)
  {
    WeightWithout(s.flight, i);
    assert Missing(s', all) == Missing(s, all);
  }

  /** A run of deliveries and losses from a state whose addresses are all in a finite set has
      at most `Measure` steps, whatever order they come in. */
  lemma {:induction false} FloodingEnds(ids: Cluster, run: seq<Net>, all: set<Addr>)
    requires run != [] && InUniverse(ids, run[0], all)
    requires forall i :: 0 <= i < |run| - 1 ==> QuietStep(ids, run[i], run[i + 1])
    ensures |run| - 1 <= Measure(run[0], all)
  {
    if |run| > 1 {
      var s, s' := run[0], run[1];
      assert QuietStep(ids, run[0], run[0 + 1]);
      if i, now, sends :| Deliver(ids, s, s', i, now, sends) {
        DeliverShrinks(ids, s, s', all, i, now, sends);
      } else {
        var i :| Lose(s, s', i);
        LoseShrinks(ids, s, s', all, i);
      }
      FloodingEnds(ids, run[1..], all);
    }
  }
}
