/** All the nodes and the datagrams between them. UDP may lose, duplicate and reorder; nodes
    never restart and send from the address in their identity. */
module GossipNetwork {
  import opened Text
  import opened Gossip

  datatype Datagram = Datagram(from: Addr, to: Addr, msg: UdpMessage)

  /** `pings` remembers every ping sent: by whom, to whom, and when by the sender's clock. */
  datatype Net = Net(nodes: map<Addr, GossipState>, flight: seq<Datagram>,
                     clock: map<Addr, nat>, pings: set<(Addr, Addr, nat)>)

  // ── Steps ─────────────────────────────────────────────────────────────────────

  function Without<T>(xs: seq<T>, i: nat): seq<T>
    requires i < |xs|
  {
    xs[..i] + xs[i + 1..]
  }

  function Datagrams(from: Addr, sends: seq<(Addr, UdpMessage)>): seq<Datagram> {
    seq(|sends|, i requires 0 <= i < |sends| => Datagram(from, sends[i].0, sends[i].1))
  }

  ghost predicate Init(ids: Cluster, s: Net) {
    && s.nodes.Keys == ids.Keys == s.clock.Keys
    && (forall n :: n in s.nodes ==> forall p :: p in s.nodes[n].peers ==> s.nodes[n].peers[p] == UNKNOWN)
    && s.flight == [] && s.pings == {}
  }

  /** Time passes on node `n` only forwards, and fits a `u64`. */
  predicate Ticks(s: Net, n: Addr, now: nat) {
    n in s.clock && s.clock[n] <= now <= U64_MAX
  }

  /** Node `flight[i].to` reads datagram `i`, updates its table and sends what that calls for. */
  ghost predicate Deliver(ids: Cluster, s: Net, s': Net, i: nat, now: nat, sends: seq<(Addr, UdpMessage)>) {
    && i < |s.flight|
    && var d := s.flight[i];
    && d.to in s.nodes && d.to in ids && Ticks(s, d.to, now)
    && var (g', reply) := Handle(ids[d.to], s.nodes[d.to], d.from, d.msg, now);
    && SendsOf(ids[d.to], g', d.from, d.msg, reply, sends)
    && s' == Net(s.nodes[d.to := g'], Without(s.flight, i) + Datagrams(d.to, sends), s.clock[d.to := now], s.pings)
  }

  predicate Lose(s: Net, s': Net, i: nat) {
    i < |s.flight| && s' == s.(flight := Without(s.flight, i))
  }

  predicate Duplicate(s: Net, s': Net, i: nat) {
    i < |s.flight| && s' == s.(flight := s.flight + [s.flight[i]])
  }

  predicate Evict(s: Net, s': Net, n: Addr, now: nat) {
    && n in s.nodes && Ticks(s, n, now)
    && s' == s.(nodes := s.nodes[n := s.nodes[n].(peers := Evicted(s.nodes[n].peers, n, now))],
                clock := s.clock[n := now])
  }

  /** The start-up announcement and the one of every heartbeat. */
  ghost predicate AnnounceAll(ids: Cluster, s: Net, s': Net, n: Addr, order: seq<Addr>) {
    && n in s.nodes && n in ids
    && IsOrderOf(order, s.nodes[n].peers.Keys - {n})
    && var (g', msg) := BuildAnnounce(ids[n], s.nodes[n]);
    && s' == s.(nodes := s.nodes[n := g'], flight := s.flight + Datagrams(n, ToEach(order, msg)))
  }

  ghost predicate PingAll(s: Net, s': Net, n: Addr, order: seq<Addr>, now: nat) {
    && n in s.nodes && Ticks(s, n, now)
    && IsOrderOf(order, s.nodes[n].peers.Keys - {n})
    && var msg := Ping(Check(EncodeLastSeen(now), s.nodes[n].version));
    && s' == Net(s.nodes, s.flight + Datagrams(n, ToEach(order, msg)), s.clock[n := now],
                 s.pings + set a | a in order :: (n, a, now))
  }

  /** Datagrams arriving or getting lost: what goes on between heartbeats. */
  ghost predicate QuietStep(ids: Cluster, s: Net, s': Net) {
    || (exists i, now, sends :: Deliver(ids, s, s', i, now, sends))
    || (exists i :: Lose(s, s', i))
  }

  ghost predicate Step(ids: Cluster, s: Net, s': Net) {
    || QuietStep(ids, s, s')
    || (exists i :: Duplicate(s, s', i))
    || (exists n, now :: Evict(s, s', n, now))
    || (exists n, order :: AnnounceAll(ids, s, s', n, order))
    || (exists n, order, now :: PingAll(s, s', n, order, now))
  }

  ghost predicate IsRun(ids: Cluster, run: seq<Net>) {
    run != [] && Init(ids, run[0]) && forall i :: 0 <= i < |run| - 1 ==> Step(ids, run[i], run[i + 1])
  }

  // ── What every reachable state satisfies ──────────────────────────────────────

  /** The version a node has now; an address without a node never had any. */
  function Current(s: Net, p: Addr): Version {
    if p in s.nodes then s.nodes[p].version else Version(0, 0)
  }

  ghost predicate EntryTimely(s: Net, n: Addr, p: Addr, info: PeerInfo) {
    && !IsNewer(info.version, Current(s, p))
    && (info.rtt.Some? ==> RttExplained(s, n, p, info.rtt.value))
  }

  /** The round-trip time leads from the send time of a ping that was sent to a receipt time
      that has passed. */
  ghost predicate RttExplained(s: Net, n: Addr, p: Addr, rtt: nat) {
    n in s.clock && exists sent: nat :: (n, p, sent) in s.pings && sent + rtt <= s.clock[n]
  }

  ghost predicate TablesOk(ids: Cluster, s: Net) {
    forall n, p :: n in s.nodes && p in s.nodes[n].peers ==>
      EntryTrue(ids, p, s.nodes[n].peers[p]) && EntryTimely(s, n, p, s.nodes[n].peers[p])
  }

  ghost predicate DatagramOk(ids: Cluster, s: Net, d: Datagram) {
    && d.from in ids
    && match d.msg
       case Announce(ann) =>
         && ann.nodeAddr in ids
         && ann.capabilities == ids[ann.nodeAddr].capabilities
         && ann.recipes == RecipeNames(ids[ann.nodeAddr].recipes)
         && !IsNewer(ann.version, Current(s, ann.nodeAddr))
       case Ping(check) =>
         !IsNewer(check.version, Current(s, d.from)) && Stamped(s, d.from, d.to, check.lastSeen)
       case Pong(check) =>
         !IsNewer(check.version, Current(s, d.from)) && Stamped(s, d.to, d.from, check.lastSeen)
  }

  /** The timestamp is that of a ping from `n` to `p`. */
  ghost predicate Stamped(s: Net, n: Addr, p: Addr, l: LastSeen) {
    exists sent :: (n, p, sent) in s.pings && l == EncodeLastSeen(sent)
  }

  ghost predicate Ok(ids: Cluster, s: Net) {
    && ClusterOk(ids)
    && s.nodes.Keys == ids.Keys == s.clock.Keys
    && TablesOk(ids, s)
    && (forall i :: 0 <= i < |s.flight| ==> DatagramOk(ids, s, s.flight[i]))
    && (forall t :: t in s.pings ==> t.0 in s.clock && t.2 <= s.clock[t.0] && t.2 <= U64_MAX)
  }

  // ── Nothing that is true now stops being true ─────────────────────────────────

  /** Versions, clocks and the record of pings only move forward. */
  ghost predicate Forward(s: Net, s': Net) {
    && s.nodes.Keys == s'.nodes.Keys && s.clock.Keys == s'.clock.Keys
    && (forall n :: n in s.nodes ==> !IsNewer(s.nodes[n].version, s'.nodes[n].version))
    && (forall n :: n in s.clock ==> s.clock[n] <= s'.clock[n])
    && s.pings <= s'.pings
  }

  lemma TimelyForward(s: Net, s': Net, n: Addr, p: Addr, info: PeerInfo)
    requires Forward(s, s') && EntryTimely(s, n, p, info)
    ensures EntryTimely(s', n, p, info)
  {
    NewerIsStrictTotalOrder(Current(s', p), Current(s, p), info.version);
    if info.rtt.Some? {
      var sent: nat :| (n, p, sent) in s.pings && sent + info.rtt.value <= s.clock[n];
      assert (n, p, sent) in s'.pings;
    }
  }

  lemma DatagramForward(ids: Cluster, s: Net, s': Net, d: Datagram)
    requires Forward(s, s') && DatagramOk(ids, s, d)
    ensures DatagramOk(ids, s', d)
  {
    var a := if d.msg.Announce? then d.msg.announce.nodeAddr else d.from;
    var v := if d.msg.Announce? then d.msg.announce.version else d.msg.check.version;
    NewerIsStrictTotalOrder(Current(s', a), Current(s, a), v);
    if !d.msg.Announce? {
      var n, p := if d.msg.Ping? then d.from else d.to, if d.msg.Ping? then d.to else d.from;
      var sent :| (n, p, sent) in s.pings && d.msg.check.lastSeen == EncodeLastSeen(sent);
      assert (n, p, sent) in s'.pings;
    }
  }

  lemma BumpedForward(v: Version)
    ensures !IsNewer(v, Bumped(v))
  {}

  lemma HandleForward(id: Identity, g: GossipState, from: Addr, msg: UdpMessage, now: nat)
    ensures !IsNewer(g.version, Handle(id, g, from, msg, now).0.version)
  {}

  // ── Preservation ──────────────────────────────────────────────────────────────

  lemma EntryKept(ids: Cluster, s: Net, s': Net, n: Addr, p: Addr)
    requires TablesOk(ids, s) && Forward(s, s') && n in s.nodes
    ensures var was := EntryOf(s.nodes[n].peers, p); EntryTrue(ids, p, was) && EntryTimely(s', n, p, was)
  {
    var was := EntryOf(s.nodes[n].peers, p);
    assert EntryTrue(ids, p, was) && EntryTimely(s, n, p, was);
    TimelyForward(s, s', n, p, was);
  }

  lemma AnnounceKeepsTable(ids: Cluster, s: Net, s': Net, d: Datagram, now: nat)
    requires TablesOk(ids, s) && Forward(s, s') && d.to in s.nodes && d.msg.Announce? && DatagramOk(ids, s', d)
    ensures var peers := Announced(s.nodes[d.to].peers, d.to, d.msg.announce, now);
      forall p :: p in peers ==> EntryTrue(ids, p, peers[p]) && EntryTimely(s', d.to, p, peers[p])
  {
    var peers := Announced(s.nodes[d.to].peers, d.to, d.msg.announce, now);
    forall p | p in peers ensures EntryTrue(ids, p, peers[p]) && EntryTimely(s', d.to, p, peers[p]) {
      EntryKept(ids, s, s', d.to, p);
      AnnouncedEntry(s.nodes[d.to].peers, d.to, d.msg.announce, now, p);
    }
  }

  lemma CheckKeepsTable(ids: Cluster, s: Net, s': Net, n: Addr, from: Addr, check: Check, now: nat, rtt: Option<nat>)
    requires TablesOk(ids, s) && Forward(s, s') && n in s.nodes && !IsNewer(check.version, Current(s', from))
    requires rtt.Some? ==> RttExplained(s', n, from, rtt.value)
    ensures var peers := Checked(s.nodes[n].peers, from, check, now, rtt);
      forall p :: p in peers ==> EntryTrue(ids, p, peers[p]) && EntryTimely(s', n, p, peers[p])
  {
    var peers := Checked(s.nodes[n].peers, from, check, now, rtt);
    forall p | p in peers ensures EntryTrue(ids, p, peers[p]) && EntryTimely(s', n, p, peers[p]) {
      EntryKept(ids, s, s', n, p);
    }
  }

  /** An arriving datagram that is in order leaves every entry of the table in order. */
  lemma HandleKeepsTable(ids: Cluster, s: Net, s': Net, d: Datagram, now: nat)
    requires Ok(ids, s) && DatagramOk(ids, s, d) && d.to in s.nodes && Ticks(s, d.to, now) && Forward(s, s')
    requires s'.clock[d.to] == now
    ensures var g' := Handle(ids[d.to], s.nodes[d.to], d.from, d.msg, now).0;
      forall p :: p in g'.peers ==> EntryTrue(ids, p, g'.peers[p]) && EntryTimely(s', d.to, p, g'.peers[p])
  {
    DatagramForward(ids, s, s', d);
    match d.msg
    case Announce(_) => AnnounceKeepsTable(ids, s, s', d, now);
    case Ping(check) => CheckKeepsTable(ids, s, s', d.to, d.from, check, now, None);
    case Pong(check) =>
      var sent := PongRttExact(s, s', d, now);
      CheckKeepsTable(ids, s, s', d.to, d.from, check, now, RttFromEcho(check.lastSeen, now));
  }

  /** A pong carries the stamp of a ping its receiver sent to its sender, and the recorded
      round-trip time is the receipt time minus exactly that send time. */
  lemma PongRttExact(s: Net, s': Net, d: Datagram, now: nat) returns (sent: nat)
    requires d.msg.Pong? && Stamped(s, d.to, d.from, d.msg.check.lastSeen)
    requires Ticks(s, d.to, now) && Forward(s, s') && s'.clock[d.to] == now
    requires forall t :: t in s.pings ==> t.0 in s.clock && t.2 <= s.clock[t.0] && t.2 <= U64_MAX
    ensures (d.to, d.from, sent) in s.pings && sent <= now
    ensures d.msg.check.lastSeen == EncodeLastSeen(sent)
    ensures RttFromEcho(d.msg.check.lastSeen, now) == Some(now - sent)
    ensures RttExplained(s', d.to, d.from, RttFromEcho(d.msg.check.lastSeen, now).value)
  {
    sent :| (d.to, d.from, sent) in s.pings && d.msg.check.lastSeen == EncodeLastSeen(sent);
    LastSeenRoundTrips(sent);
    assert (d.to, d.from, sent) in s'.pings;
  }

  lemma OwnAnnouncementOk(ids: Cluster, s: Net, n: Addr, to: Addr, addrs: set<Addr>, v: Version)
    requires ClusterOk(ids) && n in ids && n in s.nodes && v == s.nodes[n].version
    ensures DatagramOk(ids, s, Datagram(n, to, Announce(AnnouncementOf(ids[n], addrs, v))))
  {}

  lemma RepliesOk(ids: Cluster, s: Net, s': Net, i: nat, now: nat, sends: seq<(Addr, UdpMessage)>)
    requires Ok(ids, s) && Deliver(ids, s, s', i, now, sends) && Forward(s, s')
    ensures forall k :: 0 <= k < |sends| ==> DatagramOk(ids, s', Datagram(s.flight[i].to, sends[k].0, sends[k].1))
  {
    var d := s.flight[i];
    var n := d.to;
    var (g', reply) := Handle(ids[n], s.nodes[n], d.from, d.msg, now);
    DatagramForward(ids, s, s', d);
    forall k | 0 <= k < |sends| ensures DatagramOk(ids, s', Datagram(n, sends[k].0, sends[k].1)) {
      if k > 0 {
        assert sends[1..][k - 1] == sends[k];
      } else if d.msg.Announce? {
        OwnAnnouncementOk(ids, s', n, d.from, g'.peers.Keys, g'.version);
      }
    }
  }

  lemma DeliverKeepsOk(ids: Cluster, s: Net, s': Net, i: nat, now: nat, sends: seq<(Addr, UdpMessage)>)
    requires Ok(ids, s) && Deliver(ids, s, s', i, now, sends)
    ensures Ok(ids, s') && Forward(s, s')
  {
    var d := s.flight[i];
    HandleForward(ids[d.to], s.nodes[d.to], d.from, d.msg, now);
    HandleKeepsTable(ids, s, s', d, now);
    OthersKeepTables(ids, s, s', d.to);
    RepliesOk(ids, s, s', i, now, sends);
    FlightKept(ids, s, s', Without(s.flight, i), Datagrams(d.to, sends));
  }

  lemma OthersKeepTables(ids: Cluster, s: Net, s': Net, n: Addr)
    requires TablesOk(ids, s) && Forward(s, s') && n in s.nodes
    requires forall m :: m in s.nodes && m != n ==> s'.nodes[m] == s.nodes[m]
    requires forall p :: p in s'.nodes[n].peers ==>
      EntryTrue(ids, p, s'.nodes[n].peers[p]) && EntryTimely(s', n, p, s'.nodes[n].peers[p])
    ensures TablesOk(ids, s')
  {
    forall m, p | m in s'.nodes && p in s'.nodes[m].peers
      ensures EntryTrue(ids, p, s'.nodes[m].peers[p]) && EntryTimely(s', m, p, s'.nodes[m].peers[p])
    {
      if m != n { TimelyForward(s, s', m, p, s.nodes[m].peers[p]); }
    }
  }

  lemma FlightKept(ids: Cluster, s: Net, s': Net, kept: seq<Datagram>, added: seq<Datagram>)
    requires Forward(s, s') && s'.flight == kept + added
    requires forall d :: d in kept ==> DatagramOk(ids, s, d)
    requires forall i :: 0 <= i < |added| ==> DatagramOk(ids, s', added[i])
    ensures forall i :: 0 <= i < |s'.flight| ==> DatagramOk(ids, s', s'.flight[i])
  {
    forall i | 0 <= i < |s'.flight| ensures DatagramOk(ids, s', s'.flight[i]) {
      if i < |kept| {
        assert kept[i] in kept;
        DatagramForward(ids, s, s', kept[i]);
      }
    }
  }

  lemma EvictKeepsOk(ids: Cluster, s: Net, s': Net, n: Addr, now: nat)
    requires Ok(ids, s) && Evict(s, s', n, now)
    ensures Ok(ids, s') && Forward(s, s')
  {
    forall p | p in s'.nodes[n].peers ensures EntryTimely(s', n, p, s'.nodes[n].peers[p]) {
      TimelyForward(s, s', n, p, s.nodes[n].peers[p]);
    }
    OthersKeepTables(ids, s, s', n);
    FlightKept(ids, s, s', s.flight, []);
  }

  lemma AnnounceKeepsOk(ids: Cluster, s: Net, s': Net, n: Addr, order: seq<Addr>)
    requires Ok(ids, s) && AnnounceAll(ids, s, s', n, order)
    ensures Ok(ids, s') && Forward(s, s')
  {
    var (g', msg) := BuildAnnounce(ids[n], s.nodes[n]);
    BumpedForward(s.nodes[n].version);
    forall p | p in s'.nodes[n].peers ensures EntryTimely(s', n, p, s'.nodes[n].peers[p]) {
      TimelyForward(s, s', n, p, s.nodes[n].peers[p]);
    }
    OthersKeepTables(ids, s, s', n);
    var added := Datagrams(n, ToEach(order, msg));
    forall i | 0 <= i < |added| ensures DatagramOk(ids, s', added[i]) {
      OwnAnnouncementOk(ids, s', n, order[i], s.nodes[n].peers.Keys, g'.version);
    }
    FlightKept(ids, s, s', s.flight, added);
  }

  lemma PingKeepsOk(ids: Cluster, s: Net, s': Net, n: Addr, order: seq<Addr>, now: nat)
    requires Ok(ids, s) && PingAll(s, s', n, order, now)
    ensures Ok(ids, s') && Forward(s, s')
  {
    forall p | p in s'.nodes[n].peers ensures EntryTimely(s', n, p, s'.nodes[n].peers[p]) {
      TimelyForward(s, s', n, p, s.nodes[n].peers[p]);
    }
    OthersKeepTables(ids, s, s', n);
    var msg := Ping(Check(EncodeLastSeen(now), s.nodes[n].version));
    var added := Datagrams(n, ToEach(order, msg));
    forall i | 0 <= i < |added| ensures DatagramOk(ids, s', added[i]) {
      assert order[i] in order;
      assert (n, order[i], now) in s'.pings;
    }
    FlightKept(ids, s, s', s.flight, added);
  }

  lemma StepKeepsOk(ids: Cluster, s: Net, s': Net)
    requires Ok(ids, s) && Step(ids, s, s')
    ensures Ok(ids, s') && Forward(s, s')
  {
    if i, now, sends :| Deliver(ids, s, s', i, now, sends) {
      DeliverKeepsOk(ids, s, s', i, now, sends);
    } else if i :| Lose(s, s', i) {
      SameNodesOk(ids, s, s');
    } else if i :| Duplicate(s, s', i) {
      SameNodesOk(ids, s, s');
    } else if n, now :| Evict(s, s', n, now) {
      EvictKeepsOk(ids, s, s', n, now);
    } else if n, order :| AnnounceAll(ids, s, s', n, order) {
      AnnounceKeepsOk(ids, s, s', n, order);
    } else {
      var n, order, now :| PingAll(s, s', n, order, now);
      PingKeepsOk(ids, s, s', n, order, now);
    }
  }

  lemma SameNodesOk(ids: Cluster, s: Net, s': Net)
    requires Ok(ids, s) && s' == s.(flight := s'.flight)
    requires forall d :: d in s'.flight ==> d in s.flight
    ensures Ok(ids, s') && Forward(s, s')
  {
    forall n, p | n in s'.nodes && p in s'.nodes[n].peers ensures EntryTimely(s', n, p, s'.nodes[n].peers[p]) {
      TimelyForward(s, s', n, p, s.nodes[n].peers[p]);
    }
    FlightKept(ids, s, s', s'.flight, []);
  }

  /** In every state of every run: what tables and datagrams say about a node's capabilities
      and recipes is the truth or nothing; no recorded or travelling version is newer than its
      originator's; every round-trip time is explained by a ping. */
  lemma {:induction false} RunOk(ids: Cluster, run: seq<Net>, i: nat)
    requires ClusterOk(ids) && IsRun(ids, run) && i < |run|
    ensures Ok(ids, run[i])
  {
    if i > 0 {
      RunOk(ids, run, i - 1);
      StepKeepsOk(ids, run[i - 1], run[i]);
    }
  }

  lemma RunForward(ids: Cluster, run: seq<Net>, i: nat)
    requires ClusterOk(ids) && IsRun(ids, run) && i + 1 < |run|
    ensures run[i].nodes.Keys == ids.Keys && Forward(run[i], run[i + 1])
  {
    RunOk(ids, run, i);
    StepKeepsOk(ids, run[i], run[i + 1]);
  }

  /** A node's own version never decreases along a run. */
  lemma {:induction false} OwnVersionNeverDecreases(ids: Cluster, run: seq<Net>, i: nat, j: nat, n: Addr)
    requires ClusterOk(ids) && IsRun(ids, run) && i <= j < |run| && n in ids
    ensures n in run[i].nodes && n in run[j].nodes
    ensures !IsNewer(run[i].nodes[n].version, run[j].nodes[n].version)
  {
    hide IsRun;
    RunOk(ids, run, i);
    if i < j {
      OwnVersionNeverDecreases(ids, run, i, j - 1, n);
      RunForward(ids, run, j - 1);
      NewerIsStrictTotalOrder(run[j].nodes[n].version, run[j - 1].nodes[n].version, run[i].nodes[n].version);
    }
  }

  // ── Where a recorded round-trip time comes from ───────────────────────────────

  /** In this step node `n` hears from `p` the pong for a ping it sent at `sent`, which is
      `rtt` ago. */
  ghost predicate PongHeard(ids: Cluster, s: Net, s': Net, n: Addr, p: Addr, rtt: nat) {
    exists i: nat, now: nat, sends, sent: nat ::
      && Deliver(ids, s, s', i, now, sends) && s.flight[i].to == n && s.flight[i].from == p && s.flight[i].msg.Pong?
      && (n, p, sent) in s.pings && s.flight[i].msg.check.lastSeen == EncodeLastSeen(sent)
      && sent <= now && rtt == now - sent
  }

  /** Whenever a pong arrives in a run, its receiver records exactly the time since the ping that
      it answers was sent. */
  lemma PongRecorded(ids: Cluster, run: seq<Net>, j: nat, i: nat, now: nat, sends: seq<(Addr, UdpMessage)>)
    returns (sent: nat)
    requires ClusterOk(ids) && IsRun(ids, run) && j + 1 < |run|
    requires Deliver(ids, run[j], run[j + 1], i, now, sends) && run[j].flight[i].msg.Pong?
    ensures var d := run[j].flight[i];
      && (d.to, d.from, sent) in run[j].pings && sent <= now && d.msg.check.lastSeen == EncodeLastSeen(sent)
      && d.to in run[j + 1].nodes && d.from in run[j + 1].nodes[d.to].peers
      && run[j + 1].nodes[d.to].peers[d.from].rtt == Some(now - sent)
  {
    RunOk(ids, run, j);
    DeliverKeepsOk(ids, run[j], run[j + 1], i, now, sends);
    var d := run[j].flight[i];
    assert DatagramOk(ids, run[j], d);
    sent := PongRttExact(run[j], run[j + 1], d, now);
  }

  /** A step leaves a recorded round-trip time alone, or it is that of a pong heard in it. */
  lemma RttStep(ids: Cluster, s: Net, s': Net, n: Addr, p: Addr, rtt: nat)
    requires Ok(ids, s) && Step(ids, s, s')
    requires n in s'.nodes && p in s'.nodes[n].peers && s'.nodes[n].peers[p].rtt == Some(rtt)
    ensures || PongHeard(ids, s, s', n, p, rtt)
            || (n in s.nodes && p in s.nodes[n].peers && s.nodes[n].peers[p].rtt == Some(rtt))
  {
    hide SendsOf, AnnouncementOf;
    if i: nat, now: nat, sends :| Deliver(ids, s, s', i, now, sends) && s.flight[i].to == n {
      RttDelivered(ids, s, s', i, now, sends, p, rtt);
    } else if i: nat, now: nat, sends :| Deliver(ids, s, s', i, now, sends) {
    } else if i: nat :| Lose(s, s', i) {
    } else if i: nat :| Duplicate(s, s', i) {
    } else if m, now: nat :| Evict(s, s', m, now) {
    } else if m, order :| AnnounceAll(ids, s, s', m, order) {
    } else {
      var m, order, now: nat :| PingAll(s, s', m, order, now);
    }
  }

  lemma RttDelivered(ids: Cluster, s: Net, s': Net, i: nat, now: nat, sends: seq<(Addr, UdpMessage)>, p: Addr, rtt: nat)
    requires Ok(ids, s) && Deliver(ids, s, s', i, now, sends)
    requires var n := s.flight[i].to; p in s'.nodes[n].peers && s'.nodes[n].peers[p].rtt == Some(rtt)
    ensures var n := s.flight[i].to;
      PongHeard(ids, s, s', n, p, rtt) || (p in s.nodes[n].peers && s.nodes[n].peers[p].rtt == Some(rtt))
  {
    hide SendsOf;
    var d := s.flight[i];
    match d.msg
    case Announce(ann) => AnnouncedEntry(s.nodes[d.to].peers, d.to, ann, now, p);
    case Ping(_) =>
    case Pong(_) =>
      if p == d.from {
        DeliverKeepsOk(ids, s, s', i, now, sends);
        assert DatagramOk(ids, s, d);
        var sent := PongRttExact(s, s', d, now);
      }
  }

  /** Every round-trip time in a table of a run was recorded when a pong was heard, and is exactly
      the time since its ping was sent. */
  lemma {:induction false} RttCameFromPong(ids: Cluster, run: seq<Net>, i: nat, n: Addr, p: Addr) returns (j: nat)
    requires ClusterOk(ids) && IsRun(ids, run) && i < |run|
    requires n in run[i].nodes && p in run[i].nodes[n].peers && run[i].nodes[n].peers[p].rtt.Some?
    ensures j < i && PongHeard(ids, run[j], run[j + 1], n, p, run[i].nodes[n].peers[p].rtt.value)
  {
    hide Step, PongHeard, Ok;
    var rtt := run[i].nodes[n].peers[p].rtt.value;
    assert i > 0;
    RunOk(ids, run, i - 1);
    RttStep(ids, run[i - 1], run[i], n, p, rtt);
    if PongHeard(ids, run[i - 1], run[i], n, p, rtt) {
      j := i - 1;
    } else {
      j := RttCameFromPong(ids, run, i - 1, n, p);
    }
  }
}
