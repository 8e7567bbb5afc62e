/** What the state of gossip says about the past: when a peer was last heard, who is evicted for
    its silence, how many announcements a node has made, and what each of them set going. */
module GossipHistory {
  import opened Text
  import opened StringOrder
  import opened Gossip
  import opened GossipNetwork

  // ── What one datagram teaches ─────────────────────────────────────────────────

  /** An announcement replaces what was known about its node, and keeps the measured time. Of the
      addresses it lists, those that are new and not the reader's own are entered as unknown. */
  lemma AnnouncementLearnt(id: Identity, g: GossipState, from: Addr, ann: Announcement, now: nat)
    ensures var peers := Handle(id, g, from, Announce(ann), now).0.peers;
      && ann.nodeAddr in peers
      && peers[ann.nodeAddr].capabilities == ann.capabilities && peers[ann.nodeAddr].recipes == ann.recipes
      && peers[ann.nodeAddr].version == ann.version && peers[ann.nodeAddr].lastSeen == now
      && peers[ann.nodeAddr].rtt == (if ann.nodeAddr in g.peers then g.peers[ann.nodeAddr].rtt else None)
      && (forall p :: p in peers <==> p in g.peers || p == ann.nodeAddr || (p in ann.peers && p != id.addr))
      && (forall p :: p in peers && p != ann.nodeAddr ==> peers[p] == if p in g.peers then g.peers[p] else UNKNOWN)
  {}

  /** A ping or a pong keeps what its sender announced, and the newer of the two versions. */
  lemma CheckLearnt(id: Identity, g: GossipState, from: Addr, msg: UdpMessage, now: nat)
    requires !msg.Announce?
    ensures var peers, was := Handle(id, g, from, msg, now).0.peers, EntryOf(g.peers, from);
      && from in peers
      && peers[from].capabilities == was.capabilities && peers[from].recipes == was.recipes
      && peers[from].version in {was.version, msg.check.version}
      && !IsNewer(was.version, peers[from].version) && !IsNewer(msg.check.version, peers[from].version)
      && peers[from].lastSeen == now && (msg.Ping? ==> peers[from].rtt == was.rtt)
      && (forall p :: p in peers <==> p in g.peers || p == from)
      && (forall p :: p in g.peers && p != from ==> peers[p] == g.peers[p])
  {}

  /** A later life of a node has a larger generation: its first ping or pong replaces what was
      recorded of an earlier one, however often that had counted, and is never replaced by it.
      In the same life the larger counter wins. */
  lemma LaterLifeWins(id: Identity, g: GossipState, from: Addr, msg: UdpMessage, now: nat)
    requires !msg.Announce? && from in g.peers
    ensures var was, said, kept := g.peers[from].version, msg.check.version, EntryAfter(id, g, from, msg, now).version;
      && (said.generation > was.generation ==> kept == said)
      && (said.generation < was.generation ==> kept == was)
      && (said.generation == was.generation ==>
            && kept.generation == was.generation
            && kept.counter == if said.counter > was.counter then said.counter else was.counter)
  {
    CheckLearnt(id, g, from, msg, now);
  }

  function EntryAfter(id: Identity, g: GossipState, from: Addr, msg: UdpMessage, now: nat): PeerInfo {
    EntryOf(Handle(id, g, from, msg, now).0.peers, from)
  }

  // ── When a peer was last heard ────────────────────────────────────────────────

  /** Whose sign of life a datagram is. */
  function Speaker(d: Datagram): Addr {
    if d.msg.Announce? then d.msg.announce.nodeAddr else d.from
  }

  /** In this step node `n` handles an announcement of `p`, or a ping or pong from `p`. */
  ghost predicate Hears(ids: Cluster, s: Net, s': Net, n: Addr, p: Addr) {
    exists i: nat, now: nat, sends ::
      Deliver(ids, s, s', i, now, sends) && s.flight[i].to == n && Speaker(s.flight[i]) == p
  }

  /** The time on `n`'s clock when it last heard `p`; none if it has not since `p` is in its table. */
  ghost function LastHeard(ids: Cluster, run: seq<Net>, i: nat, n: Addr, p: Addr): Option<nat>
    requires i < |run|
  {
    if i == 0 then None
    else if Hears(ids, run[i - 1], run[i], n, p) && n in run[i].clock then Some(run[i].clock[n])
    else if n !in run[i].nodes || p !in run[i].nodes[n].peers then None
    else LastHeard(ids, run, i - 1, n, p)
  }

  lemma HearingIsRecorded(ids: Cluster, s: Net, s': Net, n: Addr, p: Addr)
    requires Ok(ids, s) && Hears(ids, s, s', n, p)
    ensures n in s'.clock && n in s'.nodes && p in s'.nodes[n].peers
    ensures s'.nodes[n].peers[p].lastSeen == s'.clock[n]
  {
    hide SendsOf, AnnouncementOf, SortedSeq;
    var i: nat, now: nat, sends :|
      Deliver(ids, s, s', i, now, sends) && s.flight[i].to == n && Speaker(s.flight[i]) == p;
  }

  /** A step in which `n` does not hear `p` keeps the time, or has just entered or removed `p`. */
  lemma SilenceKeeps(ids: Cluster, s: Net, s': Net, n: Addr, p: Addr)
    requires Ok(ids, s) && Step(ids, s, s') && !Hears(ids, s, s', n, p)
    requires n in s'.nodes && p in s'.nodes[n].peers
    ensures n in s.nodes
    ensures s'.nodes[n].peers[p].lastSeen == if p in s.nodes[n].peers then s.nodes[n].peers[p].lastSeen else 0
  {
    hide SendsOf, AnnouncementOf, SortedSeq;
    if i: nat, now: nat, sends :| Deliver(ids, s, s', i, now, sends) {
      var d := s.flight[i];
      if d.to == n && d.msg.Announce? { AnnouncedEntry(s.nodes[d.to].peers, d.to, d.msg.announce, now, p); }
    } else if i: nat :| Lose(s, s', i) {
    } else if i: nat :| Duplicate(s, s', i) {
    } else if m, now: nat :| Evict(s, s', m, now) {
    } else if m, order :| AnnounceAll(ids, s, s', m, order) {
    } else {
      var m, order, now: nat :| PingAll(s, s', m, order, now);
    }
  }

  /** In every state of every run the recorded time is when the peer was last heard, or 0. */
  lemma {:induction false} LastSeenIsLastHeard(ids: Cluster, run: seq<Net>, i: nat, n: Addr, p: Addr)
    requires ClusterOk(ids) && IsRun(ids, run) && i < |run| && n in ids
    ensures n in run[i].nodes
    ensures LastHeard(ids, run, i, n, p).Some? ==> p in run[i].nodes[n].peers
    ensures p in run[i].nodes[n].peers ==>
      run[i].nodes[n].peers[p].lastSeen == match LastHeard(ids, run, i, n, p) case None => 0 case Some(t) => t
  {
    hide Step, Hears, Deliver;
    RunOk(ids, run, i);
    if i > 0 {
      RunOk(ids, run, i - 1);
      LastSeenIsLastHeard(ids, run, i - 1, n, p);
      if Hears(ids, run[i - 1], run[i], n, p) {
        HearingIsRecorded(ids, run[i - 1], run[i], n, p);
      } else if p in run[i].nodes[n].peers {
        SilenceKeeps(ids, run[i - 1], run[i], n, p);
      }
    }
  }

  /** Eviction removes exactly the other peers that were heard, and last heard more than ten
      seconds ago; it touches nothing else. A peer heard when the clock read 0 counts as unheard. */
  lemma EvictsTheSilent(ids: Cluster, run: seq<Net>, i: nat, s': Net, n: Addr, now: nat, p: Addr)
    requires ClusterOk(ids) && IsRun(ids, run) && i < |run| && n in ids && Evict(run[i], s', n, now)
    ensures n in run[i].nodes && n in s'.nodes
    ensures var heard := LastHeard(ids, run, i, n, p);
      p in s'.nodes[n].peers <==>
        && p in run[i].nodes[n].peers
        && !(p != n && heard.Some? && heard.value > 0 && now - heard.value > 10_000_000)
    ensures p in s'.nodes[n].peers ==> s'.nodes[n].peers[p] == run[i].nodes[n].peers[p]
  {
    hide IsRun;
    LastSeenIsLastHeard(ids, run, i, n, p);
  }

  // ── How many announcements a node has made ────────────────────────────────────

  /** In this step node `n` makes the announcement `ann`: at start-up, for a heartbeat, or as
      the answer to another. */
  ghost predicate Makes(ids: Cluster, s: Net, s': Net, n: Addr, ann: Announcement) {
    || (exists order :: AnnounceAll(ids, s, s', n, order) && BuildAnnounce(ids[n], s.nodes[n]).1 == Announce(ann))
    || (exists i: nat, now: nat, sends :: Answers(ids, s, s', i, now, sends, n, ann))
  }

  ghost predicate Answers(ids: Cluster, s: Net, s': Net, i: nat, now: nat, sends: seq<(Addr, UdpMessage)>,
                          n: Addr, ann: Announcement) {
    && Deliver(ids, s, s', i, now, sends) && s.flight[i].to == n
    && Handle(ids[n], s.nodes[n], s.flight[i].from, s.flight[i].msg, now).1 == Some(Announce(ann))
  }

  ghost predicate MakesOne(ids: Cluster, s: Net, s': Net, n: Addr) {
    exists ann :: Makes(ids, s, s', n, ann)
  }

  ghost function Made(ids: Cluster, run: seq<Net>, i: nat, n: Addr): nat
    requires i < |run|
  {
    if i == 0 then 0
    else Made(ids, run, i - 1, n) + if MakesOne(ids, run[i - 1], run[i], n) then 1 else 0
  }

  /** One more, unless the counter is at the largest 64-bit number. */
  predicate CountedUp(v: Version, v': Version) {
    && v'.generation == v.generation
    && v'.counter == if v.counter < 0xFFFF_FFFF_FFFF_FFFF then v.counter + 1 else v.counter
  }

  lemma MakingCounts(ids: Cluster, s: Net, s': Net, n: Addr, ann: Announcement)
    requires ClusterOk(ids) && Makes(ids, s, s', n, ann)
    ensures n in s.nodes && n in s'.nodes && CountedUp(s.nodes[n].version, s'.nodes[n].version)
    ensures ann.nodeAddr == n && ann.version == s'.nodes[n].version
  {
    hide SendsOf, SortedSeq;
    if order :| AnnounceAll(ids, s, s', n, order) && BuildAnnounce(ids[n], s.nodes[n]).1 == Announce(ann) {
    } else {
      var i: nat, now: nat, sends :| Answers(ids, s, s', i, now, sends, n, ann);
    }
  }

  lemma OtherwiseUnchanged(ids: Cluster, s: Net, s': Net, n: Addr)
    requires Step(ids, s, s') && n in s.nodes
    ensures n in s'.nodes && (MakesOne(ids, s, s', n) || s'.nodes[n].version == s.nodes[n].version)
  {
    hide SendsOf, SortedSeq;
    if i: nat, now: nat, sends :| Deliver(ids, s, s', i, now, sends) {
      var d := s.flight[i];
      var reply := Handle(ids[d.to], s.nodes[d.to], d.from, d.msg, now).1;
      if d.to == n && d.msg.Announce? && reply.Some? {
        assert Answers(ids, s, s', i, now, sends, n, reply.value.announce);
        assert Makes(ids, s, s', n, reply.value.announce);
      }
    } else if i: nat :| Lose(s, s', i) {
    } else if i: nat :| Duplicate(s, s', i) {
    } else if m, now: nat :| Evict(s, s', m, now) {
    } else if m, order :| AnnounceAll(ids, s, s', m, order) {
      if m == n { assert Makes(ids, s, s', n, BuildAnnounce(ids[n], s.nodes[n]).1.announce); }
    } else {
      var m, order, now: nat :| PingAll(s, s', m, order, now);
    }
  }

  /** In every state of every run a node's counter is its first one plus the number of
      announcements it made, up to the largest 64-bit number, and its generation is its first. */
  lemma {:induction false} VersionCounts(ids: Cluster, run: seq<Net>, i: nat, n: Addr)
    requires ClusterOk(ids) && IsRun(ids, run) && i < |run| && n in ids
    requires n in run[0].nodes ==> run[0].nodes[n].version.counter <= 0xFFFF_FFFF_FFFF_FFFF
    ensures n in run[0].nodes && n in run[i].nodes
    ensures var first, made := run[0].nodes[n].version, Made(ids, run, i, n);
      && run[i].nodes[n].version.generation == first.generation
      && run[i].nodes[n].version.counter ==
           if first.counter + made <= 0xFFFF_FFFF_FFFF_FFFF then first.counter + made else 0xFFFF_FFFF_FFFF_FFFF
  {
    hide Step, Makes;
    RunOk(ids, run, i);
    if i > 0 {
      VersionCounts(ids, run, i - 1, n);
      if MakesOne(ids, run[i - 1], run[i], n) {
        var ann :| Makes(ids, run[i - 1], run[i], n, ann);
        MakingCounts(ids, run[i - 1], run[i], n, ann);
      } else {
        OtherwiseUnchanged(ids, run[i - 1], run[i], n);
      }
    }
  }

  /** So of two announcements that a node makes the later one is the newer, up to the largest
      64-bit number. */
  lemma AnnouncementsGrow(ids: Cluster, run: seq<Net>, i: nat, j: nat, n: Addr, a: Announcement, b: Announcement)
    requires ClusterOk(ids) && IsRun(ids, run) && i < j < |run| - 1 && n in ids
    requires Makes(ids, run[i], run[i + 1], n, a) && Makes(ids, run[j], run[j + 1], n, b)
    ensures a.nodeAddr == b.nodeAddr == n && a.version.generation == b.version.generation
    ensures a.version.counter <= b.version.counter
    ensures a.version.counter < 0xFFFF_FFFF_FFFF_FFFF ==> a.version.counter < b.version.counter
  {
    hide IsRun, Makes;
    MakingCounts(ids, run[i], run[i + 1], n, a);
    MakingCounts(ids, run[j], run[j + 1], n, b);
    CounterKept(ids, run, i + 1, j, n);
  }

  lemma {:induction false} CounterKept(ids: Cluster, run: seq<Net>, i: nat, j: nat, n: Addr)
    requires ClusterOk(ids) && IsRun(ids, run) && i <= j < |run| && n in ids
    ensures n in run[i].nodes && n in run[j].nodes
    ensures run[i].nodes[n].version.generation == run[j].nodes[n].version.generation
    ensures run[i].nodes[n].version.counter <= run[j].nodes[n].version.counter
  {
    hide Step, Makes;
    RunOk(ids, run, i);
    if i < j {
      CounterKept(ids, run, i, j - 1, n);
      if MakesOne(ids, run[j - 1], run[j], n) {
        var ann :| Makes(ids, run[j - 1], run[j], n, ann);
        MakingCounts(ids, run[j - 1], run[j], n, ann);
      } else {
        OtherwiseUnchanged(ids, run[j - 1], run[j], n);
      }
    }
  }

  // ── What is sent ──────────────────────────────────────────────────────────────

  /** An announcement that says who node `n` is, whom it knows, and which version it has now. */
  ghost predicate Introduces(ids: Cluster, s: Net, n: Addr, ann: Announcement) {
    && n in ids && n in s.nodes && ann.nodeAddr == n
    && ann.capabilities == ids[n].capabilities && |ann.recipes| == |ids[n].recipes|
    && (forall k :: 0 <= k < |ann.recipes| ==> ann.recipes[k] == ids[n].recipes[k].name)
    && (forall a :: a in ann.peers <==> a in s.nodes[n].peers && a != n)
    && ann.version == s.nodes[n].version
  }

  lemma SentOnce(from: Addr, order: seq<Addr>, msg: UdpMessage, p: Addr)
    ensures p in order <==> Datagram(from, p, msg) in Datagrams(from, ToEach(order, msg))
  {
    var ds := Datagrams(from, ToEach(order, msg));
    if p in order {
      var k :| 0 <= k < |order| && order[k] == p;
      assert ds[k] == Datagram(from, p, msg);
    }
  }

  lemma IntroducesItself(ids: Cluster, s: Net, n: Addr)
    requires ClusterOk(ids) && n in ids && n in s.nodes
    ensures Introduces(ids, s, n, AnnouncementOf(ids[n], s.nodes[n].peers.Keys, s.nodes[n].version))
  {}

  lemma AnswerIs(id: Identity, g: GossipState, from: Addr, msg: UdpMessage, now: nat)
    requires msg.Announce?
    ensures var (g', reply) := Handle(id, g, from, msg, now);
      reply == if g'.peers.Keys == g.peers.Keys then None
               else Some(Announce(AnnouncementOf(id, g'.peers.Keys, g'.version)))
  {
    hide AnnouncementOf, Announced;
  }

  /** Afterwards an answered announcement is on its way to every other known peer, once, and the
      reader introduces itself to the sender. Nothing else is sent, and nothing at all for an
      announcement that taught no address. */
  lemma AnsweredIsRelayed(ids: Cluster, s: Net, s': Net, i: nat, now: nat, sends: seq<(Addr, UdpMessage)>)
    returns (reply: Announcement)
    requires ClusterOk(ids) && Deliver(ids, s, s', i, now, sends) && s.flight[i].msg.Announce?
    ensures var d, sent := s.flight[i], |s'.flight| - (|s.flight| - 1);
      && s'.flight[..|s.flight| - 1] == Without(s.flight, i)
      && (s'.nodes[d.to].peers.Keys == s.nodes[d.to].peers.Keys ==> sent == 0)
      && (s'.nodes[d.to].peers.Keys != s.nodes[d.to].peers.Keys ==>
            && Introduces(ids, s', d.to, reply)
            && Datagram(d.to, d.from, Announce(reply)) in s'.flight
            && (forall p :: p in s'.nodes[d.to].peers && p !in {d.to, d.from} ==> Datagram(d.to, p, d.msg) in s'.flight)
            && sent == 1 + |s'.nodes[d.to].peers.Keys - {d.to, d.from}|)
  {
    hide Handle, AnnouncementOf, Introduces, IsOrderOf, ToEach;
    var d := s.flight[i];
    var n, g' := d.to, s'.nodes[d.to];
    reply := AnnouncementOf(ids[n], g'.peers.Keys, g'.version);
    AnswerIs(ids[n], s.nodes[n], d.from, d.msg, now);
    IntroducesItself(ids, s', n);
    assert s'.flight == Without(s.flight, i) + Datagrams(n, sends);
    if g'.peers.Keys != s.nodes[n].peers.Keys {
      var targets := RelayTargets(g'.peers, n, d.from);
      var order :| IsOrderOf(order, targets) && sends[1..] == ToEach(order, d.msg);
      RelayedTo(n, d.from, Announce(reply), order, targets, d.msg, sends);
      assert Datagrams(n, sends)[0] == Datagram(n, d.from, Announce(reply));
    }
  }

  lemma RelayedTo(n: Addr, from: Addr, reply: UdpMessage, order: seq<Addr>, targets: set<Addr>, msg: UdpMessage,
                  sends: seq<(Addr, UdpMessage)>)
    requires IsOrderOf(order, targets) && sends == [(from, reply)] + ToEach(order, msg)
    ensures forall p :: p in targets ==> Datagram(n, p, msg) in Datagrams(n, sends)
    ensures |sends| == 1 + |targets|
  {
    OrderLength(order, targets);
    forall p | p in targets ensures Datagram(n, p, msg) in Datagrams(n, sends) {
      assert p in order;
      var k :| 0 <= k < |order| && order[k] == p;
      assert Datagrams(n, sends)[k + 1] == Datagram(n, p, msg);
    }
  }

  /** Every ping is answered at once by its reader's version and the time it carried, and nothing
      is sent for a pong. */
  lemma PingIsAnswered(ids: Cluster, s: Net, s': Net, i: nat, now: nat, sends: seq<(Addr, UdpMessage)>)
    requires Deliver(ids, s, s', i, now, sends) && !s.flight[i].msg.Announce?
    ensures var d := s.flight[i];
      s'.flight == Without(s.flight, i) +
        if d.msg.Pong? then []
        else [Datagram(d.to, d.from, Pong(Check(d.msg.check.lastSeen, s'.nodes[d.to].version)))]
  {}

  /** A heartbeat introduces the node to every peer it knows, and to nobody else. */
  lemma HeartbeatReachesAll(ids: Cluster, s: Net, s': Net, n: Addr, order: seq<Addr>) returns (ann: Announcement)
    requires ClusterOk(ids) && AnnounceAll(ids, s, s', n, order)
    ensures Introduces(ids, s', n, ann) && |s.flight| <= |s'.flight| && s'.flight[..|s.flight|] == s.flight
    ensures forall p :: p in s.nodes[n].peers && p != n ==> Datagram(n, p, Announce(ann)) in s'.flight[|s.flight|..]
    ensures |s'.flight| - |s.flight| == |s.nodes[n].peers.Keys - {n}|
  {
    var msg := BuildAnnounce(ids[n], s.nodes[n]).1;
    ann := msg.announce;
    assert s'.flight[|s.flight|..] == Datagrams(n, ToEach(order, msg));
    OrderLength(order, s.nodes[n].peers.Keys - {n});
    forall p | p in s.nodes[n].peers && p != n ensures Datagram(n, p, msg) in s'.flight[|s.flight|..] {
      SentOnce(n, order, msg, p);
    }
  }

  /** And pings each of them with the time on its clock and its version. */
  lemma PingsReachAll(s: Net, s': Net, n: Addr, order: seq<Addr>, now: nat, p: Addr)
    requires PingAll(s, s', n, order, now) && p in s.nodes[n].peers && p != n
    ensures exists check ::
      && Datagram(n, p, Ping(check)) in s'.flight
      && DecodeLastSeen(check.lastSeen) == Some(now) && check.version == s.nodes[n].version
    ensures (n, p, now) in s'.pings && |s'.flight| - |s.flight| == |s.nodes[n].peers.Keys - {n}|
  {
    var check := Check(EncodeLastSeen(now), s.nodes[n].version);
    LastSeenRoundTrips(now);
    SentOnce(n, order, Ping(check), p);
    OrderLength(order, s.nodes[n].peers.Keys - {n});
    assert Datagram(n, p, Ping(check)) in s'.flight;
  }
}
