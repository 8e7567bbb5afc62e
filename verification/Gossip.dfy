/** One node's gossip state, and what each kind of datagram does to it. */
module Gossip {
  import opened Text
  import opened StringOrder
  import opened Recipe

  type Addr = string

  /** Set once at start-up and never changed. */
  datatype Identity = Identity(addr: Addr, capabilities: seq<string>, recipes: seq<Recipe>)

  datatype Version = Version(counter: nat, generation: nat)

  const U64_MAX: nat := 0xFFFF_FFFF_FFFF_FFFF

  datatype PeerInfo = PeerInfo(capabilities: seq<string>, recipes: seq<string>, version: Version,
                               lastSeen: nat, rtt: Option<nat>)

  const UNKNOWN := PeerInfo([], [], Version(0, 0), 0, None)

  datatype LastSeen = ByAddress(byAddress: map<string, nat>) | ByCode(byCode: map<int, nat>)

  datatype Announcement = Announcement(nodeAddr: Addr, capabilities: seq<string>, recipes: seq<string>,
                                       peers: seq<Addr>, version: Version)

  datatype Check = Check(lastSeen: LastSeen, version: Version)

  datatype UdpMessage = Announce(announce: Announcement) | Ping(check: Check) | Pong(check: Check)

  type PeerTable = map<Addr, PeerInfo>

  datatype GossipState = GossipState(peers: PeerTable, version: Version)

  // ── The cluster ───────────────────────────────────────────────────────────────

  /** The identity of the node at each address. */
  type Cluster = map<Addr, Identity>

  predicate ClusterOk(ids: Cluster) {
    forall a :: a in ids ==> ids[a].addr == a
  }

  /** What a table says about a peer is nothing, or the truth. */
  predicate EntryTrue(ids: Cluster, p: Addr, info: PeerInfo) {
    || (info.capabilities == [] && info.recipes == [])
    || (p in ids && info.capabilities == ids[p].capabilities && info.recipes == RecipeNames(ids[p].recipes))
  }

  ghost predicate TableTrue(ids: Cluster, table: PeerTable) {
    forall p :: p in table ==> EntryTrue(ids, p, table[p])
  }

  // ── Versions ──────────────────────────────────────────────────────────────────

  /** Lexicographic: generation first, then counter. */
  predicate IsNewer(candidate: Version, current: Version) {
    candidate.generation > current.generation
    || (candidate.generation == current.generation && candidate.counter > current.counter)
  }

  lemma NewerIsStrictTotalOrder(a: Version, b: Version, c: Version)
    ensures !IsNewer(a, a)
    ensures a == b || IsNewer(a, b) || IsNewer(b, a)
    ensures IsNewer(a, b) && IsNewer(b, c) ==> IsNewer(a, c)
    ensures !IsNewer(b, a) && !IsNewer(c, b) ==> !IsNewer(c, a)
  {}

  /** The counter saturates at the largest `u64`. */
  function Bumped(v: Version): Version {
    v.(counter := if v.counter < U64_MAX then v.counter + 1 else v.counter)
  }

  // ── Heartbeat timestamps ──────────────────────────────────────────────────────

  function EncodeLastSeen(micros: nat): LastSeen {
    ByCode(map[1 := micros / 1_000_000, -6 := micros % 1_000_000])
  }

  /** `checked_mul` and `checked_add` on `u64`. */
  function DecodeLastSeen(l: LastSeen): Option<nat> {
    match l
    case ByAddress(_) => None
    case ByCode(m) =>
      if 1 !in m || -6 !in m then None
      else if m[1] * 1_000_000 > U64_MAX then None
      else if m[1] * 1_000_000 + m[-6] > U64_MAX then None
      else Some(m[1] * 1_000_000 + m[-6])
  }

  /** Splitting into whole seconds under key 1 and the microseconds left under key -6 loses
      nothing, for every `u64`. */
  lemma LastSeenRoundTrips(micros: nat)
    ensures var l := EncodeLastSeen(micros);
      && l.ByCode? && l.byCode.Keys == {1, -6}
      && 1_000_000 * l.byCode[1] + l.byCode[-6] == micros && l.byCode[-6] < 1_000_000
    ensures DecodeLastSeen(EncodeLastSeen(micros)) == if micros <= 0xFFFF_FFFF_FFFF_FFFF then Some(micros) else None
  {
    var m := EncodeLastSeen(micros).byCode;
    assert m[1] == micros / 1_000_000 && m[-6] == micros % 1_000_000;
  }

  function RttFromEcho(l: LastSeen, now: nat): Option<nat> {
    match DecodeLastSeen(l)
    case None => None
    case Some(sent) => Some(if now >= sent then now - sent else 0)
  }

  /** A time comes out exactly of the two numbers under those keys, if it fits 64 bits. */
  lemma DecodedIff(l: LastSeen, micros: nat)
    ensures DecodeLastSeen(l) == Some(micros) <==>
      && l.ByCode? && 1 in l.byCode && -6 in l.byCode
      && micros == 1_000_000 * l.byCode[1] + l.byCode[-6] <= 0xFFFF_FFFF_FFFF_FFFF
  {}

  /** An echo measures the time since its ping was sent, and nothing if the clock was set back. */
  lemma EchoMeasures(sent: nat, now: nat, rtt: nat)
    ensures RttFromEcho(EncodeLastSeen(sent), now) == Some(rtt) <==>
      sent <= 0xFFFF_FFFF_FFFF_FFFF && (now == sent + rtt || (now < sent && rtt == 0))
  {
    LastSeenRoundTrips(sent);
  }

  // ── Table updates ─────────────────────────────────────────────────────────────

  function EntryOf(peers: PeerTable, a: Addr): PeerInfo {
    if a in peers then peers[a] else UNKNOWN
  }

  /** Every listed address other than `self` that was not known yet, as an unknown peer. */
  function WithUnknown(peers: PeerTable, self: Addr, addrs: seq<Addr>): PeerTable {
    map a | a in peers.Keys + (set x | x in addrs && x != self) :: EntryOf(peers, a)
  }

  function Announced(peers: PeerTable, self: Addr, ann: Announcement, now: nat): PeerTable {
    var info := PeerInfo(ann.capabilities, ann.recipes, ann.version, now, EntryOf(peers, ann.nodeAddr).rtt);
    WithUnknown(peers[ann.nodeAddr := info], self, ann.peers)
  }

  lemma AnnouncedEntry(peers: PeerTable, self: Addr, ann: Announcement, now: nat, p: Addr)
    requires p in Announced(peers, self, ann, now)
    ensures Announced(peers, self, ann, now)[p] ==
      if p == ann.nodeAddr then PeerInfo(ann.capabilities, ann.recipes, ann.version, now, EntryOf(peers, p).rtt)
      else EntryOf(peers, p)
  {}

  function Checked(peers: PeerTable, from: Addr, check: Check, now: nat, rtt: Option<nat>): PeerTable {
    var was := EntryOf(peers, from);
    peers[from := was.(version := if IsNewer(check.version, was.version) then check.version else was.version,
                       lastSeen := now,
                       rtt := if rtt.Some? then rtt else was.rtt)]
  }

  const STALE_MICROS: nat := 10_000_000

  predicate KeptFresh(self: Addr, a: Addr, info: PeerInfo, now: nat) {
    a == self || info.lastSeen == 0 || (if now >= info.lastSeen then now - info.lastSeen else 0) <= STALE_MICROS
  }

  function Evicted(peers: PeerTable, self: Addr, now: nat): PeerTable {
    map a | a in peers && KeptFresh(self, a, peers[a], now) :: peers[a]
  }

  function RecipeNames(recipes: seq<Recipe>): seq<string> {
    seq(|recipes|, i requires 0 <= i < |recipes| => recipes[i].name)
  }

  function AnnouncementOf(id: Identity, addrs: set<Addr>, version: Version): Announcement {
    Announcement(id.addr, id.capabilities, RecipeNames(id.recipes), SortedSeq(addrs - {id.addr}), version)
  }

  /** `build_announce_from_node`: every announcement takes the next version. */
  function BuildAnnounce(id: Identity, g: GossipState): (GossipState, UdpMessage) {
    var v := Bumped(g.version);
    (g.(version := v), Announce(AnnouncementOf(id, g.peers.Keys, v)))
  }

  // ── Handling a datagram ───────────────────────────────────────────────────────

  function Handle(id: Identity, g: GossipState, from: Addr, msg: UdpMessage, now: nat)
    : (GossipState, Option<UdpMessage>)
  {
    match msg
    case Announce(ann) =>
      var g' := g.(peers := Announced(g.peers, id.addr, ann, now));
      if g'.peers.Keys == g.peers.Keys then (g', None)
      else
        var (g'', reply) := BuildAnnounce(id, g');
        (g'', Some(reply))
    case Ping(check) =>
      (g.(peers := Checked(g.peers, from, check, now, None)), Some(Pong(Check(check.lastSeen, g.version))))
    case Pong(check) =>
      (g.(peers := Checked(g.peers, from, check, now, RttFromEcho(check.lastSeen, now))), None)
  }

  /** Whom an announcement that was answered is relayed to. */
  function RelayTargets(peers: PeerTable, self: Addr, from: Addr): set<Addr> {
    peers.Keys - {self, from}
  }

  /** The datagrams sent while one is processed, in any order of the relay targets: the reply
      to the sender, then the announcement itself to every other known peer. */
  ghost predicate SendsOf(id: Identity, g': GossipState, from: Addr, msg: UdpMessage,
                          reply: Option<UdpMessage>, sends: seq<(Addr, UdpMessage)>) {
    match reply
    case None => sends == []
    case Some(r) =>
      && sends != [] && sends[0] == (from, r)
      && (msg.Announce? ==>
          exists order :: IsOrderOf(order, RelayTargets(g'.peers, id.addr, from)) && sends[1..] == ToEach(order, msg))
      && (!msg.Announce? ==> |sends| == 1)
  }

  ghost predicate IsOrderOf<T(!new)>(order: seq<T>, s: set<T>) {
    Distinct(order) && (forall x :: x in order <==> x in s)
  }

  function ToEach(order: seq<Addr>, msg: UdpMessage): seq<(Addr, UdpMessage)> {
    seq(|order|, i requires 0 <= i < |order| => (order[i], msg))
  }

  lemma {:induction false} OrderLength<T(!new)>(order: seq<T>, s: set<T>)
    requires IsOrderOf(order, s)
    ensures |order| == |s|
  {
    if order == [] {
      assert s == {};
    } else {
      var x := order[0];
      assert x in order;
      forall y ensures y in order[1..] <==> y in s - {x} {
        assert y in order <==> y == x || y in order[1..];
        assert x !in order[1..];
      }
      OrderLength(order[1..], s - {x});
    }
  }

  // ── The same, in place ────────────────────────────────────────────────────────

  /** The gossip half of a node: the table and version that the UDP thread updates. */
  class GossipNode {
    const identity: Identity
    var peers: PeerTable
    var version: Version

    function State(): GossipState
      reads this
    {
      GossipState(peers, version)
    }

    constructor (identity: Identity, bootstrap: seq<Addr>, generation: nat)
      ensures this.identity == identity
      ensures State() == GossipState(map a | a in bootstrap :: UNKNOWN, Version(0, generation))
    {
      this.identity := identity;
      peers := map a | a in bootstrap :: UNKNOWN;
      version := Version(0, generation);
    }

    method NextLocalVersion() returns (v: Version)
      modifies this`version
      ensures v == version == Bumped(old(version))
    {
      version := version.(counter := if version.counter < U64_MAX then version.counter + 1 else version.counter);
      v := version;
    }

    method ApplyAnnounce(ann: Announcement, now: nat) returns (isNewPeer: bool, topologyChanged: bool)
      modifies this`peers
      ensures peers == Announced(old(peers), identity.addr, ann, now)
      ensures isNewPeer <==> ann.nodeAddr !in old(peers)
      ensures (isNewPeer || topologyChanged) <==> peers.Keys > old(peers).Keys
      ensures !(isNewPeer || topologyChanged) <==> peers.Keys == old(peers).Keys
    {
      isNewPeer := ann.nodeAddr !in peers;
      topologyChanged := false;
      var entry := if ann.nodeAddr in peers then peers[ann.nodeAddr] else UNKNOWN;
      peers := peers[ann.nodeAddr :=
        PeerInfo(ann.capabilities, ann.recipes, ann.version, now, entry.rtt)];
      ghost var start := peers;
      for i := 0 to |ann.peers|
        invariant peers == WithUnknown(start, identity.addr, ann.peers[..i])
        invariant topologyChanged <==> peers.Keys != start.Keys
      {
        var a := ann.peers[i];
        assert ann.peers[..i + 1] == ann.peers[..i] + [a];
        if a != identity.addr && a !in peers {
          peers := peers[a := UNKNOWN];
          topologyChanged := true;
        }
      }
      assert ann.peers[..|ann.peers|] == ann.peers;
      assert start.Keys == old(peers).Keys + {ann.nodeAddr};
    }

    method ApplyCheck(from: Addr, check: Check, rtt: Option<nat>, now: nat)
      modifies this`peers
      ensures peers == Checked(old(peers), from, check, now, rtt)
    {
      var peer := if from in peers then peers[from] else UNKNOWN;
      if IsNewer(check.version, peer.version) {
        peer := peer.(version := check.version);
      }
      peer := peer.(lastSeen := now);
      if rtt.Some? {
        peer := peer.(rtt := rtt);
      }
      peers := peers[from := peer];
    }

    method RemoveStalePeers(now: nat) returns (removed: nat)
      modifies this`peers
      ensures peers == Evicted(old(peers), identity.addr, now)
      ensures removed == |old(peers)| - |peers|
    {
      var before := |peers|;
      ghost var was := peers;
      peers := map a | a in peers && KeptFresh(identity.addr, a, peers[a], now) :: peers[a];
      SubsetSmaller(peers.Keys, was.Keys);
      removed := before - |peers|;
    }

    method HandleUdpMessage(from: Addr, msg: UdpMessage, now: nat) returns (reply: Option<UdpMessage>)
      modifies this
      ensures (State(), reply) == Handle(identity, old(State()), from, msg, now)
    {
      match msg {
        case Announce(ann) =>
          var isNew, changed := ApplyAnnounce(ann, now);
          if isNew || changed {
            var v := NextLocalVersion();
            reply := Some(Announce(AnnouncementOf(identity, peers.Keys, v)));
          } else {
            reply := None;
          }
        case Ping(check) =>
          ApplyCheck(from, check, None, now);
          reply := Some(Pong(Check(check.lastSeen, version)));
        case Pong(check) =>
          ApplyCheck(from, check, RttFromEcho(check.lastSeen, now), now);
          reply := None;
      }
    }

    /** The relay loop: one copy for each target, in any order. */
    method Relay(targets: set<Addr>, msg: UdpMessage) returns (sends: seq<(Addr, UdpMessage)>, ghost order: seq<Addr>)
      ensures IsOrderOf(order, targets) && sends == ToEach(order, msg)
    {
      sends, order := [], [];
      var left := targets;
      while left != {}
        invariant left <= targets && sends == ToEach(order, msg)
        invariant IsOrderOf(order, targets - left)
        decreases left
      {
        var target :| target in left;
        assert target !in order;
        sends := sends + [(target, msg)];
        order := order + [target];
        left := left - {target};
      }
    }

    /** Reply first, then relay an answered announcement to everyone else that is known. */
    method ProcessOneDatagram(from: Addr, msg: UdpMessage, now: nat) returns (sends: seq<(Addr, UdpMessage)>)
      modifies this
      ensures State() == Handle(identity, old(State()), from, msg, now).0
      ensures SendsOf(identity, State(), from, msg, Handle(identity, old(State()), from, msg, now).1, sends)
    {
      hide Handle;
      var reply := HandleUdpMessage(from, msg, now);
      sends := [];
      if reply.Some? {
        sends := [(from, reply.value)];
        if msg.Announce? {
          var relays, order := Relay(peers.Keys - {identity.addr, from}, msg);
          sends := sends + relays;
          assert sends[1..] == relays;
        }
      }
    }
  }

  lemma SubsetSmaller<T>(a: set<T>, b: set<T>)
    requires a <= b
    ensures |a| <= |b|
  {
    assert b == a + (b - a);
  }

  // ── When an announcement is answered ──────────────────────────────────────────

  /** An announcement is answered, and then relayed, exactly when the set of known peers
      strictly grows. */
  lemma AnnounceAnsweredIffTableGrows(id: Identity, g: GossipState, from: Addr, ann: Announcement, now: nat)
    ensures var (g', reply) := Handle(id, g, from, Announce(ann), now);
      && g.peers.Keys <= g'.peers.Keys
      && (reply.Some? <==> g.peers.Keys < g'.peers.Keys)
  {
    assert g.peers.Keys <= Announced(g.peers, id.addr, ann, now).Keys;
  }

  /** A recorded version goes back exactly when an announcement about that peer carries an older
      one: an announcement replaces it unconditionally, a ping or a pong only by a newer one. */
  lemma VersionGoesBackIff(id: Identity, g: GossipState, from: Addr, msg: UdpMessage, now: nat, p: Addr)
    requires p in g.peers
    ensures var was, g' := g.peers[p].version, Handle(id, g, from, msg, now).0;
      && p in g'.peers
      && (IsNewer(was, g'.peers[p].version) <==>
          msg.Announce? && msg.announce.nodeAddr == p && IsNewer(was, msg.announce.version))
  {
    var was := g.peers[p].version;
    NewerIsStrictTotalOrder(was, was, was);
    match msg
    case Announce(ann) => AnnouncedEntry(g.peers, id.addr, ann, now, p);
    case Ping(check) => NewerIsStrictTotalOrder(was, check.version, was);
    case Pong(check) => NewerIsStrictTotalOrder(was, check.version, was);
  }
}
