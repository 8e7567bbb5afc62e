/** The recipe list a node answers with: the peer table is a hash map iterated in any order, the
    list is the same for all of them. */
module Listing {
  import opened StringOrder
  import opened Recipe
  import opened Gossip
  import opened OrderSystem

  datatype Availability = Local(missing: seq<string>) | Remote(host: Addr)

  // ── Missing actions ───────────────────────────────────────────────────────────

  function ActionNames(actions: seq<ActionDef>): seq<string> {
    seq(|actions|, i requires 0 <= i < |actions| => actions[i].name)
  }

  /** The names outside `covered`, each at its first appearance. */
  function MissingOf(names: seq<string>, covered: set<string>): seq<string> {
    if names == [] then []
    else
      var before, x := MissingOf(names[..|names| - 1], covered), names[|names| - 1];
      if x in covered || x in before then before else before + [x]
  }

  /** Exactly the uncovered names, none twice. */
  lemma {:induction false} MissingIsUncovered(names: seq<string>, covered: set<string>)
    ensures forall x :: x in MissingOf(names, covered) <==> x in names && x !in covered
    ensures Distinct(MissingOf(names, covered))
  {
    if names != [] {
      MissingIsUncovered(names[..|names| - 1], covered);
      assert names == names[..|names| - 1] + [names[|names| - 1]];
    }
  }

  /** In order of first appearance: what is missing of a first part comes first. */
  lemma {:induction false} MissingInOrder(first: seq<string>, rest: seq<string>, covered: set<string>)
    ensures MissingOf(first, covered) <= MissingOf(first + rest, covered)
  {
    if rest == [] {
      assert first + rest == first;
    } else {
      var all := first + rest;
      MissingInOrder(first, rest[..|rest| - 1], covered);
      assert all[..|all| - 1] == first + rest[..|rest| - 1];
    }
  }

  lemma HasElement<T(!new)>(xs: seq<T>)
    ensures xs != [] ==> exists x :: x in xs
  {
    if xs != [] { assert xs[0] in xs; }
  }

  /** The first missing name is that of the first action nobody covers. */
  lemma FirstMissing(names: seq<string>, covered: set<string>, k: nat)
    requires k < |names| && names[k] !in covered && forall j :: 0 <= j < k ==> names[j] in covered
    ensures MissingOf(names, covered) != [] && MissingOf(names, covered)[0] == names[k]
  {
    MissingIsUncovered(names[..k], covered);
    var before := MissingOf(names[..k], covered);
    HasElement(before);
    assert forall x :: x in names[..k] ==> x in covered;
    assert names[..k + 1][..k] == names[..k];
    assert MissingOf(names[..k + 1], covered) == [names[k]];
    MissingInOrder(names[..k + 1], names[k + 1..], covered);
    assert names == names[..k + 1] + names[k + 1..];
  }

  // ── The answer ────────────────────────────────────────────────────────────────

  function CapabilitiesOf(peers: PeerTable, done: set<Addr>): set<string> {
    set a, c | a in done && a in peers && c in peers[a].capabilities :: c
  }

  /** What the node or any peer it knows of can do. */
  function Covered(id: Identity, peers: PeerTable): set<string> {
    (set c | c in id.capabilities) + CapabilitiesOf(peers, peers.Keys)
  }

  function MissingActions(r: Recipe, covered: set<string>): seq<string> {
    MissingOf(ActionNames(Flatten(r.steps)), covered)
  }

  /** The node's own recipes; of several with one name the last counts. */
  function LocalListing(recipes: seq<Recipe>, covered: set<string>): map<string, Availability> {
    if recipes == [] then map[]
    else
      var r := recipes[|recipes| - 1];
      LocalListing(recipes[..|recipes| - 1], covered)[r.name := Local(MissingActions(r, covered))]
  }

  function Advertised(peers: PeerTable): set<string> {
    set a, n | a in peers && n in peers[a].recipes :: n
  }

  lemma AdvertisedBySome(peers: PeerTable, name: string)
    ensures name in Advertised(peers) <==> RecipePeers(peers, name) != {}
  {
    if name in Advertised(peers) {
      var a :| a in peers && name in peers[a].recipes;
      assert a in RecipePeers(peers, name);
    }
  }

  function HostOf(peers: PeerTable, name: string): (host: Addr)
    requires name in Advertised(peers)
    ensures IsLeast(RecipePeers(peers, name), host)
  {
    AdvertisedBySome(peers, name);
    Least(RecipePeers(peers, name))
  }

  /** Own recipes win; every other advertised one is listed at its least host. */
  function RecipeList(id: Identity, peers: PeerTable): map<string, Availability> {
    var own := LocalListing(id.recipes, Covered(id, peers));
    map n | n in own.Keys + Advertised(peers) :: if n in own then own[n] else Remote(HostOf(peers, n))
  }

  /** What a node lists of a recipe of its own: of the last of its name. */
  lemma {:induction false} OwnRecipeListed(recipes: seq<Recipe>, covered: set<string>, i: nat)
    requires i < |recipes| && forall j :: i < j < |recipes| ==> recipes[j].name != recipes[i].name
    ensures recipes[i].name in LocalListing(recipes, covered)
    ensures LocalListing(recipes, covered)[recipes[i].name] == Local(MissingActions(recipes[i], covered))
  {
    if i < |recipes| - 1 { OwnRecipeListed(recipes[..|recipes| - 1], covered, i); }
  }

  /** Recipe `i` is the last of its name. */
  predicate IsLast(recipes: seq<Recipe>, i: nat) {
    i < |recipes| && forall j :: i < j < |recipes| ==> recipes[j].name != recipes[i].name
  }

  lemma {:induction false} OwnNames(recipes: seq<Recipe>, covered: set<string>, name: string)
    ensures name in LocalListing(recipes, covered) <==> exists i :: 0 <= i < |recipes| && recipes[i].name == name
  {
    if recipes != [] {
      var init := recipes[..|recipes| - 1];
      OwnNames(init, covered, name);
      if i :| 0 <= i < |recipes| && recipes[i].name == name { assert i < |init| ==> init[i].name == name; }
      if i :| 0 <= i < |init| && init[i].name == name { assert recipes[i].name == name; }
    }
  }

  /** The list has exactly the own recipes and those that some peer advertises; of an own recipe it
      tells what is missing, of any other its least host. */
  ghost predicate Lists(id: Identity, peers: PeerTable, list: map<string, Availability>) {
    && (forall n :: n in list <==> HasRecipe(id, n) || RecipePeers(peers, n) != {})
    && (forall i: nat :: IsLast(id.recipes, i) ==>
        && id.recipes[i].name in list
        && list[id.recipes[i].name] == Local(MissingActions(id.recipes[i], Covered(id, peers))))
    && (forall n :: n in list && !HasRecipe(id, n) ==>
        list[n].Remote? && IsLeast(RecipePeers(peers, n), list[n].host))
  }

  lemma ListIsRight(id: Identity, peers: PeerTable)
    ensures Lists(id, peers, RecipeList(id, peers))
  {
    hide LocalListing, Covered, Advertised, MissingActions, IsLeast;
    var covered := Covered(id, peers);
    var own := LocalListing(id.recipes, covered);
    var list := RecipeList(id, peers);
    forall n ensures n in list <==> HasRecipe(id, n) || RecipePeers(peers, n) != {}
      ensures n in own <==> HasRecipe(id, n)
    {
      OwnNames(id.recipes, covered, n);
      AdvertisedBySome(peers, n);
    }
    forall i: nat | IsLast(id.recipes, i)
      ensures id.recipes[i].name in list && list[id.recipes[i].name] == Local(MissingActions(id.recipes[i], covered))
    {
      OwnRecipeListed(id.recipes, covered, i);
    }
  }

  // ── The loops ─────────────────────────────────────────────────────────────────

  method CollectMissing(r: Recipe, covered: set<string>) returns (missing: seq<string>)
    ensures missing == MissingActions(r, covered)
  {
    var names := ActionNames(Flatten(r.steps));
    var seen: set<string> := {};
    missing := [];
    for i := 0 to |names|
      invariant missing == MissingOf(names[..i], covered)
      invariant forall x :: x in seen <==> x in missing
    {
      assert names[..i + 1][..i] == names[..i];
      if names[i] !in covered && names[i] !in seen {
        seen := seen + {names[i]};
        missing := missing + [names[i]];
      }
    }
    assert names[..|names|] == names;
  }

  method CollectCapabilities(id: Identity, peers: PeerTable) returns (covered: set<string>)
    ensures covered == Covered(id, peers)
  {
    covered := set c | c in id.capabilities;
    var left := peers.Keys;
    while left != {}
      invariant left <= peers.Keys
      invariant covered == (set c | c in id.capabilities) + CapabilitiesOf(peers, peers.Keys - left)
      decreases left
    {
      var a :| a in left;
      var caps := set c | c in peers[a].capabilities;
      ghost var before, after := peers.Keys - left, peers.Keys - (left - {a});
      forall c ensures c in CapabilitiesOf(peers, after) <==> c in CapabilitiesOf(peers, before) || c in caps {
        if c in caps { assert a in after; }
        if c in CapabilitiesOf(peers, before) {
          var b :| b in before && c in peers[b].capabilities;
          assert b in after;
        }
      }
      covered := covered + caps;
      left := left - {a};
    }
  }

  /** Who has been seen to advertise the recipe. */
  function Seen(pairs: set<(Addr, string)>, name: string): set<Addr> {
    set p | p in pairs && p.1 == name :: p.0
  }

  ghost predicate HostsLeast(hosts: map<string, Addr>, pairs: set<(Addr, string)>) {
    && (forall p :: p in pairs ==> p.1 in hosts)
    && (forall n :: n in hosts ==> IsLeast(Seen(pairs, n), hosts[n]))
  }

  /** `entry(name)`: keep the smaller address, or insert. */
  function Noted(hosts: map<string, Addr>, peer: Addr, name: string): map<string, Addr> {
    if name in hosts && LexLe(hosts[name], peer) then hosts else hosts[name := peer]
  }

  lemma NotedKeepsLeast(hosts: map<string, Addr>, pairs: set<(Addr, string)>, peer: Addr, name: string)
    requires HostsLeast(hosts, pairs)
    ensures HostsLeast(Noted(hosts, peer, name), pairs + {(peer, name)})
  {
    var hosts', pairs' := Noted(hosts, peer, name), pairs + {(peer, name)};
    forall n | n in hosts' ensures IsLeast(Seen(pairs', n), hosts'[n]) {
      if n != name {
        assert Seen(pairs', n) == Seen(pairs, n);
      } else {
        assert (peer, name) in pairs';
        assert Seen(pairs', n) == Seen(pairs, n) + {peer};
        LexReflexive(peer);
        if name in hosts {
          LexTotal(hosts[name], peer);
          forall y | y in Seen(pairs', n) ensures LexLe(hosts'[n], y) {
            if y != peer && hosts'[n] == peer { LexTransitive(peer, hosts[name], y); }
          }
        } else {
          assert Seen(pairs, n) == {};
        }
      }
    }
  }

  function PairsOf(peers: PeerTable, done: set<Addr>): set<(Addr, string)> {
    set a, n | a in done && a in peers && n in peers[a].recipes :: (a, n)
  }

  function PairsAt(peer: Addr, names: seq<string>): set<(Addr, string)> {
    set n | n in names :: (peer, n)
  }

  method NoteAll(noted: map<string, Addr>, peer: Addr, names: seq<string>, ghost pairs: set<(Addr, string)>)
    returns (hosts: map<string, Addr>)
    requires HostsLeast(noted, pairs)
    ensures HostsLeast(hosts, pairs + PairsAt(peer, names))
  {
    hide HostsLeast;
    hosts := noted;
    assert pairs + PairsAt(peer, names[..0]) == pairs;
    for k := 0 to |names|
      invariant HostsLeast(hosts, pairs + PairsAt(peer, names[..k]))
    {
      ghost var was, done := hosts, pairs + PairsAt(peer, names[..k]);
      NotedKeepsLeast(hosts, done, peer, names[k]);
      if !(names[k] in hosts && LexLe(hosts[names[k]], peer)) {
        hosts := hosts[names[k] := peer];
      }
      assert names[..k + 1] == names[..k] + [names[k]];
      assert hosts == Noted(was, peer, names[k]);
      assert done + {(peer, names[k])} == pairs + PairsAt(peer, names[..k + 1]);
    }
    assert names[..|names|] == names;
  }

  method CollectHosts(peers: PeerTable) returns (hosts: map<string, Addr>)
    ensures hosts.Keys == Advertised(peers)
    ensures forall n :: n in hosts ==> hosts[n] == HostOf(peers, n)
  {
    hide HostsLeast, Advertised, HostOf;
    hosts := map[];
    var left := peers.Keys;
    NothingNoted(peers);
    while left != {}
      invariant left <= peers.Keys
      invariant HostsLeast(hosts, PairsOf(peers, peers.Keys - left))
      decreases left
    {
      var a :| a in left;
      hosts := NoteAll(hosts, a, peers[a].recipes, PairsOf(peers, peers.Keys - left));
      PairsWith(peers, peers.Keys - left, a);
      assert peers.Keys - (left - {a}) == peers.Keys - left + {a};
      left := left - {a};
    }
    assert peers.Keys - left == peers.Keys;
    HostsFromPairs(peers, hosts);
  }

  lemma NothingNoted(peers: PeerTable)
    ensures HostsLeast(map[], PairsOf(peers, peers.Keys - peers.Keys))
  {}

  lemma PairsWith(peers: PeerTable, done: set<Addr>, a: Addr)
    requires a in peers
    ensures PairsOf(peers, done + {a}) == PairsOf(peers, done) + PairsAt(a, peers[a].recipes)
  {}

  lemma HostsFromPairs(peers: PeerTable, hosts: map<string, Addr>)
    requires HostsLeast(hosts, PairsOf(peers, peers.Keys))
    ensures hosts.Keys == Advertised(peers)
    ensures forall n :: n in hosts ==> hosts[n] == HostOf(peers, n)
  {
    var pairs := PairsOf(peers, peers.Keys);
    forall n ensures Seen(pairs, n) == RecipePeers(peers, n) {
      forall a | a in RecipePeers(peers, n) ensures a in Seen(pairs, n) { assert (a, n) in pairs; }
    }
    forall n | n in Advertised(peers) ensures n in hosts {
      var a :| a in peers && n in peers[a].recipes;
      assert (a, n) in pairs;
    }
    forall n | n in hosts ensures n in Advertised(peers) && hosts[n] == HostOf(peers, n) {
      assert hosts[n] in RecipePeers(peers, n);
      LexAntisymmetric(hosts[n], HostOf(peers, n));
    }
  }

  method ListOwn(recipes: seq<Recipe>, covered: set<string>) returns (own: map<string, Availability>)
    ensures own == LocalListing(recipes, covered)
  {
    own := map[];
    for i := 0 to |recipes|
      invariant own == LocalListing(recipes[..i], covered)
    {
      var missing := CollectMissing(recipes[i], covered);
      assert recipes[..i + 1][..i] == recipes[..i];
      own := own[recipes[i].name := Local(missing)];
    }
    assert recipes[..|recipes|] == recipes;
  }

  /** `handle_list_recipes`, taking the entries of every map in any order. */
  method HandleListRecipes(id: Identity, peers: PeerTable) returns (recipes: map<string, Availability>)
    ensures recipes == RecipeList(id, peers)
    ensures Lists(id, peers, recipes)
  {
    hide LocalListing, Covered, Advertised, HostOf, Lists;
    ListIsRight(id, peers);
    var covered := CollectCapabilities(id, peers);
    recipes := ListOwn(id.recipes, covered);
    ghost var own := recipes;
    var hosts := CollectHosts(peers);
    var left := hosts.Keys;
    while left != {}
      invariant left <= hosts.Keys
      invariant recipes.Keys == own.Keys + (hosts.Keys - left)
      invariant forall n :: n in recipes ==> recipes[n] == if n in own then own[n] else Remote(hosts[n])
      decreases left
    {
      var name :| name in left;
      if name !in recipes {
        recipes := recipes[name := Remote(hosts[name])];
      }
      left := left - {name};
    }
  }
}
