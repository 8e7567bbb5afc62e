/** The two handlers that pass work on, as one node runs them from start to end. What the
    network makes of each attempt is given from outside. */
module Handlers {
  import opened Text
  import opened Recipe
  import opened RecipeSpec
  import opened Gossip
  import opened Orders
  import opened OrderSystem

  /** The keys of a hash map that pass a filter, in whatever order they come. */
  method Collect(peers: PeerTable, wanted: PeerInfo -> bool) returns (order: seq<Addr>)
    ensures IsOrderOf(order, set a | a in peers && wanted(peers[a]))
  {
    order := [];
    var left := peers.Keys;
    while left != {}
      invariant left <= peers.Keys
      invariant IsOrderOf(order, set a | a in peers && a !in left && wanted(peers[a]))
      decreases left
    {
      var a :| a in left;
      assert a !in order;
      if wanted(peers[a]) {
        order := order + [a];
      }
      left := left - {a};
    }
  }

  predicate NoAnswer(peers: set<Addr>, outcome: Addr -> Attempt) {
    forall a :: a in peers ==> !outcome(a).Answered?
  }

  // ── handle_process_payload ────────────────────────────────────────────────────

  /** Trying some order of these peers: who got a request, and what came back. */
  ghost predicate Tried(peers: set<Addr>, outcome: Addr -> Attempt, response: Option<TcpMessage>, reached: seq<Addr>) {
    exists order ::
      && IsOrderOf(order, peers)
      && var attempts := Outcomes(order, outcome);
      && reached == ReachedBy(order, attempts)
      && (response.None? <==> Unanswered(attempts, |attempts|)) && (response.None? <==> NoAnswer(peers, outcome))
      && (response.Some? ==>
          exists k :: 0 <= k < |order| && Unanswered(attempts, k) && attempts[k] == Answered(response.value))
  }

  function Outcomes(order: seq<Addr>, outcome: Addr -> Attempt): seq<Attempt> {
    seq(|order|, i requires 0 <= i < |order| => outcome(order[i]))
  }

  /** What was handed to peers, and what came back: one copy for each peer tried and reached, all
      of which can go on with the payload. */
  ghost predicate Forwarded(peers: PeerTable, p: Payload, outcome: Addr -> Attempt,
                            response: Option<TcpMessage>, sent: seq<(Addr, Payload)>)
    requires p.index < |p.sequence|
  {
    exists reached ::
      && Tried(CapablePeers(peers, p.sequence[p.index].name), outcome, response, reached)
      && CopiesSent(p, reached, sent)
  }

  method ForwardPayload(peers: PeerTable, payload: Payload, outcome: Addr -> Attempt)
    returns (response: Option<TcpMessage>, sent: seq<(Addr, Payload)>)
    requires payload.index < |payload.sequence|
    ensures Forwarded(peers, payload, outcome, response, sent)
  {
    hide CopiesSent, ReachedBy;
    var name := payload.sequence[payload.index].name;
    var candidates := Collect(peers, (info: PeerInfo) => name in info.capabilities);
    ghost var capable := CapablePeers(peers, name);
    assert IsOrderOf(candidates, capable);
    var attempts := Outcomes(candidates, outcome);
    response, sent := TryForwardPayload(payload, candidates, attempts);
    FirstAnswer(candidates, attempts, capable, outcome);
    assert Tried(capable, outcome, response, ReachedBy(candidates, attempts));
  }

  /** Run what can be run here; hand a finished payload to its host with one more `Forward`, an
      unfinished one to some peer that can go on, and report a failure to the host only if no
      such peer answered. `written` is how sending to the host ends, `delivery` what was to be
      sent there. */
  ghost predicate Processed(id: Identity, peers: PeerTable, recipeName: string, start: Payload,
                            outcome: Addr -> Attempt, written: Option<string>,
                            answer: TcpMessage, p: Payload, sent: seq<(Addr, Payload)>, delivery: Option<DeliverMsg>) {
    && LocalRun(id, start, p)
    && (p.index >= |p.sequence| ==>
        sent == [] && delivery.Some? && delivery.value.error.None? && IsCopyFor(p, p.host, delivery.value.payload))
    && (p.index < |p.sequence| ==>
        && Forwarded(peers, p, outcome, if delivery.None? then Some(answer) else None, sent)
        && (delivery.Some? ==> delivery.value == DeliverMsg(p, Some(UnavailableError(p.sequence[p.index])))))
    && (delivery.Some? ==> if written.None? then answer == CompletedOrder(recipeName, None) else answer.Error?)
  }

  ghost predicate ProcessAnswer(id: Identity, peers: PeerTable, recipeName: string, start: Payload,
                                outcome: Addr -> Attempt, written: Option<string>, answer: TcpMessage) {
    exists p, sent, delivery :: Processed(id, peers, recipeName, start, outcome, written, answer, p, sent, delivery)
  }

  /** `handle_process_payload`. */
  method HandleProcessPayload(id: Identity, peers: PeerTable, recipeName: string, start: Payload,
                              outcome: Addr -> Attempt, written: Option<string>)
    returns (answer: TcpMessage, payload: Payload, sent: seq<(Addr, Payload)>, delivery: Option<DeliverMsg>)
    ensures Processed(id, peers, recipeName, start, outcome, written, answer, payload, sent, delivery)
  {
    hide LocalRun, Forwarded, UnavailableError;
    payload := ExecuteLocally(id, start);
    sent, delivery := [], None;
    if payload.index >= |payload.sequence| {
      var now := NowMicros();
      delivery := Some(DeliverMsg(payload.(updates := payload.updates + [Forward(payload.host, now)]), None));
      answer := match written
        case None => CompletedOrder(recipeName, None)
        case Some(e) => Error("deliver to " + payload.host + " failed: " + e);
      return;
    }
    var response;
    response, sent := ForwardPayload(peers, payload, outcome);
    if response.Some? {
      answer := response.value;
      return;
    }
    var error := UnavailableError(payload.sequence[payload.index]);
    delivery := Some(DeliverMsg(payload, Some(error)));
    answer := match written
      case None => CompletedOrder(recipeName, None)
      case Some(e) => Error("deliver failure '" + error + "' to " + payload.host + " failed: " + e);
  }

  /** Somebody answers exactly if there is a first attempt that is answered. */
  lemma FirstAnswer(candidates: seq<Addr>, attempts: seq<Attempt>, peers: set<Addr>, outcome: Addr -> Attempt)
    requires |attempts| == |candidates| && IsOrderOf(candidates, peers)
    requires forall i :: 0 <= i < |candidates| ==> attempts[i] == outcome(candidates[i])
    ensures Unanswered(attempts, |attempts|) <==> NoAnswer(peers, outcome)
    ensures !Unanswered(attempts, |attempts|) ==>
      exists k :: 0 <= k < |attempts| && Unanswered(attempts, k) && attempts[k].Answered?
  {
    if !Unanswered(attempts, |attempts|) {
      var j :| 0 <= j < |attempts| && attempts[j].Answered?;
      assert candidates[j] in peers;
      var k := Earliest(attempts, j);
    }
  }

  lemma {:induction false} Earliest(attempts: seq<Attempt>, j: nat) returns (k: nat)
    requires j < |attempts| && attempts[j].Answered?
    ensures k <= j && Unanswered(attempts, k) && attempts[k].Answered?
  {
    k := j;
    if i: nat :| i < j && attempts[i].Answered? { k := Earliest(attempts, i); }
  }

  /** The copies the loop sends are those of the step system. */
  lemma CopyIsCopy(p: Payload, peer: Addr, q: Payload)
    ensures IsCopyFor(p, peer, q) <==> exists now :: q == Copy(p, peer, now)
  {
    if IsCopyFor(p, peer, q) {
      assert q == Copy(p, peer, q.updates[|p.updates|].forwardedAt);
    }
  }

  // ── handle_get_recipe ─────────────────────────────────────────────────────────

  method TryForwardGetRecipe(candidates: seq<Addr>, attempts: seq<Attempt>) returns (response: Option<TcpMessage>)
    requires |attempts| == |candidates|
    ensures response.None? <==> Unanswered(attempts, |attempts|)
    ensures forall k :: 0 <= k < |attempts| && Unanswered(attempts, k) && attempts[k].Answered? ==>
      response == Some(attempts[k].answer)
  {
    for i := 0 to |candidates|
      invariant Unanswered(attempts, i)
    {
      if attempts[i].Answered? {
        return Some(attempts[i].answer);
      }
    }
    return None;
  }

  /** The first own recipe of that name; else the first answer of a peer that advertises it, in
      some order; else an error. */
  ghost predicate RecipeAnswered(id: Identity, peers: PeerTable, name: string,
                                 outcome: Addr -> Attempt, answer: TcpMessage) {
    var own := FindRecipe(id.recipes, name);
    if own.Some? then answer == RecipeAnswer(own.value.source)
    else
      || (exists reached :: Tried(RecipePeers(peers, name), outcome, Some(answer), reached))
      || ((exists reached :: Tried(RecipePeers(peers, name), outcome, None, reached))
          && answer == Error("recipe '" + name + "' not found locally and no peer advertised it"))
  }

  /** `handle_get_recipe`. */
  method HandleGetRecipe(id: Identity, peers: PeerTable, name: string, outcome: Addr -> Attempt)
    returns (answer: TcpMessage)
    ensures RecipeAnswered(id, peers, name, outcome, answer)
    ensures HasRecipe(id, name) ==>
      exists i: nat :: IsFirst(id.recipes, name, i) && answer == RecipeAnswer(id.recipes[i].source)
    ensures !HasRecipe(id, name) && NoAnswer(RecipePeers(peers, name), outcome) ==> answer.Error?
  {
    for i := 0 to |id.recipes|
      invariant forall j :: 0 <= j < i ==> id.recipes[j].name != name
    {
      if id.recipes[i].name == name {
        FirstIsFound(id.recipes, name, i);
        return RecipeAnswer(id.recipes[i].source);
      }
    }
    FoundIffHas(id, name);
    var candidates := Collect(peers, (info: PeerInfo) => name in info.recipes);
    ghost var knowing := RecipePeers(peers, name);
    assert IsOrderOf(candidates, knowing);
    var attempts := Outcomes(candidates, outcome);
    var response := TryForwardGetRecipe(candidates, attempts);
    FirstAnswer(candidates, attempts, knowing, outcome);
    assert Tried(knowing, outcome, response, ReachedBy(candidates, attempts));
    if response.Some? {
      return response.value;
    }
    return Error("recipe '" + name + "' not found locally and no peer advertised it");
  }

  /** Recipe `i` is the first of that name. */
  predicate IsFirst(recipes: seq<Recipe>, name: string, i: nat) {
    i < |recipes| && recipes[i].name == name && forall j :: 0 <= j < i ==> recipes[j].name != name
  }

  lemma {:induction false} FirstIsFound(recipes: seq<Recipe>, name: string, i: nat)
    requires IsFirst(recipes, name, i)
    ensures FindRecipe(recipes, name) == Some(recipes[i])
  {
    if i > 0 { FirstIsFound(recipes[1..], name, i - 1); }
  }

  // ── handle_order ──────────────────────────────────────────────────────────────

  /** The payload made from a recipe's text; none if the text is wrong or lacks the recipe. */
  function PayloadFor(text: string, name: string, orderId: string, host: Addr, now: nat): Option<Payload> {
    var parsed := ParseRecipes(text);
    var found := if parsed.Ok? then FindRecipe(parsed.value, name) else None;
    if found.Some? then Some(Payload(orderId, now, host, 0, Flatten(found.value.steps), "", [])) else None
  }

  predicate IsPlaceholder(m: TcpMessage) {
    m.CompletedOrder? && m.result.None?
  }

  method IsKnown(id: Identity, peers: PeerTable, name: string) returns (known: bool)
    ensures known <==> HasRecipe(id, name) || RecipePeers(peers, name) != {}
  {
    hide HasRecipe;
    var candidates := Collect(peers, (info: PeerInfo) => name in info.recipes);
    FoundIffHas(id, name);
    assert IsOrderOf(candidates, RecipePeers(peers, name));
    assert candidates != [] ==> candidates[0] in RecipePeers(peers, name);
    known := FindRecipe(id.recipes, name).Some? || candidates != [];
  }

  /** The text an order starts from, if it gets one. */
  ghost predicate Fetched(id: Identity, peers: PeerTable, name: string,
                          outcome: Addr -> Attempt, text: Option<string>) {
    exists answer ::
      && RecipeAnswered(id, peers, name, outcome, answer)
      && text == if answer.RecipeAnswer? then Some(answer.recipe) else None
  }

  method FetchText(id: Identity, peers: PeerTable, name: string, outcome: Addr -> Attempt)
    returns (text: Option<string>, error: TcpMessage)
    ensures Fetched(id, peers, name, outcome, text) && error.Error?
  {
    hide Tried;
    FoundIffHas(id, name);
    error := Error("");
    var own := FindRecipe(id.recipes, name);
    if own.Some? {
      assert RecipeAnswered(id, peers, name, outcome, RecipeAnswer(own.value.source));
      return Some(own.value.source), error;
    }
    var fetched := HandleGetRecipe(id, peers, name, outcome);
    match fetched {
      case RecipeAnswer(source) => text := Some(source);
      case Error(m) => text, error := None, Error("fetch recipe: " + m);
      case _ => text, error := None, Error("unexpected get_recipe response");
    }
  }

  /** The last frame: the answer of the drive, or what comes through the channel in time. */
  function Final(name: string, answer: TcpMessage, signal: Option<TcpMessage>): TcpMessage {
    if IsPlaceholder(answer) then
      Stamped(name, if signal.Some? then signal.value else Error("order timed out waiting for deliver"))
    else answer
  }

  /** The frames of an order after its receipt, and the payload it sets on its way. */
  ghost predicate OrderRan(id: Identity, peers: PeerTable, name: string, orderId: string, now: nat,
                           outcome: Addr -> Attempt, written: Option<string>, signal: Option<TcpMessage>,
                           text: Option<string>, rest: seq<TcpMessage>, driven: Option<Payload>) {
    && driven == (if text.Some? then PayloadFor(text.value, name, orderId, id.addr, now) else None)
    && (rest == [] <==> text.Some? && ParseRecipes(text.value).Panicked?)
    && (driven.None? && rest != [] ==> |rest| == 1 && rest[0].Error?)
    && (driven.Some? ==> exists answer ::
        ProcessAnswer(id, peers, name, driven.value, outcome, written, answer) && rest == [Final(name, answer, signal)])
  }

  /** All that `handle_order` may write: a refusal, a failed receipt, or the receipt and the rest. */
  ghost predicate OrderFrames(id: Identity, peers: PeerTable, name: string, orderId: string, now: nat,
                              receiptFails: Option<string>, outcome: Addr -> Attempt, written: Option<string>,
                              signal: Option<TcpMessage>, frames: seq<TcpMessage>, driven: Option<Payload>) {
    if !HasRecipe(id, name) && RecipePeers(peers, name) == {} then
      frames == [OrderDeclined("Unknown recipe")] && driven.None?
    else if receiptFails.Some? then
      frames == [Error("send receipt: " + receiptFails.value)] && driven.None?
    else exists text ::
      && Fetched(id, peers, name, outcome, text) && frames != [] && frames[0] == OrderReceipt(orderId)
      && OrderRan(id, peers, name, orderId, now, outcome, written, signal, text, frames[1..], driven)
  }

  /** Neither this node nor any peer it knows of has a recipe of that name. */
  predicate UnknownRecipe(id: Identity, peers: PeerTable, name: string) {
    && (forall r :: r in id.recipes ==> r.name != name)
    && (forall a :: a in peers ==> name !in peers[a].recipes)
  }

  lemma UnknownRecipeIff(id: Identity, peers: PeerTable, name: string)
    ensures UnknownRecipe(id, peers, name) <==> !HasRecipe(id, name) && RecipePeers(peers, name) == {}
  {
    if !HasRecipe(id, name) {
      forall r | r in id.recipes ensures r.name != name { FoundIffHas(id, name); }
    }
    assert forall a :: a in peers && name in peers[a].recipes ==> a in RecipePeers(peers, name);
  }

  /** `handle_order` on one node, with the frames written to its client. The fresh id, the clock
      and the network are given; `signal` is what the channel yields before the time is up, and
      `driven` the payload that was set on its way. A panic leaves the receipt the only frame.
      The entry stays behind exactly if there is a receipt but no payload. */
  method HandleOrder(id: Identity, peers: PeerTable, pending: PendingOrders, name: string, orderId: string, now: nat,
                     receiptFails: Option<string>, outcome: Addr -> Attempt, written: Option<string>,
                     signal: Option<TcpMessage>)
    returns (frames: seq<TcpMessage>, driven: Option<Payload>)
    requires pending.Valid() && orderId !in pending.entries
    modifies pending
    ensures pending.Valid()
    ensures OrderFrames(id, peers, name, orderId, now, receiptFails, outcome, written, signal, frames, driven)
    ensures frames != []
    ensures frames[0].OrderDeclined? <==> UnknownRecipe(id, peers, name)
    ensures forall o :: o in old(pending.entries) ==>
      o in pending.entries && pending.entries[o] == old(pending.entries)[o]
    ensures pending.entries.Keys ==
      old(pending.entries).Keys + if driven.None? && frames[0].OrderReceipt? then {orderId} else {}
  {
    hide HasRecipe, ParseRecipes, Flatten, FindRecipe, RecipePeers, Fetched, Processed, OrderRan, UnknownRecipe;
    driven := None;
    UnknownRecipeIff(id, peers, name);
    var known := IsKnown(id, peers, name);
    if !known {
      return [OrderDeclined("Unknown recipe")], None;
    }
    if receiptFails.Some? {
      return [Error("send receipt: " + receiptFails.value)], None;
    }
    frames := [OrderReceipt(orderId)];
    var channel := pending.Register(orderId);
    var text, error := FetchText(id, peers, name, outcome);
    ghost var receipt := frames;
    var rest;
    rest, driven := RunOrder(id, peers, name, orderId, now, outcome, written, signal, text, error);
    frames := frames + rest;
    assert frames[1..] == rest;
    if driven.Some? {
      pending.Remove(orderId);
    }
  }

  /** Parse, drive and wait. */
  method RunOrder(id: Identity, peers: PeerTable, name: string, orderId: string, now: nat,
                  outcome: Addr -> Attempt, written: Option<string>, signal: Option<TcpMessage>,
                  text: Option<string>, error: TcpMessage)
    returns (rest: seq<TcpMessage>, driven: Option<Payload>)
    requires error.Error?
    ensures OrderRan(id, peers, name, orderId, now, outcome, written, signal, text, rest, driven)
  {
    hide ParseRecipes, Flatten, FindRecipe, Processed;
    if text.None? {
      return [error], None;
    }
    if ParseRecipes(text.value).Panicked? {
      return [], None;
    }
    driven := PayloadFor(text.value, name, orderId, id.addr, now);
    if driven.None? {
      return [Error("recipe '" + name + "' not found after fetch")], None;
    }
    var answer, p, sent, delivery := HandleProcessPayload(id, peers, name, driven.value, outcome, written);
    assert ProcessAnswer(id, peers, name, driven.value, outcome, written, answer);
    if IsPlaceholder(answer) {
      answer := Stamped(name, if signal.Some? then signal.value else Error("order timed out waiting for deliver"));
    }
    rest := [answer];
  }
}
