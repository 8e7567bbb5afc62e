/** Payloads: what a node does to one, what a delivery makes of one, and the loops and shared
    map of the order handlers. */
module Orders {
  import opened Text
  import opened Recipe
  import opened Gossip

  datatype Update =
    | Forward(to: Addr, forwardedAt: nat)
    | Action(action: ActionDef, executedAt: nat)
    | Deliver(deliveredAt: nat)

  datatype Payload = Payload(orderId: string, timestamp: nat, host: Addr, index: nat,
                             sequence: seq<ActionDef>, content: string, updates: seq<Update>)

  /** What `CompletedOrder.result` serialises; `build_result` is an injective record here. */
  datatype OrderResult = OrderResult(orderId: string, timestamp: nat, content: string, updates: seq<Update>)

  /** The TCP answers. A `CompletedOrder` whose result is the empty string has `None`. */
  datatype TcpMessage =
    | OrderReceipt(orderId: string)
    | OrderDeclined(reason: string)
    | CompletedOrder(recipeName: string, result: Option<OrderResult>)
    | FailedOrder(failedRecipe: string, error: string)
    | RecipeAnswer(recipe: string)
    | Error(message: string)

  // ── Actions ───────────────────────────────────────────────────────────────────

  function ParamOr(a: ActionDef, key: string, default: string): string {
    if key in a.params then a.params[key] else default
  }

  /** The parameter that is told of an action, if any. */
  function Told(a: ActionDef): string {
    if a.name == "AddBase" then ParamOr(a, "base_type", "unknown")
    else if a.name == "AddCheese" then ParamOr(a, "amount", "1")
    else if a.name == "AddPepperoni" then ParamOr(a, "slices", "0")
    else if a.name == "Bake" then ParamOr(a, "duration", "0")
    else ""
  }

  /** In which words. */
  function Worded(name: string, told: string): string {
    if name == "AddBase" then "Dough + Base(" + told + "): ready"
    else if name == "AddCheese" then "Cheese x" + told
    else if name == "AddPepperoni" then "Pepperoni slices x" + told
    else if name == "Bake" then "Baked(" + told + ")"
    else PlainlyWorded(name)
  }

  function PlainlyWorded(name: string): string {
    if name == "AddOliveOil" then "OliveOil: added"
    else if name == "AddMushrooms" then "Mushrooms: added"
    else if name == "AddBasil" then "Basil: added"
    else if name == "AddGarlic" then "Garlic: added"
    else if name == "AddOregano" then "Oregano: added"
    else name + ": done"
  }

  /** The line an action adds to the content; `MakeDough` adds none. */
  function Line(a: ActionDef): string {
    if a.name == "MakeDough" then "" else Worded(a.name, Told(a)) + "\n"
  }

  /** The content of a pizza after these actions. */
  function ContentOf(actions: seq<ActionDef>): string {
    if actions == [] then ""
    else ContentOf(actions[..|actions| - 1]) + Line(actions[|actions| - 1])
  }

  predicate CanRun(id: Identity, a: ActionDef) {
    a.name in id.capabilities
  }

  // ── Reading a trace ───────────────────────────────────────────────────────────

  /** The actions a trace records, in order. */
  function ActionsOf(us: seq<Update>): seq<ActionDef> {
    if us == [] then []
    else
      var u := us[|us| - 1];
      ActionsOf(us[..|us| - 1]) + (if u.Action? then [u.action] else [])
  }

  /** The nodes a trace says the payload was forwarded to, in order. */
  function HopsOf(us: seq<Update>): seq<Addr> {
    if us == [] then []
    else
      var u := us[|us| - 1];
      HopsOf(us[..|us| - 1]) + (if u.Forward? then [u.to] else [])
  }

  /** Where the payload is after the trace: the last node it was forwarded to, or its host. */
  function HolderOf(host: Addr, us: seq<Update>): Addr {
    if us == [] then host
    else
      var u := us[|us| - 1];
      if u.Forward? then u.to else HolderOf(host, us[..|us| - 1])
  }

  /** Every recorded action was run by the node named in the nearest preceding `Forward` (the
      host if there is none), and that node can run it; nothing is delivered yet. */
  predicate Attributed(ids: map<Addr, Identity>, host: Addr, us: seq<Update>) {
    us == [] ||
    var u, before := us[|us| - 1], us[..|us| - 1];
    && Attributed(ids, host, before)
    && !u.Deliver?
    && (u.Action? ==> HolderOf(host, before) in ids && CanRun(ids[HolderOf(host, before)], u.action))
  }

  // ── Running actions on one node ───────────────────────────────────────────────

  /** The payload was created for this order and nothing but its progress has changed since. */
  predicate SameOrder(p: Payload, q: Payload) {
    p.orderId == q.orderId && p.timestamp == q.timestamp && p.host == q.host && p.sequence == q.sequence
  }

  /** The trace entries record exactly these actions, at whatever times. */
  predicate Records(entries: seq<Update>, actions: seq<ActionDef>) {
    |entries| == |actions|
    && forall j :: 0 <= j < |entries| ==> entries[j].Action? && entries[j].action == actions[j]
  }

  /** `q` is `p` after a node has run the actions from `p.index` to `q.index`. */
  predicate Ran(id: Identity, p: Payload, q: Payload) {
    && SameOrder(p, q)
    && p.index <= q.index <= |p.sequence|
    && var actions := p.sequence[p.index..q.index];
    && (forall a :: a in actions ==> CanRun(id, a))
    && q.content == p.content + ContentOf(actions)
    && p.updates <= q.updates && Records(q.updates[|p.updates|..], actions)
  }

  /** `q` is `p` after a node has run every action it can, one after the other. */
  predicate LocalRun(id: Identity, p: Payload, q: Payload) {
    if p.index >= |p.sequence| then q == p
    else Ran(id, p, q) && (q.index == |q.sequence| || !CanRun(id, q.sequence[q.index]))
  }

  /** One turn of the loop. */
  function Executed(p: Payload, now: nat): Payload
    requires p.index < |p.sequence|
  {
    var action := p.sequence[p.index];
    p.(content := p.content + Line(action), updates := p.updates + [Action(action, now)], index := p.index + 1)
  }

  lemma OneMoreTold(actions: seq<ActionDef>, a: ActionDef)
    ensures ContentOf(actions + [a]) == ContentOf(actions) + Line(a)
  {
    assert (actions + [a])[..|actions|] == actions;
  }

  lemma RanOneMore(id: Identity, p: Payload, q: Payload, now: nat)
    requires Ran(id, p, q) && q.index < |q.sequence| && CanRun(id, q.sequence[q.index])
    ensures Ran(id, p, Executed(q, now))
  {
    hide Line, ContentOf, CanRun;
    var next := Executed(q, now);
    var action := q.sequence[q.index];
    assert p.sequence[p.index..next.index] == p.sequence[p.index..q.index] + [action];
    OneMoreTold(p.sequence[p.index..q.index], action);
    assert next.updates[|p.updates|..] == q.updates[|p.updates|..] + [Action(action, now)];
  }

  // ── Delivery ──────────────────────────────────────────────────────────────────

  function BuildResult(p: Payload): OrderResult {
    OrderResult(p.orderId, p.timestamp, p.content, p.updates)
  }

  datatype DeliverMsg = DeliverMsg(payload: Payload, error: Option<string>)

  /** What `handle_deliver` puts on the order's channel. */
  function SignalAt(d: DeliverMsg, now: nat): TcpMessage {
    match d.error
    case Some(e) => FailedOrder("", e)
    case None => CompletedOrder("", Some(BuildResult(d.payload.(updates := d.payload.updates + [Deliver(now)]))))
  }

  function UnavailableError(a: ActionDef): string {
    "Action " + a.name + " not available"
  }

  /** `handle_order` puts the recipe's name on what came through the channel. */
  function Stamped(recipeName: string, m: TcpMessage): TcpMessage {
    match m
    case CompletedOrder(_, r) => CompletedOrder(recipeName, r)
    case FailedOrder(_, e) => FailedOrder(recipeName, e)
    case other => other
  }

  // ── The loops ─────────────────────────────────────────────────────────────────

  method NowMicros() returns (now: nat) {
    now := *;
  }

  /** The action loop of `handle_process_payload`, up to where it forwards or delivers. */
  method ExecuteLocally(id: Identity, start: Payload) returns (payload: Payload)
    ensures LocalRun(id, start, payload)
  {
    payload := start;
    assert start.index <= |start.sequence| ==> start.sequence[start.index..start.index] == [];
    while payload.index < |payload.sequence| && CanRun(id, payload.sequence[payload.index])
      invariant if start.index >= |start.sequence| then payload == start else Ran(id, start, payload)
      decreases |payload.sequence| - payload.index
    {
      var action := payload.sequence[payload.index];
      var now := NowMicros();
      RanOneMore(id, start, payload, now);
      payload := payload.(content := payload.content + Line(action),
                          updates := payload.updates + [Action(action, now)],
                          index := payload.index + 1);
    }
  }

  /** How one attempt to hand a request to a peer can end. */
  datatype Attempt = NotReached | Lost | Answered(answer: TcpMessage)

  /** No peer up to position `k` has answered. */
  predicate Unanswered(attempts: seq<Attempt>, k: nat) {
    forall j :: 0 <= j < k && j < |attempts| ==> !attempts[j].Answered?
  }

  /** The copy handed to `peer`: the payload and one `Forward` entry. */
  predicate IsCopyFor(payload: Payload, peer: Addr, copy: Payload) {
    && |copy.updates| == |payload.updates| + 1
    && var last := copy.updates[|payload.updates|];
    && last.Forward? && last.to == peer
    && copy == payload.(updates := payload.updates + [last])
  }

  /** The peers that get a request when peers are tried in order until one answers: every peer
      reached up to and including the one that answers. */
  function ReachedBy(candidates: seq<Addr>, attempts: seq<Attempt>): seq<Addr>
    requires |attempts| == |candidates|
  {
    if candidates == [] then []
    else if attempts[0].Answered? then [candidates[0]]
    else (if attempts[0] == NotReached then [] else [candidates[0]]) + ReachedBy(candidates[1..], attempts[1..])
  }

  /** They are the candidates that were reached before any answer, and no others. */
  lemma {:induction false} ReachedAre(candidates: seq<Addr>, attempts: seq<Attempt>, a: Addr)
    requires |attempts| == |candidates|
    ensures a in ReachedBy(candidates, attempts) <==>
      exists k :: 0 <= k < |candidates| && candidates[k] == a && Unanswered(attempts, k) && attempts[k] != NotReached
  {
    if candidates != [] && !attempts[0].Answered? {
      ReachedAre(candidates[1..], attempts[1..], a);
      if k :| 0 <= k < |candidates| && candidates[k] == a && Unanswered(attempts, k) && attempts[k] != NotReached {
        if k > 0 {
          assert candidates[1..][k - 1] == a && attempts[1..][k - 1] != NotReached;
          assert forall j :: 0 <= j < k - 1 ==> attempts[1..][j] == attempts[j + 1];
          assert Unanswered(attempts[1..], k - 1);
        }
      }
      var cs, ts := candidates[1..], attempts[1..];
      if k :| 0 <= k < |cs| && cs[k] == a && Unanswered(ts, k) && ts[k] != NotReached {
        assert forall j :: 1 <= j < k + 1 ==> attempts[j] == ts[j - 1];
        assert candidates[k + 1] == a && Unanswered(attempts, k + 1) && attempts[k + 1] != NotReached;
      }
    } else if candidates != [] {
      assert Unanswered(attempts, 0);
      assert forall k :: 0 < k < |candidates| ==> !Unanswered(attempts, k);
    }
  }

  /** What was sent: one copy of the payload to each of these peers, in this order. */
  predicate CopiesSent(payload: Payload, peers: seq<Addr>, sent: seq<(Addr, Payload)>) {
    && |sent| == |peers|
    && forall k :: 0 <= k < |sent| ==> sent[k].0 == peers[k] && IsCopyFor(payload, peers[k], sent[k].1)
  }

  /** `try_forward_payload`: peers are tried in order until one answers, and that answer is
      the result. Every peer reached gets the payload with one `Forward` entry of its own;
      attempts that failed before it leave no entry. */
  method TryForwardPayload(payload: Payload, candidates: seq<Addr>, attempts: seq<Attempt>)
    returns (response: Option<TcpMessage>, sent: seq<(Addr, Payload)>)
    requires |attempts| == |candidates|
    ensures response.None? <==> Unanswered(attempts, |attempts|)
    ensures forall k :: 0 <= k < |attempts| && Unanswered(attempts, k) && attempts[k].Answered? ==>
      response == Some(attempts[k].answer)
    ensures CopiesSent(payload, ReachedBy(candidates, attempts), sent)
  {
    hide IsCopyFor, ReachedBy, CopiesSent;
    sent := [];
    ghost var reached := [];
    NothingSent(payload);
    assert candidates[0..] == candidates && attempts[0..] == attempts;
    for i := 0 to |candidates|
      invariant Unanswered(attempts, i)
      invariant CopiesSent(payload, reached, sent)
      invariant reached + ReachedBy(candidates[i..], attempts[i..]) == ReachedBy(candidates, attempts)
    {
      var now := NowMicros();
      var forwarded := payload.(updates := payload.updates + [Forward(candidates[i], now)]);
      ReachedOne(candidates, attempts, i);
      SentOneMore(payload, candidates[i], now, reached, sent);
      if attempts[i] != NotReached {
        sent := sent + [(candidates[i], forwarded)];
        reached := reached + [candidates[i]];
      }
      if attempts[i].Answered? {
        return Some(attempts[i].answer), sent;
      }
    }
    ReachedOne(candidates, attempts, |candidates|);
    assert reached + [] == reached;
    return None, sent;
  }

  lemma NothingSent(payload: Payload)
    ensures CopiesSent(payload, [], [])
  {}

  lemma SentOneMore(payload: Payload, peer: Addr, now: nat, reached: seq<Addr>, sent: seq<(Addr, Payload)>)
    requires CopiesSent(payload, reached, sent)
    ensures var forwarded := payload.(updates := payload.updates + [Forward(peer, now)]);
      CopiesSent(payload, reached + [peer], sent + [(peer, forwarded)])
  {}

  /** One turn of the loop. */
  lemma ReachedOne(candidates: seq<Addr>, attempts: seq<Attempt>, i: nat)
    requires |attempts| == |candidates| && i <= |candidates|
    ensures ReachedBy(candidates[i..], attempts[i..]) ==
      if i == |candidates| then []
      else if attempts[i].Answered? then [candidates[i]]
      else
        (if attempts[i] == NotReached then [] else [candidates[i]]) + ReachedBy(candidates[i + 1..], attempts[i + 1..])
  {
    if i < |candidates| {
      assert candidates[i..][1..] == candidates[i + 1..] && attempts[i..][1..] == attempts[i + 1..];
    }
  }

  // ── The map of waiting orders ─────────────────────────────────────────────────

  /** A channel with room for one message. Sending with the slot taken would block. */
  class Channel {
    var queue: seq<TcpMessage>

    constructor ()
      ensures queue == []
    {
      queue := [];
    }

    method Send(m: TcpMessage)
      requires queue == []
      modifies this
      ensures queue == [m]
    {
      queue := [m];
    }
  }

  /** `pending_orders`: every access below is under its lock. */
  class PendingOrders {
    var entries: map<string, Channel>

    ghost predicate Valid()
      reads this, entries.Values
    {
      && (forall id :: id in entries ==> entries[id].queue == [])
      && (forall i, j :: i in entries && j in entries && i != j ==> entries[i] != entries[j])
    }

    constructor ()
      ensures Valid() && entries == map[]
    {
      entries := map[];
    }

    method Register(orderId: string) returns (channel: Channel)
      requires Valid() && orderId !in entries
      modifies this
      ensures Valid() && fresh(channel) && channel.queue == []
      ensures entries == old(entries)[orderId := channel]
    {
      channel := new Channel();
      entries := entries[orderId := channel];
    }

    /** The entry is taken out before its one message is sent, so `Send` finds the slot free:
        it cannot block while the lock is held. A second delivery finds no entry. */
    method HandleDeliver(d: DeliverMsg, now: nat) returns (known: bool)
      requires Valid()
      modifies this, entries.Values
      ensures Valid()
      ensures known <==> d.payload.orderId in old(entries)
      ensures entries == old(entries) - {d.payload.orderId}
      ensures known ==> old(entries)[d.payload.orderId].queue == [SignalAt(d, now)]
      ensures forall id :: id in old(entries) && id != d.payload.orderId ==> old(entries)[id].queue == []
    {
      var orderId := d.payload.orderId;
      known := orderId in entries;
      if known {
        var tx := entries[orderId];
        entries := entries - {orderId};
        tx.Send(SignalAt(d, now));
      }
    }

    method Remove(orderId: string)
      requires Valid()
      modifies this
      ensures Valid() && entries == old(entries) - {orderId}
    {
      entries := entries - {orderId};
    }
  }
}
