/** The handlers of one node against the step system: what a handler computes in one go is what its
    thread comes to step by step. */
module HandlerSteps {
  import opened Text
  import opened Recipe
  import opened RecipeSpec
  import opened Gossip
  import opened Orders
  import opened OrderSystem
  import opened OrderInvariant
  import opened Handlers

  // ── The first frame ───────────────────────────────────────────────────────────

  /** An order is declined exactly if nobody known has the recipe; it is entered in the map exactly
      with its receipt; and there is no third first frame but an error. */
  lemma DeclinedIffUnknown(id: Identity, peers: PeerTable, t: Thread, e: Effect)
    requires t.kind.OrderKind? && t.frames == [] && BeginOrder(id, peers, t, e)
    ensures e.thread.frames != [] && var first := e.thread.frames[0];
      && (first == OrderDeclined("Unknown recipe") <==> UnknownRecipe(id, peers, t.kind.name))
      && (first == OrderReceipt(t.orderId) <==> e.registers)
      && (first == OrderDeclined("Unknown recipe") || first == OrderReceipt(t.orderId) || first.Error?)
  {
    hide HasRecipe, RecipePeers, UnknownRecipe;
    UnknownRecipeIff(id, peers, t.kind.name);
  }

  // ── The payload an order sets on its way ──────────────────────────────────────

  /** It is what the text is read as, in full, at its start, for this order on this node. */
  lemma PayloadIsWhatIsRead(text: string, name: string, orderId: string, host: Addr, now: nat, p: Payload)
    ensures PayloadFor(text, name, orderId, host, now) == Some(p) <==>
      && ReadsAs(text, name, p.sequence)
      && p.orderId == orderId && p.timestamp == now && p.host == host
      && p.index == 0 && p.content == "" && p.updates == []
  {
    hide ParseRecipes, FindRecipe, Flatten;
  }

  /** And it is the one the order's thread goes on with. */
  lemma DriveBeginsWithIt(t: Thread, text: string, p: Payload)
    requires t.kind.OrderKind?
    ensures PayloadFor(text, t.kind.name, t.orderId, t.node, p.timestamp) == Some(p) <==>
      BeginDrive(t, RecipeAnswer(text), Become(t, Arrived(p)).(created := Some(p)))
  {
    hide ParseRecipes, FindRecipe, Flatten;
    var e := Become(t, Arrived(p)).(created := Some(p));
    assert !Fails(t, e) by { assert e.thread.phase.Arrived?; }
  }

  /** Without a payload the thread ends in an error, or dies if the parser panics. */
  lemma NoPayloadEnds(t: Thread, text: string, now: nat, e: Effect)
    requires t.kind.OrderKind? && PayloadFor(text, t.kind.name, t.orderId, t.node, now).None?
    ensures BeginDrive(t, RecipeAnswer(text), e) <==>
      if ParseRecipes(text).Panicked? then e == Become(t, Crashed) else Fails(t, e)
  {
    hide ParseRecipes, FindRecipe, Flatten, Fails;
  }

  // ── The last frame ────────────────────────────────────────────────────────────

  /** The thread that has written `m` as its last frame, and is gone from the map. */
  function Ended(t: Thread, m: TcpMessage): Effect {
    Only(t.(frames := t.frames + [m], phase := Returned)).(removes := true)
  }

  /** An answer that is no placeholder is the last frame as it stands. */
  lemma AnswerSettles(t: Thread, answer: TcpMessage, signal: Option<TcpMessage>, e: Effect)
    requires t.kind.OrderKind? && !IsPlaceholder(answer)
    ensures Settle(t, answer, e) <==> e == Ended(t, Final(t.kind.name, answer, signal))
  {}

  /** After a placeholder the thread parks; what then comes through the channel ends it with the
      same frame. */
  lemma SignalEnds(w: Work, t: Thread, answer: TcpMessage, m: TcpMessage, e: Effect)
    requires t.kind.OrderKind? && IsPlaceholder(answer)
    requires t.orderId in w.channel && w.channel[t.orderId] != [] && w.channel[t.orderId][0] == m
    ensures Settle(t, answer, e) <==> e == Become(t, Parked)
    ensures WakeUp(w, t, e) <==> e == Become(t, Woken(m))
    ensures Answer(t, m, e) <==> e == Ended(t, Final(t.kind.name, answer, Some(m)))
  {}

  /** If nothing comes in time, that is an error. */
  lemma TimeoutEnds(w: Work, t: Thread, answer: TcpMessage)
    requires t.kind.OrderKind? && IsPlaceholder(answer)
    requires t.orderId in w.channel && w.channel[t.orderId] == []
    ensures exists m ::
      WakeUp(w, t, Become(t, Woken(m))) && Answer(t, m, Ended(t, Final(t.kind.name, answer, None)))
  {
    var m := Error("order timed out waiting for deliver");
    assert WakeUp(w, t, Become(t, Woken(m)));
  }

  // ── What is sent on the way ───────────────────────────────────────────────────

  /** A finished payload is delivered as the step system delivers it. */
  lemma FinishedIsFinish(id: Identity, peers: PeerTable, t: Thread, start: Payload, outcome: Addr -> Attempt,
                         written: Option<string>, answer: TcpMessage, p: Payload, sent: seq<(Addr, Payload)>,
                         delivery: Option<DeliverMsg>)
    requires Processed(id, peers, Label(t), start, outcome, written, answer, p, sent, delivery)
    requires p.index >= |p.sequence|
    ensures RunHere(id, peers, t, start, Become(t, Finishing(p)))
    ensures delivery.Some? && exists e: Effect :: e.thread.phase == Driven(answer) && Finish(t, p, e)
  {
    hide LocalRun;
    assert AfterRun(peers, t, p, Become(t, Finishing(p)));
    CopyIsCopy(p, p.host, delivery.value.payload);
    var now :| delivery.value.payload == Copy(p, p.host, now);
    var e := Become(t, Driven(answer)).(delivered := if written.None? then delivery else None);
    assert Delivers(t, DeliverMsg(Copy(p, p.host, now), None), e);
  }

  /** An unfinished one nobody took is reported as the step system reports it. */
  lemma GivenUpIsReported(id: Identity, ids: Cluster, peers: PeerTable, w: Work, i: nat, t: Thread, start: Payload,
                          outcome: Addr -> Attempt, written: Option<string>, answer: TcpMessage, p: Payload,
                          sent: seq<(Addr, Payload)>, delivery: Option<DeliverMsg>)
    requires Processed(id, peers, Label(t), start, outcome, written, answer, p, sent, delivery)
    requires p.index < |p.sequence| && delivery.Some?
    ensures NoAnswer(CapablePeers(peers, p.sequence[p.index].name), outcome)
    ensures exists e: Effect :: e.thread.phase == Driven(answer) && TryNext(ids, w, i, t, p, [], e)
  {
    hide LocalRun, CopiesSent;
    var e := Become(t, Driven(answer)).(delivered := if written.None? then delivery else None);
    assert Delivers(t, delivery.value, e);
    assert TryNext(ids, w, i, t, p, [], e);
  }

  /** An unfinished one that was taken is answered with what a peer that can go on answered. */
  lemma TakenIsAnswered(id: Identity, peers: PeerTable, recipeName: string, start: Payload, outcome: Addr -> Attempt,
                        written: Option<string>, answer: TcpMessage, p: Payload, sent: seq<(Addr, Payload)>)
    requires Processed(id, peers, recipeName, start, outcome, written, answer, p, sent, None)
    ensures p.index < |p.sequence|
    ensures exists a :: a in CapablePeers(peers, p.sequence[p.index].name) && outcome(a) == Answered(answer)
  {
    hide LocalRun, CopiesSent;
    var capable := CapablePeers(peers, p.sequence[p.index].name);
    var reached :| Tried(capable, outcome, Some(answer), reached) && CopiesSent(p, reached, sent);
    var order :| IsOrderOf(order, capable) && reached == ReachedBy(order, Outcomes(order, outcome))
      && exists k :: 0 <= k < |order| && Outcomes(order, outcome)[k] == Answered(answer);
    var k :| 0 <= k < |order| && Outcomes(order, outcome)[k] == Answered(answer);
    assert order[k] in capable;
  }
}
