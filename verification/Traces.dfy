/** How a trace reads after more entries have been appended to it. */
module Traces {
  import opened Counting
  import opened Recipe
  import opened Gossip
  import opened Orders

  lemma {:induction false} ContentConcat(a: seq<ActionDef>, b: seq<ActionDef>)
    ensures ContentOf(a + b) == ContentOf(a) + ContentOf(b)
  {
    hide Line;
    if b == [] {
      assert a + b == a;
    } else {
      var init := b[..|b| - 1];
      assert (a + b)[..|a + b| - 1] == a + init && (a + b)[|a + b| - 1] == b[|b| - 1];
      ContentConcat(a, init);
    }
  }

  /** No line break in the name or a parameter. */
  predicate OneLine(a: ActionDef) {
    '\n' !in a.name && forall key :: key in a.params ==> '\n' !in a.params[key]
  }

  /** How many of the actions are seen in the content. */
  function Shown(actions: seq<ActionDef>): nat {
    if actions == [] then 0
    else Shown(actions[..|actions| - 1]) + if actions[|actions| - 1].name == "MakeDough" then 0 else 1
  }

  /** The content is one whole line for each action but the dough's. */
  lemma {:induction false} ContentIsLines(actions: seq<ActionDef>)
    requires forall a :: a in actions ==> OneLine(a)
    ensures Count('\n', ContentOf(actions)) == Shown(actions)
    ensures var content := ContentOf(actions); content != "" ==> content[|content| - 1] == '\n'
  {
    hide Line, OneLine;
    if actions != [] {
      var init, last := actions[..|actions| - 1], actions[|actions| - 1];
      assert last in actions;
      ContentIsLines(init);
      LineIsOne(last);
      CountConcat('\n', ContentOf(init), Line(last));
    }
  }

  lemma LineIsOne(a: ActionDef)
    requires OneLine(a)
    ensures Count('\n', Line(a)) == if a.name == "MakeDough" then 0 else 1
    ensures if a.name == "MakeDough" then Line(a) == "" else Line(a) != "" && Line(a)[|Line(a)| - 1] == '\n'
  {
    hide Worded, Told;
    ToldUnbroken(a);
    WordedUnbroken(a.name, Told(a));
    CountNone('\n', Worded(a.name, Told(a)));
    CountConcat('\n', Worded(a.name, Told(a)), "\n");
  }

  lemma ToldUnbroken(a: ActionDef)
    requires OneLine(a)
    ensures '\n' !in a.name && '\n' !in Told(a)
  {
    hide ParamOr;
    ParamUnbroken(a, "base_type", "unknown");
    ParamUnbroken(a, "amount", "1");
    ParamUnbroken(a, "slices", "0");
    ParamUnbroken(a, "duration", "0");
  }

  lemma ParamUnbroken(a: ActionDef, key: string, default: string)
    requires OneLine(a)
    ensures '\n' !in default ==> '\n' !in ParamOr(a, key, default)
  {}

  lemma WordedUnbroken(name: string, told: string)
    requires '\n' !in name && '\n' !in told
    ensures '\n' !in Worded(name, told)
  {
    hide PlainlyWorded;
    PlainUnbroken(name);
  }

  lemma PlainUnbroken(name: string)
    requires '\n' !in name
    ensures '\n' !in PlainlyWorded(name)
  {}

  lemma ForwardAppended(ids: Cluster, host: Addr, us: seq<Update>, peer: Addr, now: nat)
    ensures var us' := us + [Forward(peer, now)];
      && ActionsOf(us') == ActionsOf(us) && HopsOf(us') == HopsOf(us) + [peer]
      && HolderOf(host, us') == peer
      && (Attributed(ids, host, us') <==> Attributed(ids, host, us))
  {
    var us' := us + [Forward(peer, now)];
    assert us'[..|us'| - 1] == us;
  }

  predicate AllRunAt(ids: Cluster, node: Addr, actions: seq<ActionDef>) {
    node in ids && forall a :: a in actions ==> CanRun(ids[node], a)
  }

  lemma {:induction false} RecordsAppended(ids: Cluster, host: Addr, us: seq<Update>, entries: seq<Update>,
                                           actions: seq<ActionDef>)
    requires Records(entries, actions)
    ensures var us' := us + entries;
      && ActionsOf(us') == ActionsOf(us) + actions && HopsOf(us') == HopsOf(us)
      && HolderOf(host, us') == HolderOf(host, us)
    ensures Attributed(ids, host, us) && AllRunAt(ids, HolderOf(host, us), actions) ==>
      Attributed(ids, host, us + entries)
  {
    var us' := us + entries;
    if entries == [] {
      assert us' == us && actions == [];
    } else {
      var n := |entries| - 1;
      RecordsAppended(ids, host, us, entries[..n], actions[..n]);
      assert us'[..|us'| - 1] == us + entries[..n] && us'[|us'| - 1] == entries[n];
      assert actions == actions[..n] + [actions[n]];
    }
  }

  /** A payload in progress: created as `born`, its first `index` actions done and recorded,
      each by a node that can run it. */
  predicate InProgress(ids: Cluster, born: Payload, p: Payload) {
    && SameOrder(born, p)
    && p.index <= |p.sequence|
    && p.content == ContentOf(p.sequence[..p.index])
    && ActionsOf(p.updates) == p.sequence[..p.index]
    && Attributed(ids, p.host, p.updates)
  }

  /** Running actions on the node that holds the payload keeps it in order and moves it
      nowhere. */
  lemma RunKeepsProgress(ids: Cluster, born: Payload, p: Payload, q: Payload)
    requires InProgress(ids, born, p)
    requires HolderOf(p.host, p.updates) in ids && LocalRun(ids[HolderOf(p.host, p.updates)], p, q)
    ensures InProgress(ids, born, q)
    ensures HolderOf(q.host, q.updates) == HolderOf(p.host, p.updates) && HopsOf(q.updates) == HopsOf(p.updates)
    ensures p.index <= q.index
  {
    hide ContentOf, ActionsOf, HopsOf, HolderOf, Attributed;
    if p.index < |p.sequence| {
      var actions := p.sequence[p.index..q.index];
      var entries := q.updates[|p.updates|..];
      assert q.updates == p.updates + entries;
      RecordsAppended(ids, p.host, p.updates, entries, actions);
      ContentConcat(p.sequence[..p.index], actions);
      assert p.sequence[..p.index] + actions == p.sequence[..q.index];
    }
  }

  lemma CopyKeepsProgress(ids: Cluster, born: Payload, p: Payload, peer: Addr, now: nat)
    requires InProgress(ids, born, p)
    ensures var q := p.(updates := p.updates + [Forward(peer, now)]);
      InProgress(ids, born, q) && HolderOf(q.host, q.updates) == peer && HopsOf(q.updates) == HopsOf(p.updates) + [peer]
  {
    ForwardAppended(ids, p.host, p.updates, peer, now);
  }
}
