/** services/query-realtime/internal/application/hub.go: a nested map of subscriptions stands for a flat set. */
module Hub {
  import opened Prelude

  datatype Subscription = Subscription(id: string, channelId: string, userId: string)

  type Nested = map<string, map<string, Subscription>>

  /** The (channel, subscription id) pairs the nested map holds. */
  function Flat(m: Nested): set<(string, string)> {
    set ch, id | ch in m && id in m[ch] :: (ch, id)
  }

  /** No channel is kept without subscribers, and every entry is filed under its own channel and id. */
  ghost predicate Tidy(m: Nested) {
    forall ch :: ch in m ==>
      m[ch] != map[] && forall id :: id in m[ch] ==> m[ch][id].id == id && m[ch][id].channelId == ch
  }

  function Subscribed(m: Nested, sub: Subscription): Nested {
    m[sub.channelId := (if sub.channelId in m then m[sub.channelId] else map[])[sub.id := sub]]
  }

  function Unsubscribed(m: Nested, sub: Subscription): Nested {
    if sub.channelId !in m then m
    else if m[sub.channelId] - {sub.id} == map[] then m - {sub.channelId}
    else m[sub.channelId := m[sub.channelId] - {sub.id}]
  }

  class SubscriptionHub {
    var subscriptions: Nested

    ghost predicate Valid()
      reads this
    {
      Tidy(subscriptions)
    }

    constructor ()
      ensures Valid() && subscriptions == map[]
    {
      subscriptions := map[];
    }

    method Subscribe(sub: Subscription)
      requires Valid()
      modifies this
      ensures Valid() && subscriptions == Subscribed(old(subscriptions), sub)
      ensures Flat(subscriptions) == old(Flat(subscriptions)) + {(sub.channelId, sub.id)}
      ensures forall ch, s ::
        Registered(subscriptions, ch, s)
        <==> (if SamePlace(sub, ch, s) then s == sub else Registered(old(subscriptions), ch, s))
    {
      SubscribedFlat(subscriptions, sub);
      SubscribedExactly(subscriptions, sub);
      if sub.channelId !in subscriptions {
        subscriptions := subscriptions[sub.channelId := map[]];
      }
      subscriptions := subscriptions[sub.channelId := subscriptions[sub.channelId][sub.id := sub]];
    }

    method Unsubscribe(sub: Subscription)
      requires Valid()
      modifies this
      ensures Valid() && subscriptions == Unsubscribed(old(subscriptions), sub)
      ensures Flat(subscriptions) == old(Flat(subscriptions)) - {(sub.channelId, sub.id)}
      ensures forall ch, s ::
        Registered(subscriptions, ch, s) <==> !SamePlace(sub, ch, s) && Registered(old(subscriptions), ch, s)
    {
      ghost var before := subscriptions;
      UnsubscribedFlat(before, sub);
      UnsubscribedExactly(before, sub);
      if sub.channelId in subscriptions {
        var subs := subscriptions[sub.channelId] - {sub.id};
        subscriptions := subscriptions[sub.channelId := subs];
        if |subs| == 0 {
          assert before[sub.channelId := subs] - {sub.channelId} == before - {sub.channelId};
          subscriptions := subscriptions - {sub.channelId};
        }
      }
    }

    method SubscriberCount(channelId: string) returns (n: nat)
      ensures n == |set id | channelId in subscriptions && id in subscriptions[channelId]|
    {
      n := if channelId in subscriptions then |subscriptions[channelId]| else 0;
      ghost var ids := set id | channelId in subscriptions && id in subscriptions[channelId];
      assert ids == if channelId in subscriptions then subscriptions[channelId].Keys else {};
    }

    method TotalSubscriptions() returns (total: nat)
      ensures total == |Flat(subscriptions)|
    {
      total := 0;
      var left := subscriptions;
      ghost var done: Nested := map[];
      assert Flat(done) == {};
      while left != map[]
        invariant left == subscriptions - done.Keys && done == subscriptions - left.Keys
        invariant total == |Flat(done)|
        decreases left.Keys
      {
        var ch := PickKey(left);
        FlatAdd(done, ch, subscriptions[ch]);
        total := total + |left[ch]|;
        left, done := left - {ch}, done[ch := subscriptions[ch]];
        assert ch !in left.Keys;
      }
      assert done == subscriptions;
    }

    /** The read-locked part of `Broadcast`: the channel's subscriptions as a list. */
    method Targets(channelId: string) returns (targets: seq<Subscription>)
      requires Valid()
      ensures Lists(targets, subscriptions, channelId)
    {
      targets := [];
      if channelId !in subscriptions { return; }
      var inner := subscriptions[channelId];
      var left := inner;
      while left != map[]
        invariant left.Keys <= inner.Keys && forall id :: id in left ==> left[id] == inner[id]
        invariant forall id :: id in inner && id !in left ==> inner[id] in targets
        invariant forall i :: 0 <= i < |targets| ==>
          targets[i].id in inner && targets[i].id !in left && inner[targets[i].id] == targets[i]
        invariant Distinct(targets)
        decreases left.Keys
      {
        var id := PickKey(left);
        targets := targets + [left[id]];
        left := left - {id};
        assert id !in left.Keys;
      }
    }
  }

  /** The list has each subscription registered for the channel exactly once. */
  ghost predicate Lists(targets: seq<Subscription>, m: Nested, channelId: string) {
    && Distinct(targets)
    && (forall s :: s in targets ==> Registered(m, channelId, s))
    && forall id :: channelId in m && id in m[channelId] ==> m[channelId][id] in targets
  }

  predicate Registered(m: Nested, channelId: string, s: Subscription) {
    channelId in m && s.id in m[channelId] && m[channelId][s.id] == s
  }

  /** The hub has one place for both: a channel has one subscription of an id. */
  predicate SamePlace(sub: Subscription, ch: string, s: Subscription) {
    ch == sub.channelId && s.id == sub.id
  }

  /** Subscribing registers the subscription as given, in the place of one with its id, and touches no other. */
  lemma SubscribedExactly(m: Nested, sub: Subscription)
    ensures forall ch, s ::
      Registered(Subscribed(m, sub), ch, s) <==> (if SamePlace(sub, ch, s) then s == sub else Registered(m, ch, s))
  {
  }

  /** Unsubscribing removes what is registered in that place, and touches no other. */
  lemma UnsubscribedExactly(m: Nested, sub: Subscription)
    ensures forall ch, s ::
      Registered(Unsubscribed(m, sub), ch, s) <==> !SamePlace(sub, ch, s) && Registered(m, ch, s)
  {
    if sub.channelId in m {
      var rest := m[sub.channelId] - {sub.id};
      forall s ensures Registered(Unsubscribed(m, sub), sub.channelId, s)
        <==> s.id != sub.id && Registered(m, sub.channelId, s)
      {
        assert s.id in rest <==> s.id in m[sub.channelId] && s.id != sub.id;
      }
    }
  }

  /** One channel's share of the flat set. */
  function Pairs(ch: string, ids: set<string>): set<(string, string)> {
    set id | id in ids :: (ch, id)
  }

  lemma FlatUnion(m: Nested, ch: string, inner: map<string, Subscription>)
    requires ch !in m
    ensures Flat(m[ch := inner]) == Flat(m) + Pairs(ch, inner.Keys) && Flat(m) !! Pairs(ch, inner.Keys)
  {
  }

  lemma FlatAdd(m: Nested, ch: string, inner: map<string, Subscription>)
    requires ch !in m
    ensures |Flat(m[ch := inner])| == |Flat(m)| + |inner|
  {
    FlatUnion(m, ch, inner);
    PairCount(ch, inner.Keys);
    assert |inner| == |inner.Keys|;
  }

  lemma {:induction false} PairCount(ch: string, ids: set<string>)
    ensures |Pairs(ch, ids)| == |ids|
    decreases ids
  {
    if ids == {} {
      assert Pairs(ch, ids) == {};
    } else {
      var id := Pick(ids);
      PairCount(ch, ids - {id});
      assert Pairs(ch, ids) == Pairs(ch, ids - {id}) + {(ch, id)};
    }
  }

  lemma SubscribedFlat(m: Nested, sub: Subscription)
    requires Tidy(m)
    ensures Tidy(Subscribed(m, sub)) && Flat(Subscribed(m, sub)) == Flat(m) + {(sub.channelId, sub.id)}
  {
    var r: Nested := Subscribed(m, sub);
    var inner := if sub.channelId in m then m[sub.channelId] else map[];
    assert r[sub.channelId] == inner[sub.id := sub];
    assert sub.id in r[sub.channelId];
    forall ch: string | ch in r
      ensures r[ch] != map[] && forall id :: id in r[ch] ==> r[ch][id].id == id && r[ch][id].channelId == ch
    {
      if ch != sub.channelId { assert r[ch] == m[ch]; }
    }
    forall ch: string, id: string
      ensures (ch, id) in Flat(r) <==> (ch, id) in Flat(m) || (ch, id) == (sub.channelId, sub.id)
    {
      if ch != sub.channelId { assert ch in r <==> ch in m; }
    }
  }

  lemma UnsubscribedFlat(m: Nested, sub: Subscription)
    requires Tidy(m)
    ensures Tidy(Unsubscribed(m, sub)) && Flat(Unsubscribed(m, sub)) == Flat(m) - {(sub.channelId, sub.id)}
  {
    if sub.channelId in m {
      var rest := m[sub.channelId] - {sub.id};
      var r := Unsubscribed(m, sub);
      forall ch, id ensures (ch, id) in Flat(r) <==> (ch, id) in Flat(m) && (ch, id) != (sub.channelId, sub.id) {
        if ch == sub.channelId {
          assert id in rest <==> id in m[ch] && id != sub.id;
        }
      }
    }
  }

  /** Subscribing an id the channel does not have and then unsubscribing it restores the map itself. */
  lemma SubscribeThenUnsubscribe(m: Nested, sub: Subscription)
    requires Tidy(m) && (sub.channelId, sub.id) !in Flat(m)
    ensures Unsubscribed(Subscribed(m, sub), sub) == m
  {
    var ch := sub.channelId;
    var before := if ch in m then m[ch] else map[];
    assert sub.id !in before;
    assert Subscribed(m, sub)[ch] - {sub.id} == before;
    if ch !in m {
      assert m[ch := map[][sub.id := sub]] - {ch} == m;
    } else {
      assert m[ch := before] == m;
    }
  }

  // ---- broadcasts while subscriptions change ----

  /** A `Broadcast` call after its snapshot: what it still has to write. */
  datatype Broadcast = Broadcast(channelId: string, taken: Nested, targets: seq<Subscription>, marshalled: bool,
                                 written: nat)

  /** `writes` records every `Write` with the call that made it. */
  datatype State = State(subs: Nested, calls: map<nat, Broadcast>, writes: seq<(nat, Subscription)>)

  datatype Action =
    | Sub(sub: Subscription)
    | Unsub(sub: Subscription)
    | Take(call: nat, channelId: string, targets: seq<Subscription>)
    | Marshal(call: nat)
    | Write(call: nat)

  const INITIAL := State(map[], map[], [])

  ghost predicate Enabled(s: State, a: Action) {
    match a
    case Sub(_) => true
    case Unsub(_) => true
    case Take(call, ch, targets) => call !in s.calls && Lists(targets, s.subs, ch)
    case Marshal(call) => call in s.calls && s.calls[call].targets != [] && !s.calls[call].marshalled
    case Write(call) => call in s.calls && s.calls[call].marshalled && s.calls[call].written < |s.calls[call].targets|
  }

  ghost function Next(s: State, a: Action): State
    requires Enabled(s, a)
  {
    match a
    case Sub(sub) => s.(subs := Subscribed(s.subs, sub))
    case Unsub(sub) => s.(subs := Unsubscribed(s.subs, sub))
    case Take(call, ch, targets) => s.(calls := s.calls[call := Broadcast(ch, s.subs, targets, false, 0)])
    case Marshal(call) => s.(calls := s.calls[call := s.calls[call].(marshalled := true)])
    case Write(call) =>
      var b := s.calls[call];
      s.(calls := s.calls[call := b.(written := b.written + 1)], writes := s.writes + [(call, b.targets[b.written])])
  }

  ghost function Run(actions: seq<Action>): State {
    if actions == [] then INITIAL
    else
      var s, a := Run(actions[..|actions| - 1]), actions[|actions| - 1];
      if Enabled(s, a) then Next(s, a) else s
  }

  /** The subscriptions a call has written to, in order. */
  function WritesOf(writes: seq<(nat, Subscription)>, call: nat): seq<Subscription> {
    if writes == [] then []
    else WritesOf(writes[..|writes| - 1], call)
         + (if writes[|writes| - 1].0 == call then [writes[|writes| - 1].1] else [])
  }

  ghost predicate CallKept(s: State, call: nat) {
    if call !in s.calls then WritesOf(s.writes, call) == []
    else
      var b := s.calls[call];
      && b.written <= |b.targets|
      && (!b.marshalled ==> b.written == 0)
      && Lists(b.targets, b.taken, b.channelId)
      && WritesOf(s.writes, call) == b.targets[..b.written]
  }

  lemma WritesNext(writes: seq<(nat, Subscription)>, w: (nat, Subscription), call: nat)
    ensures WritesOf(writes + [w], call) == WritesOf(writes, call) + (if w.0 == call then [w.1] else [])
  {
  }

  lemma CallStep(s: State, a: Action, call: nat)
    requires CallKept(s, call) && Enabled(s, a)
    ensures CallKept(Next(s, a), call)
  {
    if a.Write? {
      var b := s.calls[a.call];
      WritesNext(s.writes, (a.call, b.targets[b.written]), call);
    }
  }

  lemma {:induction false} AlwaysKept(actions: seq<Action>, call: nat)
    ensures CallKept(Run(actions), call)
  {
    if actions != [] {
      var s, a := Run(actions[..|actions| - 1]), actions[|actions| - 1];
      AlwaysKept(actions[..|actions| - 1], call);
      if Enabled(s, a) { CallStep(s, a, call); }
    }
  }

  /** The `k`-th action is the one by which a call took its snapshot. */
  ghost predicate TakenAt(actions: seq<Action>, call: nat, k: nat) {
    && k < |actions| && actions[k].Take? && actions[k].call == call && Enabled(Run(actions[..k]), actions[k])
    && call in Run(actions).calls
    && Run(actions).calls[call].taken == Run(actions[..k]).subs
    && Run(actions).calls[call].channelId == actions[k].channelId
    && Run(actions).calls[call].targets == actions[k].targets
  }

  /** Every call has taken its snapshot, once, from the subscriptions there were at that instant. */
  lemma {:induction false} SnapshotInstant(actions: seq<Action>, call: nat) returns (k: nat)
    requires call in Run(actions).calls
    ensures TakenAt(actions, call, k)
  {
    if actions == [] {
      assert false;
    } else {
      var n := |actions| - 1;
      var s := Run(actions[..n]);
      if call in s.calls {
        k := SnapshotInstant(actions[..n], call);
        assert actions[..n][..k] == actions[..k];
      } else {
        k := n;
      }
    }
  }

  /** The subscription last made for a channel and id, if it has not been ended since. */
  function LastFor(actions: seq<Action>, ch: string, id: string): Option<Subscription> {
    if actions == [] then None
    else
      var before := LastFor(actions[..|actions| - 1], ch, id);
      match actions[|actions| - 1]
      case Sub(sub) => if sub.channelId == ch && sub.id == id then Some(sub) else before
      case Unsub(sub) => if sub.channelId == ch && sub.id == id then None else before
      case _ => before
  }

  /** In every run the hub has exactly the subscriptions that were made and not replaced or ended since. */
  lemma {:induction false} RegisteredExactly(actions: seq<Action>, ch: string, s: Subscription)
    ensures Registered(Run(actions).subs, ch, s) <==> LastFor(actions, ch, s.id) == Some(s)
  {
    if actions != [] {
      var t, a := Run(actions[..|actions| - 1]), actions[|actions| - 1];
      RegisteredExactly(actions[..|actions| - 1], ch, s);
      if a.Sub? { SubscribedExactly(t.subs, a.sub); }
      if a.Unsub? { UnsubscribedExactly(t.subs, a.sub); }
    }
  }

  /** Whatever is subscribed or unsubscribed meanwhile, a finished broadcast has written once to each subscription
      that was registered for its channel at the instant it took its snapshot, and to nothing else. */
  lemma BroadcastReachesSnapshot(actions: seq<Action>, call: nat) returns (k: nat)
    requires call in Run(actions).calls
    requires var b := Run(actions).calls[call]; b.marshalled && b.written == |b.targets|
    ensures k < |actions| && actions[k].Take? && actions[k].call == call && Enabled(Run(actions[..k]), actions[k])
    ensures Distinct(WritesOf(Run(actions).writes, call))
    ensures forall s :: s in WritesOf(Run(actions).writes, call)
                        <==> LastFor(actions[..k], actions[k].channelId, s.id) == Some(s)
  {
    AlwaysKept(actions, call);
    k := SnapshotInstant(actions, call);
    var b := Run(actions).calls[call];
    assert b.targets[..b.written] == b.targets;
    forall s ensures s in b.targets <==> LastFor(actions[..k], actions[k].channelId, s.id) == Some(s) {
      RegisteredExactly(actions[..k], actions[k].channelId, s);
    }
  }

  /** The hub's map is tidy in every run. */
  lemma {:induction false} AlwaysTidy(actions: seq<Action>)
    ensures Tidy(Run(actions).subs)
  {
    if actions != [] {
      var s, a := Run(actions[..|actions| - 1]), actions[|actions| - 1];
      AlwaysTidy(actions[..|actions| - 1]);
      if a.Sub? { SubscribedFlat(s.subs, a.sub); }
      if a.Unsub? { UnsubscribedFlat(s.subs, a.sub); }
    }
  }
}
