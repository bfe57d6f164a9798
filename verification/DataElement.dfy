/** DataElementI: the listeners and the connected keys, updated in place. */
module DataElement {
  import opened Samples
  import opened Subscriptions

  datatype ListenerKey = ListenerKey(session: int, facet: string)
  datatype SubscriberKey = SubscriberKey(topic: int, element: int)

  type Listener = map<SubscriberKey, Subscriber>
  type Listeners = map<ListenerKey, Listener>

  function ListenerOf(a: Address): ListenerKey {
    ListenerKey(a.session, a.facet)
  }

  function SubscriberOf(a: Address): SubscriberKey {
    SubscriberKey(a.topic, a.element)
  }

  function PeerOf(l: ListenerKey, s: SubscriberKey): Address {
    Address(l.session, l.facet, s.topic, s.element)
  }

  predicate Has(l: Listeners, a: Address) {
    ListenerOf(a) in l && SubscriberOf(a) in l[ListenerOf(a)]
  }

  function Get(l: Listeners, a: Address): Subscriber
    requires Has(l, a)
  {
    l[ListenerOf(a)][SubscriberOf(a)]
  }

  /** Creates the listener when needed and stores the subscriber in it. */
  function Put(l: Listeners, a: Address, s: Subscriber): Listeners {
    l[ListenerOf(a) := (if ListenerOf(a) in l then l[ListenerOf(a)] else map[])[SubscriberOf(a) := s]]
  }

  /** Removes the subscriber, and its listener when that was the last one. */
  function Drop(l: Listeners, a: Address): Listeners
    requires Has(l, a)
  {
    var rest := l[ListenerOf(a)] - {SubscriberOf(a)};
    if rest == map[] then l - {ListenerOf(a)} else l[ListenerOf(a) := rest]
  }

  /** The nested listeners hold exactly the given subscribers, and no listener is empty. */
  ghost predicate Holds(l: Listeners, peers: Subscribers) {
    && (forall a :: Has(l, a) <==> a in peers)
    && (forall a :: Has(l, a) ==> Get(l, a) == peers[a])
    && (forall k :: k in l ==> l[k] != map[])
  }

  lemma HoldsPut(l: Listeners, peers: Subscribers, a: Address, s: Subscriber)
    requires Holds(l, peers)
    ensures Holds(Put(l, a, s), peers[a := s])
  {
    var l' := Put(l, a, s);
    forall b ensures Has(l', b) <==> b in peers[a := s] {
      assert Has(l, b) <==> b in peers;
      assert ListenerOf(b) == ListenerOf(a) && SubscriberOf(b) == SubscriberOf(a) <==> b == a;
    }
    forall b | Has(l', b) ensures Get(l', b) == peers[a := s][b] {
      assert b != a ==> Has(l, b) && Get(l', b) == Get(l, b);
    }
    forall k | k in l' ensures l'[k] != map[] {
      assert k == ListenerOf(a) ==> SubscriberOf(a) in l'[k];
    }
  }

  lemma HoldsDrop(l: Listeners, peers: Subscribers, a: Address)
    requires Holds(l, peers) && Has(l, a)
    ensures Holds(Drop(l, a), peers - {a})
  {
    var rest := l[ListenerOf(a)] - {SubscriberOf(a)};
    forall b ensures Has(Drop(l, a), b) <==> Has(l, b) && b != a {
      if ListenerOf(b) == ListenerOf(a) {
        assert SubscriberOf(b) in rest <==> SubscriberOf(b) in l[ListenerOf(a)] && SubscriberOf(b) != SubscriberOf(a);
      }
    }
  }

  /** The calls made on the peer sessions. */
  datatype Call =
    | SubscribeToKey(peer: Address, key: Key, keyId: int)
    | UnsubscribeFromKey(peer: Address, keyId: int)
    | SubscribeToFilter(peer: Address)
    | UnsubscribeFromFilter(peer: Address)
    | DisconnectFromKey(peer: Address, key: Key, keyId: int)
    | DisconnectFromFilter(peer: Address)

  /** The calls that give back everything subscriber `s` of peer `a` holds. */
  ghost predicate Releases(s: Subscriber, a: Address, c: Call) {
    if a.element < 0 then c == DisconnectFromFilter(a)
    else c.DisconnectFromKey? && c.peer == a && c.key in s.keyIds && c.keyId == s.keyIds[c.key]
  }

  ghost predicate Distinct(cs: seq<Call>) {
    forall i, j :: 0 <= i < j < |cs| ==> cs[i] != cs[j]
  }

  ghost predicate ReleasedByListener(lk: ListenerKey, l: Listener, c: Call) {
    ListenerOf(c.peer) == lk && SubscriberOf(c.peer) in l && Releases(l[SubscriberOf(c.peer)], c.peer, c)
  }

  ghost predicate ReleasedBy(l: Listeners, c: Call) {
    Has(l, c.peer) && Releases(Get(l, c.peer), c.peer, c)
  }

  /** Giving up key subscriptions: one call per outstanding subscription, with the key id it was made with. */
  lemma KeyReleasesAreSubscriptions(
    keyless: bool, peers: Subscribers, sp: Spec, l: Listeners, a: Address, k: Key, id: int)
    requires SubscribersOk(peers, sp) && SubsOk(keyless, peers, sp.subs) && Holds(l, peers)
    requires a.element != 0
    ensures ReleasedBy(l, DisconnectFromKey(a, k, id)) <==>
      a.element > 0 && Subscription(a, Some(k)) in sp.subs && sp.subs[Subscription(a, Some(k))] == id
  {
    assert Has(l, a) <==> a in peers;
    if a in peers {
      assert SubscriberOk(peers[a], sp, a);
      assert k in peers[a].keys <==> Subscription(a, Some(k)) in sp.subs;
    }
  }

  /** Giving up filter subscriptions: one call per peer with an outstanding filter subscription. */
  lemma FilterReleasesAreSubscriptions(keyless: bool, peers: Subscribers, sp: Spec, l: Listeners, a: Address)
    requires SubscribersOk(peers, sp) && SubsOk(keyless, peers, sp.subs) && Holds(l, peers)
    ensures ReleasedBy(l, DisconnectFromFilter(a)) <==> a.element < 0 && exists o :: Subscription(a, o) in sp.subs
  {
    assert Has(l, a) <==> a in peers;
    if a in peers {
      assert SubscriberOk(peers[a], sp, a);
      if peers[a].keys != {} {
        var k := SomeMember(peers[a].keys);
        assert Subscription(a, Some(k)) in sp.subs;
      }
    } else {
      forall o ensures Subscription(a, o) !in sp.subs {
        assert Subscription(a, o).peer == a;
      }
    }
  }

  lemma {:induction false} FirstIndex(q: seq<Connected>, ref: nat, i: nat)
    requires i < |q| && q[i].ref == ref && forall j :: 0 <= j < i ==> q[j].ref != ref
    ensures Lists(q, ref) && IndexOf(q, ref) == i
  {
    if i > 0 {
      assert q[1..][i - 1] == q[i];
      FirstIndex(q[1..], ref, i - 1);
    }
  }

  /** The id a key was attached with; 0, which no key uses, should it be missing. */
  function RemoteId(s: Subscriber, key: Key): int {
    if key in s.keyIds then s.keyIds[key] else 0
  }

  /** A key that is connected has an id on record, and it is the one the key was attached with. */
  lemma DetachUsesAttachedId(keyless: bool, v: Views, sp: Spec, a: Address, key: Key)
    requires SubscribersOk(v.peers, sp) && AllListedOk(v.connected, sp) && SubsOk(keyless, v.peers, sp.subs)
    requires a.element > 0 && IsConnected(v, a, Some(key))
    ensures key in v.peers[a].keyIds && Subscription(a, Some(key)) in sp.subs
    ensures RemoteId(v.peers[a], key) == sp.subs[Subscription(a, Some(key))]
  {
    ConnectedIffSubscribed(v, sp, keyless, a, Some(key));
    assert SubscriberOk(v.peers[a], sp, a);
  }

  lemma DistinctConcat(cs: seq<Call>, ds: seq<Call>)
    requires Distinct(cs) && Distinct(ds) && forall c :: c in ds ==> c !in cs
    ensures Distinct(cs + ds)
  {
    var all := cs + ds;
    forall i, j | 0 <= i < j < |all| ensures all[i] != all[j] {
      assert j >= |cs| ==> all[j] in ds;
      assert i < |cs| ==> all[i] in cs;
    }
  }

  class DataElement {
    /** A reader with the Priority discard policy sorts its connected keys. */
    const byPriority: bool
    var listeners: Listeners
    var connectedKeys: ConnectedKeys
    var listenerCount: int
    /** The identity of the next subscriber object. */
    var nextRef: nat
    /** The calls made on the sessions so far. */
    var calls: seq<Call>

    /** The fields hold the views `v`. */
    ghost predicate Represents(v: Views)
      reads this
    {
      Holds(listeners, v.peers) && connectedKeys == v.connected && listenerCount == v.count && nextRef == v.nextRef
    }

    constructor (byPriority: bool)
      ensures this.byPriority == byPriority && Represents(EMPTY) && calls == []
    {
      this.byPriority := byPriority;
      listeners, connectedKeys, listenerCount, nextRef, calls := map[], map[], 0, 0, [];
    }

    /** addConnectedKey: false, with nothing changed, when the subscriber is listed already. */
    method AddConnectedKey(o: Option<Key>, c: Connected) returns (added: bool)
      modifies `connectedKeys
      ensures added <==> !InList(old(connectedKeys), o, c.ref)
      ensures connectedKeys == if added then Connect(byPriority, old(connectedKeys), o, c) else old(connectedKeys)
    {
      var q := if o in connectedKeys then connectedKeys[o] else [];
      var i := 0;
      while i < |q| && q[i].ref != c.ref
        invariant 0 <= i <= |q|
        invariant forall j :: 0 <= j < i ==> q[j].ref != c.ref
      {
        i := i + 1;
      }
      added := i == |q|;
      if added {
        connectedKeys := connectedKeys[o := if byPriority then Insert(q, c) else q + [c]];
      }
    }

    /** removeConnectedKey: false, with nothing changed, when the subscriber is not listed. */
    method RemoveConnectedKey(o: Option<Key>, ref: nat) returns (removed: bool)
      modifies `connectedKeys
      ensures removed <==> InList(old(connectedKeys), o, ref)
      ensures connectedKeys == if removed then Unlist(old(connectedKeys), o, ref) else old(connectedKeys)
    {
      removed := false;
      if o in connectedKeys {
        var q := connectedKeys[o];
        var i := 0;
        while i < |q| && q[i].ref != ref
          invariant 0 <= i <= |q|
          invariant forall j :: 0 <= j < i ==> q[j].ref != ref
        {
          i := i + 1;
        }
        if i < |q| {
          removed := true;
          FirstIndex(q, ref, i);
          var rest := q[..i] + q[i + 1..];
          connectedKeys := if rest == [] then connectedKeys - {o} else connectedKeys[o := rest];
        }
      }
    }

    /** Finds or creates the subscriber of a peer. */
    method AddOrGet(a: Address, priority: int, ghost v: Views) returns (s: Subscriber)
      requires Represents(v)
      modifies `listeners, `nextRef
      ensures s == Target(v, a, priority)
      ensures Holds(listeners, v.peers[a := s])
      ensures nextRef == if a in v.peers then v.nextRef else v.nextRef + 1
    {
      assert Has(listeners, a) <==> a in v.peers;
      if Has(listeners, a) {
        s := Get(listeners, a);
        assert v.peers[a := s] == v.peers;
      } else {
        s := Subscriber(nextRef, {}, map[], priority);
        nextRef := nextRef + 1;
        HoldsPut(listeners, v.peers, a, s);
        listeners := Put(listeners, a, s);
      }
    }

    /** attachKey. */
    method AttachKey(a: Address, key: Key, keyId: int, priority: int, ghost v: Views) returns (attached: bool)
      requires Represents(v)
      modifies this
      ensures Represents(Attach(byPriority, v, a, Some(key), Some(keyId), priority).views)
      ensures attached == Attach(byPriority, v, a, Some(key), Some(keyId), priority).ok
      ensures calls == old(calls) + if attached then [SubscribeToKey(a, key, keyId)] else []
    {
      var s := AddOrGet(a, priority, v);
      attached := AddConnectedKey(Some(key), Connected(s.ref, s.priority));
      if attached {
        var s' := s.(keyIds := if key in s.keyIds then s.keyIds else s.keyIds[key := keyId], keys := s.keys + {key});
        HoldsPut(listeners, v.peers[a := s], a, s');
        assert v.peers[a := s][a := s'] == v.peers[a := s'];
        listeners := Put(listeners, a, s');
        listenerCount := listenerCount + 1;
        calls := calls + [SubscribeToKey(a, key, keyId)];
      }
    }

    /** attachFilter: the subscriber is stored under the negated element id; the key is null when this element has a
        filter too. */
    method AttachFilter(a: Address, o: Option<Key>, priority: int, ghost v: Views) returns (attached: bool)
      requires Represents(v) && a.element > 0
      modifies this
      ensures Represents(Attach(byPriority, v, a.(element := -a.element), o, None, priority).views)
      ensures attached == Attach(byPriority, v, a.(element := -a.element), o, None, priority).ok
      ensures calls == old(calls) + if attached then [SubscribeToFilter(a.(element := -a.element))] else []
    {
      var f := a.(element := -a.element);
      var s := AddOrGet(f, priority, v);
      attached := AddConnectedKey(o, Connected(s.ref, s.priority));
      if attached {
        var s' := if o.Some? then s.(keys := s.keys + {o.value}) else s;
        HoldsPut(listeners, v.peers[f := s], f, s');
        assert v.peers[f := s][f := s'] == v.peers[f := s'];
        listeners := Put(listeners, f, s');
        listenerCount := listenerCount + 1;
        calls := calls + [SubscribeToFilter(f)];
      }
    }

    /** Stores a subscriber that lost a key, or removes it when it has none left. */
    method Shrink(a: Address, s: Subscriber, ghost peers: Subscribers)
      requires Holds(listeners, peers) && Has(listeners, a)
      modifies `listeners
      ensures Holds(listeners, Remaining(peers, a, s))
    {
      if s.keys == {} {
        HoldsDrop(listeners, peers, a);
        listeners := Drop(listeners, a);
      } else {
        HoldsPut(listeners, peers, a, s);
        listeners := Put(listeners, a, s);
      }
    }

    /** detachKey: unsubscribes from the key being detached, with the id recorded for it. */
    method DetachKey(a: Address, key: Key, unsubscribe: bool, ghost v: Views)
      requires Represents(v)
      modifies this
      ensures Represents(Detach(v, a, Some(key)))
      ensures calls == old(calls) +
        if IsConnected(v, a, Some(key)) && unsubscribe then [UnsubscribeFromKey(a, RemoteId(v.peers[a], key))] else []
    {
      assert Has(listeners, a) <==> a in v.peers;
      if Has(listeners, a) {
        var s := Get(listeners, a);
        var removed := RemoveConnectedKey(Some(key), s.ref);
        if removed {
          var id := RemoteId(s, key);
          Shrink(a, s.(keyIds := s.keyIds - {key}, keys := s.keys - {key}), v.peers);
          listenerCount := listenerCount - 1;
          if unsubscribe {
            calls := calls + [UnsubscribeFromKey(a, id)];
          }
        }
      }
    }

    /** detachFilter: like detachKey, for a subscriber that records no key ids. */
    method DetachFilter(a: Address, o: Option<Key>, unsubscribe: bool, ghost v: Views)
      requires Represents(v) && a.element < 0 && (a in v.peers ==> v.peers[a].keyIds == map[])
      modifies this
      ensures Represents(Detach(v, a, o))
      ensures calls == old(calls) + if IsConnected(v, a, o) && unsubscribe then [UnsubscribeFromFilter(a)] else []
    {
      assert Has(listeners, a) <==> a in v.peers;
      if Has(listeners, a) {
        var s := Get(listeners, a);
        var removed := RemoveConnectedKey(o, s.ref);
        if removed {
          var s' := if o.Some? then s.(keys := s.keys - {o.value}) else s;
          assert o.Some? ==> s.keyIds - {o.value} == s.keyIds;
          Shrink(a, s', v.peers);
          listenerCount := listenerCount - 1;
          if unsubscribe {
            calls := calls + [UnsubscribeFromFilter(a)];
          }
        }
      }
    }

    /** hasLowerPriorityThanConnected. */
    method HasLowerPriorityThanConnected(priority: int, key: Key) returns (lower: bool)
      ensures lower == HasLowerPriority(connectedKeys, priority, key)
    {
      var threshold := priority;
      var ks := [Some(key), None];
      for i := 0 to 2
        invariant i == 0 ==> threshold == priority
        invariant i == 1 ==> threshold == Threshold(connectedKeys, priority, Some(key))
        invariant i == 2 ==> threshold == Threshold(connectedKeys, Threshold(connectedKeys, priority, Some(key)), None)
      {
        var o := ks[i];
        if o in connectedKeys && connectedKeys[o] != []
          && connectedKeys[o][|connectedKeys[o]| - 1].priority > threshold
        {
          threshold := connectedKeys[o][|connectedKeys[o]| - 1].priority;
        }
      }
      lower := priority < threshold;
    }

    /** The calls that give up one subscriber: one per recorded key id, or a single one for a filter. */
    method ReleaseSubscriber(a: Address, s: Subscriber) returns (ghost made: seq<Call>)
      modifies `calls
      ensures calls == old(calls) + made && Distinct(made)
      ensures forall c :: c in made <==> Releases(s, a, c)
    {
      made := [];
      if a.element < 0 {
        made := [DisconnectFromFilter(a)];
        calls := calls + [DisconnectFromFilter(a)];
      } else {
        var keys := s.keyIds.Keys;
        while keys != {}
          invariant keys <= s.keyIds.Keys
          invariant calls == old(calls) + made && Distinct(made)
          invariant forall c :: c in made <==> Releases(s, a, c) && c.key !in keys
        {
          ghost var _ := SomeMember(keys);
          var k :| k in keys;
          var call := DisconnectFromKey(a, k, s.keyIds[k]);
          calls := calls + [call];
          DistinctConcat(made, [call]);
          made := made + [call];
          keys := keys - {k};
        }
      }
    }

    /** The calls that give up every subscriber of one listener. */
    method ReleaseListener(lk: ListenerKey, l: Listener) returns (ghost made: seq<Call>)
      modifies `calls
      ensures calls == old(calls) + made && Distinct(made)
      ensures forall c :: c in made <==> ReleasedByListener(lk, l, c)
    {
      made := [];
      var subscribers := l.Keys;
      while subscribers != {}
        invariant subscribers <= l.Keys
        invariant calls == old(calls) + made && Distinct(made)
        invariant forall c :: c in made <==> ReleasedByListener(lk, l, c) && SubscriberOf(c.peer) !in subscribers
      {
        ghost var _ := SomeMember(subscribers);
        var sk :| sk in subscribers;
        ghost var more := ReleaseSubscriber(PeerOf(lk, sk), l[sk]);
        DistinctConcat(made, more);
        made := made + more;
        subscribers := subscribers - {sk};
      }
    }

    /** disconnect: forgets every listener and gives up every subscription once. The connected keys are left alone. */
    method Disconnect() returns (ghost made: seq<Call>)
      modifies `listeners, `listenerCount, `calls
      ensures listeners == map[] && listenerCount == 0
      ensures calls == old(calls) + made && Distinct(made)
      ensures forall c :: c in made <==> ReleasedBy(old(listeners), c)
    {
      made := [];
      var all := listeners;
      listeners, listenerCount := map[], 0;
      var keys := all.Keys;
      while keys != {}
        invariant keys <= all.Keys
        invariant calls == old(calls) + made && Distinct(made)
        invariant forall c :: c in made <==> ReleasedBy(all, c) && ListenerOf(c.peer) !in keys
        invariant listeners == map[] && listenerCount == 0
      {
        ghost var _ := SomeMember(keys);
        var lk :| lk in keys;
        ghost var more := ReleaseListener(lk, all[lk]);
        DistinctConcat(made, more);
        made := made + more;
        keys := keys - {lk};
      }
    }
  }
}
