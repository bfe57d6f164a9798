/** The listeners of a data element: four views of one set of subscriptions. */
module Subscriptions {
  import opened Samples

  /** A peer element: the session and facet of its listener, its topic and its element id. Filter subscriptions use
      the negated element id. */
  datatype Address = Address(session: int, facet: string, topic: int, element: int)

  /** `ref` stands for the identity of the shared subscriber object. */
  datatype Subscriber = Subscriber(ref: nat, keys: set<Key>, keyIds: map<Key, int>, priority: int)

  /** A pointer to a subscriber in a connected-key list. */
  datatype Connected = Connected(ref: nat, priority: int)

  type Subscribers = map<Address, Subscriber>
  type ConnectedKeys = map<Option<Key>, seq<Connected>>

  /** One subscription; the key is null when a filter element is attached to a filter element. */
  datatype Subscription = Subscription(peer: Address, key: Option<Key>)

  lemma SomeMember<T>(s: set<T>) returns (x: T)
    requires s != {}
    ensures x in s
  {
    x :| x in s;
  }

  // ----- connected-key lists -----

  predicate Lists(q: seq<Connected>, ref: nat) {
    exists i :: 0 <= i < |q| && q[i].ref == ref
  }

  predicate InList(ck: ConnectedKeys, o: Option<Key>, ref: nat) {
    o in ck && Lists(ck[o], ref)
  }

  ghost predicate NoRepeats(q: seq<Connected>) {
    forall i, j :: 0 <= i < j < |q| ==> q[i].ref != q[j].ref
  }

  ghost predicate Sorted(q: seq<Connected>) {
    forall i, j :: 0 <= i < j < |q| ==> q[i].priority <= q[j].priority
  }

  /** push_back followed, for a reader with the Priority policy, by a sort on the priorities. */
  function Insert(q: seq<Connected>, c: Connected): seq<Connected> {
    if q == [] || q[|q| - 1].priority <= c.priority then q + [c]
    else Insert(q[..|q| - 1], c) + [q[|q| - 1]]
  }

  function EraseAt(q: seq<Connected>, i: nat): seq<Connected>
    requires i < |q|
  {
    q[..i] + q[i + 1..]
  }

  lemma ListsSnoc(q: seq<Connected>, x: Connected, r: nat)
    ensures Lists(q + [x], r) <==> Lists(q, r) || x.ref == r
  {
    assert (q + [x])[|q|] == x;
    if Lists(q, r) {
      var i :| 0 <= i < |q| && q[i].ref == r;
      assert (q + [x])[i] == q[i];
    }
  }

  lemma {:induction false} InsertLists(q: seq<Connected>, c: Connected, r: nat)
    ensures Lists(Insert(q, c), r) <==> r == c.ref || Lists(q, r)
  {
    if q == [] || q[|q| - 1].priority <= c.priority {
      assert (q + [c])[|q|] == c;
      if Lists(q, r) {
        var i :| 0 <= i < |q| && q[i].ref == r;
        assert (q + [c])[i] == q[i];
      }
    } else {
      var f, x := q[..|q| - 1], q[|q| - 1];
      InsertLists(f, c, r);
      ListsSnoc(Insert(f, c), x, r);
      assert q == f + [x];
      ListsSnoc(f, x, r);
    }
  }

  lemma {:induction false} InsertKeeps(q: seq<Connected>, c: Connected)
    requires NoRepeats(q) && !Lists(q, c.ref) && Sorted(q)
    ensures NoRepeats(Insert(q, c)) && Sorted(Insert(q, c)) && Insert(q, c) != []
    ensures forall i :: 0 <= i < |Insert(q, c)| ==> Insert(q, c)[i] == c || Insert(q, c)[i] in q
  {
    if !(q == [] || q[|q| - 1].priority <= c.priority) {
      var f, x := q[..|q| - 1], q[|q| - 1];
      InsertKeeps(f, c);
      var r := Insert(f, c);
      forall i | 0 <= i < |r| ensures r[i].ref != x.ref && r[i].priority <= x.priority {
      }
    }
  }

  lemma EraseLists(q: seq<Connected>, i: nat, r: nat)
    requires i < |q| && NoRepeats(q)
    ensures Lists(EraseAt(q, i), r) <==> r != q[i].ref && Lists(q, r)
  {
    var e := EraseAt(q, i);
    if Lists(q, r) && r != q[i].ref {
      var j :| 0 <= j < |q| && q[j].ref == r;
      assert e[if j < i then j else j - 1] == q[j];
    }
    forall j | 0 <= j < |e| ensures e[j].ref != q[i].ref && Lists(q, e[j].ref) {
      assert e[j] == q[if j < i then j else j + 1];
    }
  }

  lemma EraseKeeps(q: seq<Connected>, i: nat)
    requires i < |q| && NoRepeats(q)
    ensures NoRepeats(EraseAt(q, i)) && (Sorted(q) ==> Sorted(EraseAt(q, i)))
  {
    var e := EraseAt(q, i);
    assert forall j :: 0 <= j < |e| ==> e[j] == q[if j < i then j else j + 1];
  }

  // ----- the state and its operations -----

  /** What the element stores: the subscriber of every attached peer, the connected-key lists, the listener count, and
      the next object identity. */
  datatype Views = Views(peers: Subscribers, connected: ConnectedKeys, count: int, nextRef: nat)

  function IndexOf(q: seq<Connected>, ref: nat): (i: nat)
    requires Lists(q, ref)
    ensures i < |q| && q[i].ref == ref
  {
    if q[0].ref == ref then 0
    else
      assert Lists(q[1..], ref) by {
        var i :| 0 <= i < |q| && q[i].ref == ref;
        assert q[1..][i - 1] == q[i];
      }
      1 + IndexOf(q[1..], ref)
  }

  /** addConnectedKey for a subscriber that is not in the list yet. */
  function Connect(byPriority: bool, ck: ConnectedKeys, o: Option<Key>, c: Connected): ConnectedKeys {
    var q := if o in ck then ck[o] else [];
    ck[o := if byPriority then Insert(q, c) else q + [c]]
  }

  /** removeConnectedKey for a subscriber that is in the list. */
  function Unlist(ck: ConnectedKeys, o: Option<Key>, ref: nat): ConnectedKeys
    requires InList(ck, o, ref)
  {
    var q := EraseAt(ck[o], IndexOf(ck[o], ref));
    if q == [] then ck - {o} else ck[o := q]
  }

  datatype Attached = Attached(views: Views, ok: bool)

  /** The subscriber a new subscription belongs to, before it is recorded. */
  function Target(v: Views, a: Address, priority: int): Subscriber {
    if a in v.peers then v.peers[a] else Subscriber(v.nextRef, {}, map[], priority)
  }

  function WithKey(s: Subscriber, o: Option<Key>, keyId: Option<int>): Subscriber {
    s.(keys := if o.Some? then s.keys + {o.value} else s.keys,
       keyIds := if keyId.Some? && o.Some? && o.value !in s.keyIds then s.keyIds[o.value := keyId.value] else s.keyIds)
  }

  function WithoutKey(s: Subscriber, o: Option<Key>): Subscriber {
    if o.None? then s else s.(keys := s.keys - {o.value}, keyIds := s.keyIds - {o.value})
  }

  /** The views with a new subscription of subscriber `s`. */
  function Extended(byPriority: bool, v: Views, a: Address, o: Option<Key>, keyId: Option<int>, s: Subscriber): Views {
    Views(v.peers[a := WithKey(s, o, keyId)],
          Connect(byPriority, v.connected, o, Connected(s.ref, s.priority)),
          v.count + 1,
          if a in v.peers then v.nextRef else v.nextRef + 1)
  }

  /** attachKey and attachFilter; a filter subscription records no remote key id. */
  function Attach(byPriority: bool, v: Views, a: Address, o: Option<Key>, keyId: Option<int>, priority: int): Attached {
    var s := Target(v, a, priority);
    var nextRef := if a in v.peers then v.nextRef else v.nextRef + 1;
    if InList(v.connected, o, s.ref) then Attached(v.(peers := v.peers[a := s], nextRef := nextRef), false)
    else Attached(Extended(byPriority, v, a, o, keyId, s), true)
  }

  /** A subscriber without keys is removed. */
  function Remaining(peers: Subscribers, a: Address, s: Subscriber): Subscribers {
    if s.keys == {} then peers - {a} else peers[a := s]
  }

  predicate IsConnected(v: Views, a: Address, o: Option<Key>) {
    a in v.peers && InList(v.connected, o, v.peers[a].ref)
  }

  /** detachKey and detachFilter: nothing happens unless the subscriber is connected under the key. */
  function Detach(v: Views, a: Address, o: Option<Key>): Views {
    if !IsConnected(v, a, o) then v
    else
      var s := WithoutKey(v.peers[a], o);
      Views(Remaining(v.peers, a, s), Unlist(v.connected, o, s.ref), v.count - 1, v.nextRef)
  }

  // ----- one set of subscriptions -----

  /** The reference: the subscriptions, with the remote key id each was made with (0 for a filter), and the priority
      each peer had when the first of its subscriptions was made. `owner` tells which peer each subscriber object stands
      for. */
  datatype Spec = Spec(subs: map<Subscription, int>, owner: map<nat, Address>, priorities: map<Address, int>)

  /** An element with keys never uses the null key; one without keys uses it exactly for its filter subscriptions. */
  predicate Disciplined(keyless: bool, a: Address, o: Option<Key>) {
    && (a.element > 0 ==> o.Some?)
    && (a.element <= 0 ==> (o.None? <==> keyless))
  }

  /** The key id argument is the one the source passes for the kind of subscription. */
  predicate IdMatchesKind(a: Address, keyId: Option<int>) {
    keyId.Some? <==> a.element > 0
  }

  ghost predicate IdsOk(s: Subscriber, subs: map<Subscription, int>, a: Address) {
    && s.keyIds.Keys == (if a.element > 0 then s.keys else {})
    && (forall k :: k in s.keyIds ==> Subscription(a, Some(k)) in subs && subs[Subscription(a, Some(k))] == s.keyIds[k])
  }

  /** The subscriber object stands for peer `a` and holds exactly its keys and, for a key subscription, their ids. */
  ghost predicate SubscriberOk(s: Subscriber, sp: Spec, a: Address) {
    && s.ref in sp.owner && sp.owner[s.ref] == a
    && (forall k :: k in s.keys <==> Subscription(a, Some(k)) in sp.subs)
    && (s.keys == {} ==> Subscription(a, None) in sp.subs)
    && IdsOk(s, sp.subs, a)
  }

  ghost predicate EntryOk(peers: Subscribers, owner: map<nat, Address>, c: Connected) {
    && c.ref in owner
    && owner[c.ref] in peers
    && peers[owner[c.ref]].ref == c.ref
    && peers[owner[c.ref]].priority == c.priority
  }

  ghost predicate ListOk(byPriority: bool, peers: Subscribers, owner: map<nat, Address>, q: seq<Connected>) {
    && q != []
    && NoRepeats(q)
    && (byPriority ==> Sorted(q))
    && (forall i :: 0 <= i < |q| ==> EntryOk(peers, owner, q[i]))
  }

  ghost predicate OwnerOk(peers: Subscribers, owner: map<nat, Address>, nextRef: nat, r: nat)
    requires r in owner
  {
    r < nextRef && owner[r] in peers && peers[owner[r]].ref == r
  }

  /** A subscriber object is listed under a key exactly when its peer is subscribed with that key. */
  ghost predicate ListedOk(ck: ConnectedKeys, sp: Spec, r: nat, o: Option<Key>)
    requires r in sp.owner
  {
    InList(ck, o, r) <==> Subscription(sp.owner[r], o) in sp.subs
  }

  ghost predicate SubscribersOk(peers: Subscribers, sp: Spec) {
    forall a :: a in peers ==> SubscriberOk(peers[a], sp, a)
  }

  ghost predicate OwnersOk(peers: Subscribers, owner: map<nat, Address>, nextRef: nat) {
    forall r :: r in owner ==> OwnerOk(peers, owner, nextRef, r)
  }

  ghost predicate AllListedOk(ck: ConnectedKeys, sp: Spec) {
    forall r, o :: r in sp.owner ==> ListedOk(ck, sp, r, o)
  }

  ghost predicate ListsOk(byPriority: bool, ck: ConnectedKeys, peers: Subscribers, owner: map<nat, Address>) {
    forall o :: o in ck ==> ListOk(byPriority, peers, owner, ck[o])
  }

  ghost predicate SubsOk(keyless: bool, peers: Subscribers, subs: map<Subscription, int>) {
    forall x :: x in subs ==> x.peer in peers && Disciplined(keyless, x.peer, x.key)
  }

  predicate PriorityOk(peers: Subscribers, priorities: map<Address, int>, a: Address) {
    (a in peers <==> a in priorities) && (a in peers ==> peers[a].priority == priorities[a])
  }

  /** Every peer is stored with its own priority. */
  ghost predicate PrioritiesOk(peers: Subscribers, priorities: map<Address, int>) {
    forall a :: PriorityOk(peers, priorities, a)
  }

  /** The stored views all describe the same subscriptions. */
  ghost predicate Consistent(byPriority: bool, keyless: bool, v: Views, sp: Spec) {
    && SubscribersOk(v.peers, sp)
    && OwnersOk(v.peers, sp.owner, v.nextRef)
    && AllListedOk(v.connected, sp)
    && ListsOk(byPriority, v.connected, v.peers, sp.owner)
    && SubsOk(keyless, v.peers, sp.subs)
    && PrioritiesOk(v.peers, sp.priorities)
    && v.count == |sp.subs|
  }

  // ----- attaching -----

  /** A peer keeps the priority it came with. */
  function Ranked(priorities: map<Address, int>, a: Address, priority: int): map<Address, int> {
    if a in priorities then priorities else priorities[a := priority]
  }

  function SpecAttach(v: Views, sp: Spec, a: Address, o: Option<Key>, keyId: Option<int>, priority: int): Spec {
    var ref := if a in v.peers then v.peers[a].ref else v.nextRef;
    Spec(sp.subs[Subscription(a, o) := if keyId.Some? then keyId.value else 0], sp.owner[ref := a],
         Ranked(sp.priorities, a, priority))
  }

  lemma ConnectLists(byPriority: bool, ck: ConnectedKeys, o: Option<Key>, c: Connected, o': Option<Key>, r: nat)
    ensures InList(Connect(byPriority, ck, o, c), o', r) <==> InList(ck, o', r) || (o' == o && r == c.ref)
  {
    var q := if o in ck then ck[o] else [];
    InsertLists(q, c, r);
    ListsSnoc(q, c, r);
  }

  /** Being stored as connected and being subscribed are the same thing. */
  lemma ConnectedIffSubscribed(v: Views, sp: Spec, keyless: bool, a: Address, o: Option<Key>)
    requires SubscribersOk(v.peers, sp) && AllListedOk(v.connected, sp) && SubsOk(keyless, v.peers, sp.subs)
    ensures IsConnected(v, a, o) <==> Subscription(a, o) in sp.subs
  {
    if a in v.peers {
      assert SubscriberOk(v.peers[a], sp, a);
      assert ListedOk(v.connected, sp, v.peers[a].ref, o);
    }
  }

  /** A new object identity is unused. */
  lemma NextRefIsNew(byPriority: bool, v: Views, owner: map<nat, Address>)
    requires OwnersOk(v.peers, owner, v.nextRef) && ListsOk(byPriority, v.connected, v.peers, owner)
    ensures v.nextRef !in owner && forall o :: !InList(v.connected, o, v.nextRef)
  {
    forall r | r in owner ensures r < v.nextRef {
      assert OwnerOk(v.peers, owner, v.nextRef, r);
    }
    forall o | o in v.connected ensures !Lists(v.connected[o], v.nextRef) {
      var q := v.connected[o];
      assert ListOk(byPriority, v.peers, owner, q);
      forall i | 0 <= i < |q| ensures q[i].ref < v.nextRef {
        assert EntryOk(v.peers, owner, q[i]);
      }
    }
  }

  lemma WithKeyOk(s: Subscriber, sp: Spec, sp': Spec, a: Address, o: Option<Key>, keyId: Option<int>)
    requires SubscriberOk(s, sp, a) || (s.keys == {} && s.keyIds == map[] && forall x :: x in sp.subs ==> x.peer != a)
    requires Subscription(a, o) !in sp.subs && IdMatchesKind(a, keyId) && (a.element > 0 ==> o.Some?)
    requires sp'.subs == sp.subs[Subscription(a, o) := if keyId.Some? then keyId.value else 0]
    requires sp'.owner == sp.owner[s.ref := a]
    ensures SubscriberOk(WithKey(s, o, keyId), sp', a)
  {
    var s' := WithKey(s, o, keyId);
    forall k ensures k in s'.keys <==> Subscription(a, Some(k)) in sp'.subs {
      assert k in s.keys <==> Subscription(a, Some(k)) in sp.subs;
    }
    assert s'.keyIds.Keys == if a.element > 0 then s'.keys else {};
  }

  ghost predicate SameElsewhere(subs: map<Subscription, int>, subs': map<Subscription, int>, a: Address) {
    forall x: Subscription :: x.peer != a ==> (x in subs' <==> x in subs) && (x in subs ==> subs'[x] == subs[x])
  }

  lemma OtherSubscriberOk(s: Subscriber, sp: Spec, sp': Spec, a: Address, b: Address)
    requires SubscriberOk(s, sp, b) && a != b
    requires s.ref in sp'.owner && sp'.owner[s.ref] == b
    requires SameElsewhere(sp.subs, sp'.subs, a)
    ensures SubscriberOk(s, sp', b)
  {
    forall k ensures Subscription(b, Some(k)) in sp'.subs <==> Subscription(b, Some(k)) in sp.subs {
      assert Subscription(b, Some(k)).peer != a;
    }
    assert Subscription(b, None).peer != a;
  }

  /** A change of one peer's subscriptions, and of who owns `ref`, does not concern the other peers. */
  lemma OtherSubscribersOk(peers: Subscribers, sp: Spec, sp': Spec, a: Address, ref: nat)
    requires SubscribersOk(peers, sp) && SameElsewhere(sp.subs, sp'.subs, a)
    requires ref in sp.owner ==> sp.owner[ref] == a
    requires forall r :: r in sp.owner && r != ref ==> r in sp'.owner && sp'.owner[r] == sp.owner[r]
    ensures forall b :: b in peers && b != a ==> SubscriberOk(peers[b], sp', b)
  {
    forall b | b in peers && b != a ensures SubscriberOk(peers[b], sp', b) {
      assert SubscriberOk(peers[b], sp, b);
      OtherSubscriberOk(peers[b], sp, sp', a, b);
    }
  }

  /** `ref` is the identity of the subscriber stored for `a`, or a new one. */
  ghost predicate RefFor(peers: Subscribers, sp: Spec, a: Address, ref: nat) {
    if a in peers then peers[a].ref == ref && ref in sp.owner && sp.owner[ref] == a else ref !in sp.owner
  }

  lemma AttachSubscribersOk(
    peers: Subscribers, sp: Spec, sp': Spec, a: Address, o: Option<Key>, keyId: Option<int>, s: Subscriber)
    requires SubscribersOk(peers, sp) && RefFor(peers, sp, a, s.ref) && SubscriberOk(WithKey(s, o, keyId), sp', a)
    requires sp'.subs == sp.subs[Subscription(a, o) := if keyId.Some? then keyId.value else 0]
    requires sp'.owner == sp.owner[s.ref := a]
    ensures SubscribersOk(peers[a := WithKey(s, o, keyId)], sp')
  {
    assert SameElsewhere(sp.subs, sp'.subs, a);
    OtherSubscribersOk(peers, sp, sp', a, s.ref);
  }

  lemma AttachOwnersOk(
    peers: Subscribers, owner: map<nat, Address>, nextRef: nat, nextRef': nat, a: Address, s: Subscriber)
    requires OwnersOk(peers, owner, nextRef) && nextRef <= nextRef' && s.ref < nextRef'
    requires a in peers ==> peers[a].ref == s.ref
    requires a !in peers ==> s.ref !in owner
    ensures OwnersOk(peers[a := s], owner[s.ref := a], nextRef')
  {
    forall r | r in owner && r != s.ref ensures OwnerOk(peers[a := s], owner[s.ref := a], nextRef', r) {
      assert OwnerOk(peers, owner, nextRef, r);
    }
  }

  lemma AttachListed(
    byPriority: bool, ck: ConnectedKeys, peers: Subscribers, sp: Spec, sp': Spec, nextRef: nat, a: Address,
    o: Option<Key>, id: int, c: Connected)
    requires AllListedOk(ck, sp) && RefFor(peers, sp, a, c.ref) && OwnersOk(peers, sp.owner, nextRef)
    requires a !in peers ==> (forall o' :: Subscription(a, o') !in sp.subs && !InList(ck, o', c.ref))
    requires sp'.subs == sp.subs[Subscription(a, o) := id] && sp'.owner == sp.owner[c.ref := a]
    ensures AllListedOk(Connect(byPriority, ck, o, c), sp')
  {
    forall r, o' | r in sp'.owner ensures ListedOk(Connect(byPriority, ck, o, c), sp', r, o') {
      ConnectLists(byPriority, ck, o, c, o', r);
      if r in sp.owner {
        assert ListedOk(ck, sp, r, o') && OwnerOk(peers, sp.owner, nextRef, r);
      }
    }
  }

  lemma EntriesKept(
    peers: Subscribers, peers': Subscribers, owner: map<nat, Address>, owner': map<nat, Address>, q: seq<Connected>)
    requires forall i :: 0 <= i < |q| ==> EntryOk(peers, owner, q[i])
    requires forall c: Connected :: EntryOk(peers, owner, c) ==> EntryOk(peers', owner', c)
    ensures forall i :: 0 <= i < |q| ==> EntryOk(peers', owner', q[i])
  {
  }

  lemma ConnectListOk(
    byPriority: bool, peers: Subscribers, owner: map<nat, Address>, ck: ConnectedKeys, o: Option<Key>, c: Connected)
    requires o in ck ==> ListOk(byPriority, peers, owner, ck[o])
    requires EntryOk(peers, owner, c) && !InList(ck, o, c.ref)
    ensures ListOk(byPriority, peers, owner, Connect(byPriority, ck, o, c)[o])
  {
    var q := if o in ck then ck[o] else [];
    if byPriority {
      InsertKeeps(q, c);
      var r := Insert(q, c);
      forall i | 0 <= i < |r| ensures EntryOk(peers, owner, r[i]) {
        if r[i] != c {
          var j :| 0 <= j < |q| && q[j] == r[i];
        }
      }
    } else {
      forall i | 0 <= i < |q| ensures q[i].ref != c.ref {
        assert Lists(q, q[i].ref);
      }
    }
  }

  lemma AttachListsOk(
    byPriority: bool, ck: ConnectedKeys, peers: Subscribers, sp: Spec, a: Address, o: Option<Key>, s: Subscriber)
    requires ListsOk(byPriority, ck, peers, sp.owner) && RefFor(peers, sp, a, s.ref)
    requires a in peers ==> s.priority == peers[a].priority
    requires !InList(ck, o, s.ref)
    ensures ListsOk(byPriority, Connect(byPriority, ck, o, Connected(s.ref, s.priority)), peers[a := s],
      sp.owner[s.ref := a])
  {
    var peers', owner' := peers[a := s], sp.owner[s.ref := a];
    forall c: Connected | EntryOk(peers, sp.owner, c) ensures EntryOk(peers', owner', c) {
    }
    forall o' | o' in ck ensures ListOk(byPriority, peers', owner', ck[o']) {
      assert ListOk(byPriority, peers, sp.owner, ck[o']);
      EntriesKept(peers, peers', sp.owner, owner', ck[o']);
    }
    ConnectListOk(byPriority, peers', owner', ck, o, Connected(s.ref, s.priority));
  }

  lemma TargetRef(byPriority: bool, keyless: bool, v: Views, sp: Spec, a: Address, priority: int)
    requires Consistent(byPriority, keyless, v, sp)
    ensures RefFor(v.peers, sp, a, Target(v, a, priority).ref)
    ensures a !in v.peers ==>
      forall o :: Subscription(a, o) !in sp.subs && !InList(v.connected, o, Target(v, a, priority).ref)
  {
    NextRefIsNew(byPriority, v, sp.owner);
    if a in v.peers {
      assert SubscriberOk(v.peers[a], sp, a);
    }
  }

  lemma TargetOk(
    keyless: bool, v: Views, sp: Spec, sp': Spec, a: Address, o: Option<Key>, keyId: Option<int>, s: Subscriber)
    requires SubscribersOk(v.peers, sp) && SubsOk(keyless, v.peers, sp.subs) && s == Target(v, a, s.priority)
    requires Subscription(a, o) !in sp.subs && Disciplined(keyless, a, o) && IdMatchesKind(a, keyId)
    requires sp'.subs == sp.subs[Subscription(a, o) := if keyId.Some? then keyId.value else 0]
    requires sp'.owner == sp.owner[s.ref := a]
    ensures SubscriberOk(WithKey(s, o, keyId), sp', a)
  {
    if a in v.peers {
      assert SubscriberOk(v.peers[a], sp, a);
    }
    WithKeyOk(s, sp, sp', a, o, keyId);
  }

  lemma ExtendedPeers(
    byPriority: bool, keyless: bool, v: Views, sp: Spec, a: Address, o: Option<Key>, keyId: Option<int>, priority: int)
    requires Consistent(byPriority, keyless, v, sp) && Disciplined(keyless, a, o) && IdMatchesKind(a, keyId)
    requires Subscription(a, o) !in sp.subs
    ensures
      var v' := Extended(byPriority, v, a, o, keyId, Target(v, a, priority));
      var sp' := SpecAttach(v, sp, a, o, keyId, priority);
      SubscribersOk(v'.peers, sp') && OwnersOk(v'.peers, sp'.owner, v'.nextRef)
  {
    var s, sp' := Target(v, a, priority), SpecAttach(v, sp, a, o, keyId, priority);
    TargetRef(byPriority, keyless, v, sp, a, priority);
    if a in v.peers {
      assert OwnerOk(v.peers, sp.owner, v.nextRef, s.ref);
    }
    TargetOk(keyless, v, sp, sp', a, o, keyId, s);
    AttachSubscribersOk(v.peers, sp, sp', a, o, keyId, s);
    var nextRef' := if a in v.peers then v.nextRef else v.nextRef + 1;
    AttachOwnersOk(v.peers, sp.owner, v.nextRef, nextRef', a, WithKey(s, o, keyId));
  }

  lemma ExtendedLists(
    byPriority: bool, keyless: bool, v: Views, sp: Spec, a: Address, o: Option<Key>, keyId: Option<int>, priority: int)
    requires Consistent(byPriority, keyless, v, sp) && !InList(v.connected, o, Target(v, a, priority).ref)
    ensures
      var v' := Extended(byPriority, v, a, o, keyId, Target(v, a, priority));
      var sp' := SpecAttach(v, sp, a, o, keyId, priority);
      AllListedOk(v'.connected, sp') && ListsOk(byPriority, v'.connected, v'.peers, sp'.owner)
  {
    var s, sp' := Target(v, a, priority), SpecAttach(v, sp, a, o, keyId, priority);
    var id := if keyId.Some? then keyId.value else 0;
    TargetRef(byPriority, keyless, v, sp, a, priority);
    AttachListed(byPriority, v.connected, v.peers, sp, sp', v.nextRef, a, o, id, Connected(s.ref, s.priority));
    AttachListsOk(byPriority, v.connected, v.peers, sp, a, o, WithKey(s, o, keyId));
  }

  lemma ExtendedSubs(
    keyless: bool, peers: Subscribers, subs: map<Subscription, int>, a: Address, o: Option<Key>, id: int, s: Subscriber)
    requires SubsOk(keyless, peers, subs) && Disciplined(keyless, a, o) && Subscription(a, o) !in subs
    ensures SubsOk(keyless, peers[a := s], subs[Subscription(a, o) := id])
    ensures |subs[Subscription(a, o) := id]| == |subs| + 1
  {
    assert subs[Subscription(a, o) := id].Keys == subs.Keys + {Subscription(a, o)};
  }

  lemma AttachPriorities(
    v: Views, priorities: map<Address, int>, a: Address, o: Option<Key>, keyId: Option<int>, priority: int)
    requires PrioritiesOk(v.peers, priorities)
    ensures PrioritiesOk(v.peers[a := WithKey(Target(v, a, priority), o, keyId)], Ranked(priorities, a, priority))
  {
    var peers' := v.peers[a := WithKey(Target(v, a, priority), o, keyId)];
    forall b ensures PriorityOk(peers', Ranked(priorities, a, priority), b) {
      assert PriorityOk(v.peers, priorities, b);
    }
  }

  lemma AttachNew(
    byPriority: bool, keyless: bool, v: Views, sp: Spec, a: Address, o: Option<Key>, keyId: Option<int>, priority: int)
    requires Consistent(byPriority, keyless, v, sp) && Disciplined(keyless, a, o) && IdMatchesKind(a, keyId)
    requires Subscription(a, o) !in sp.subs && !InList(v.connected, o, Target(v, a, priority).ref)
    ensures Consistent(byPriority, keyless, Extended(byPriority, v, a, o, keyId, Target(v, a, priority)),
      SpecAttach(v, sp, a, o, keyId, priority))
  {
    ExtendedPeers(byPriority, keyless, v, sp, a, o, keyId, priority);
    ExtendedLists(byPriority, keyless, v, sp, a, o, keyId, priority);
    AttachPriorities(v, sp.priorities, a, o, keyId, priority);
    var id := if keyId.Some? then keyId.value else 0;
    ExtendedSubs(keyless, v.peers, sp.subs, a, o, id, WithKey(Target(v, a, priority), o, keyId));
  }

  lemma AttachDecides(
    byPriority: bool, keyless: bool, v: Views, sp: Spec, a: Address, o: Option<Key>, keyId: Option<int>, priority: int)
    requires SubscribersOk(v.peers, sp) && AllListedOk(v.connected, sp) && SubsOk(keyless, v.peers, sp.subs)
    requires OwnersOk(v.peers, sp.owner, v.nextRef) && ListsOk(byPriority, v.connected, v.peers, sp.owner)
    ensures Attach(byPriority, v, a, o, keyId, priority) ==
      if Subscription(a, o) in sp.subs then Attached(v, false)
      else Attached(Extended(byPriority, v, a, o, keyId, Target(v, a, priority)), true)
    ensures Subscription(a, o) !in sp.subs ==> !InList(v.connected, o, Target(v, a, priority).ref)
  {
    ConnectedIffSubscribed(v, sp, keyless, a, o);
    if a in v.peers {
      assert v.peers[a := v.peers[a]] == v.peers;
    } else {
      NextRefIsNew(byPriority, v, sp.owner);
      assert Subscription(a, o) !in sp.subs;
    }
  }

  /** Attaching adds the subscription, unless it is there already, in which case nothing changes. */
  lemma AttachKeepsConsistent(
    byPriority: bool, keyless: bool, v: Views, sp: Spec, a: Address, o: Option<Key>, keyId: Option<int>, priority: int)
    requires Consistent(byPriority, keyless, v, sp) && Disciplined(keyless, a, o) && IdMatchesKind(a, keyId)
    ensures Attach(byPriority, v, a, o, keyId, priority).ok <==> Subscription(a, o) !in sp.subs
    ensures Subscription(a, o) in sp.subs ==> Attach(byPriority, v, a, o, keyId, priority).views == v
    ensures Subscription(a, o) !in sp.subs ==>
      Consistent(byPriority, keyless, Attach(byPriority, v, a, o, keyId, priority).views,
        SpecAttach(v, sp, a, o, keyId, priority))
  {
    AttachDecides(byPriority, keyless, v, sp, a, o, keyId, priority);
    if Subscription(a, o) !in sp.subs {
      AttachNew(byPriority, keyless, v, sp, a, o, keyId, priority);
    }
  }

  // ----- detaching -----

  predicate HasSubscriptions(subs: map<Subscription, int>, a: Address) {
    exists x :: x in subs && x.peer == a
  }

  /** A peer is forgotten with its last subscription. */
  function StillRanked(subs: map<Subscription, int>, priorities: map<Address, int>, a: Address): map<Address, int> {
    if HasSubscriptions(subs, a) then priorities else priorities - {a}
  }

  function SpecDetach(v: Views, sp: Spec, a: Address, o: Option<Key>): Spec
    requires a in v.peers
  {
    var subs := sp.subs - {Subscription(a, o)};
    Spec(subs, if WithoutKey(v.peers[a], o).keys == {} then sp.owner - {v.peers[a].ref} else sp.owner,
         StillRanked(subs, sp.priorities, a))
  }

  lemma UnlistLists(ck: ConnectedKeys, o: Option<Key>, ref: nat, o': Option<Key>, r: nat)
    requires InList(ck, o, ref) && NoRepeats(ck[o])
    ensures InList(Unlist(ck, o, ref), o', r) <==> InList(ck, o', r) && !(o' == o && r == ref)
  {
    EraseLists(ck[o], IndexOf(ck[o], ref), r);
  }

  lemma WithoutKeyOk(keyless: bool, s: Subscriber, sp: Spec, a: Address, o: Option<Key>)
    requires SubscriberOk(s, sp, a) && Subscription(a, o) in sp.subs
    requires forall x :: x in sp.subs ==> Disciplined(keyless, x.peer, x.key)
    ensures var sp' := sp.(subs := sp.subs - {Subscription(a, o)});
      if WithoutKey(s, o).keys == {} then forall x :: x in sp'.subs ==> x.peer != a
      else SubscriberOk(WithoutKey(s, o), sp', a)
  {
    var s', subs' := WithoutKey(s, o), sp.subs - {Subscription(a, o)};
    assert Disciplined(keyless, Subscription(a, o).peer, Subscription(a, o).key);
    forall k ensures k in s'.keys <==> Subscription(a, Some(k)) in subs' {
      assert k in s.keys <==> Subscription(a, Some(k)) in sp.subs;
      assert Subscription(a, Some(k)) in sp.subs ==>
        Disciplined(keyless, Subscription(a, Some(k)).peer, Subscription(a, Some(k)).key);
    }
    if s'.keys == {} {
      forall x | x in subs' ensures x.peer != a {
        assert Disciplined(keyless, x.peer, x.key);
        if x.key.Some? {
          assert x == Subscription(x.peer, Some(x.key.value));
        } else {
          assert x == Subscription(x.peer, None);
        }
      }
    } else {
      assert s'.keyIds.Keys == if a.element > 0 then s'.keys else {};
    }
  }

  lemma DetachSubscribersOk(peers: Subscribers, sp: Spec, sp': Spec, a: Address, o: Option<Key>, s: Subscriber)
    requires SubscribersOk(peers, sp) && a in peers && s.ref == peers[a].ref
    requires s.keys != {} ==> SubscriberOk(s, sp', a)
    requires sp'.subs == sp.subs - {Subscription(a, o)}
    requires sp'.owner == if s.keys == {} then sp.owner - {s.ref} else sp.owner
    ensures SubscribersOk(Remaining(peers, a, s), sp')
  {
    assert SubscriberOk(peers[a], sp, a);
    assert SameElsewhere(sp.subs, sp'.subs, a);
    OtherSubscribersOk(peers, sp, sp', a, s.ref);
  }

  lemma DetachSubs(
    keyless: bool, peers: Subscribers, subs: map<Subscription, int>, a: Address, o: Option<Key>, s: Subscriber)
    requires SubsOk(keyless, peers, subs) && Subscription(a, o) in subs
    requires s.keys == {} ==> forall x :: x in subs - {Subscription(a, o)} ==> x.peer != a
    ensures SubsOk(keyless, Remaining(peers, a, s), subs - {Subscription(a, o)})
    ensures |subs - {Subscription(a, o)}| == |subs| - 1
  {
    assert (subs - {Subscription(a, o)}).Keys == subs.Keys - {Subscription(a, o)};
  }

  lemma DetachOwners(peers: Subscribers, owner: map<nat, Address>, nextRef: nat, a: Address, s: Subscriber)
    requires OwnersOk(peers, owner, nextRef) && a in peers && s.ref == peers[a].ref
    requires s.ref in owner && owner[s.ref] == a
    ensures OwnersOk(peers[a := s], owner, nextRef)
    ensures OwnersOk(peers - {a}, owner - {s.ref}, nextRef)
  {
    forall r | r in owner
      ensures OwnerOk(peers[a := s], owner, nextRef, r)
      ensures r != s.ref ==> OwnerOk(peers - {a}, owner - {s.ref}, nextRef, r)
    {
      assert OwnerOk(peers, owner, nextRef, r);
    }
  }

  lemma DetachListed(ck: ConnectedKeys, sp: Spec, sp': Spec, a: Address, o: Option<Key>, ref: nat)
    requires AllListedOk(ck, sp) && ref in sp.owner && sp.owner[ref] == a
    requires InList(ck, o, ref) && NoRepeats(ck[o])
    requires forall r :: r in sp'.owner ==>
      r in sp.owner && sp'.owner[r] == sp.owner[r] && (sp.owner[r] == a ==> r == ref)
    requires sp'.subs == sp.subs - {Subscription(a, o)}
    ensures AllListedOk(Unlist(ck, o, ref), sp')
  {
    forall r, o' | r in sp'.owner ensures ListedOk(Unlist(ck, o, ref), sp', r, o') {
      assert ListedOk(ck, sp, r, o');
      UnlistLists(ck, o, ref, o', r);
    }
  }

  lemma UnlistListOk(
    byPriority: bool, ck: ConnectedKeys, peers: Subscribers, owner: map<nat, Address>, o: Option<Key>, ref: nat,
    o': Option<Key>)
    requires InList(ck, o, ref) && ListsOk(byPriority, ck, peers, owner) && o' in Unlist(ck, o, ref)
    ensures ListOk(byPriority, peers, owner, Unlist(ck, o, ref)[o'])
  {
    assert ListOk(byPriority, peers, owner, ck[o']);
    if o' == o {
      var q, i := ck[o], IndexOf(ck[o], ref);
      EraseKeeps(q, i);
      var e := EraseAt(q, i);
      forall j | 0 <= j < |e| ensures EntryOk(peers, owner, e[j]) {
        assert e[j] == q[if j < i then j else j + 1];
      }
    }
  }

  lemma DetachListsOk(
    byPriority: bool, ck: ConnectedKeys, peers: Subscribers, owner: map<nat, Address>, a: Address, o: Option<Key>,
    s: Subscriber)
    requires ListsOk(byPriority, ck, peers, owner) && InList(ck, o, s.ref)
    requires a in peers && s.ref == peers[a].ref && s.priority == peers[a].priority && s.ref in owner &&
      owner[s.ref] == a
    requires s.keys == {} ==> forall o' :: !InList(Unlist(ck, o, s.ref), o', s.ref)
    ensures ListsOk(byPriority, Unlist(ck, o, s.ref), Remaining(peers, a, s),
      if s.keys == {} then owner - {s.ref} else owner)
  {
    var ck', peers' := Unlist(ck, o, s.ref), Remaining(peers, a, s);
    var owner' := if s.keys == {} then owner - {s.ref} else owner;
    forall o' | o' in ck' ensures ListOk(byPriority, peers', owner', ck'[o']) {
      UnlistListOk(byPriority, ck, peers, owner, o, s.ref, o');
      var q := ck'[o'];
      forall i | 0 <= i < |q| ensures EntryOk(peers', owner', q[i]) {
        assert EntryOk(peers, owner, q[i]);
        assert Lists(q, q[i].ref);
        assert s.keys == {} ==> !InList(ck', o', s.ref);
      }
    }
  }

  /** What a connected peer's subscriber satisfies. */
  lemma ConnectedFacts(byPriority: bool, keyless: bool, v: Views, sp: Spec, a: Address, o: Option<Key>)
    requires Consistent(byPriority, keyless, v, sp) && IsConnected(v, a, o)
    ensures SubscriberOk(v.peers[a], sp, a) && NoRepeats(v.connected[o])
    ensures forall r :: r in sp.owner && sp.owner[r] == a ==> r == v.peers[a].ref
  {
    assert ListOk(byPriority, v.peers, sp.owner, v.connected[o]);
    forall r | r in sp.owner && sp.owner[r] == a ensures r == v.peers[a].ref {
      assert OwnerOk(v.peers, sp.owner, v.nextRef, r);
    }
  }

  lemma DetachPeers(byPriority: bool, keyless: bool, v: Views, sp: Spec, a: Address, o: Option<Key>)
    requires Consistent(byPriority, keyless, v, sp) && IsConnected(v, a, o) && Subscription(a, o) in sp.subs
    ensures
      var v', sp' := Detach(v, a, o), SpecDetach(v, sp, a, o);
      && SubscribersOk(v'.peers, sp')
      && OwnersOk(v'.peers, sp'.owner, v'.nextRef)
      && SubsOk(keyless, v'.peers, sp'.subs)
      && |sp'.subs| == |sp.subs| - 1
  {
    var s, sp' := WithoutKey(v.peers[a], o), SpecDetach(v, sp, a, o);
    ConnectedFacts(byPriority, keyless, v, sp, a, o);
    WithoutKeyOk(keyless, v.peers[a], sp, a, o);
    DetachSubscribersOk(v.peers, sp, sp', a, o, s);
    DetachSubs(keyless, v.peers, sp.subs, a, o, s);
    DetachOwners(v.peers, sp.owner, v.nextRef, a, s);
  }

  lemma LastEntryGone(ck: ConnectedKeys, sp: Spec, a: Address, o: Option<Key>, ref: nat, o': Option<Key>)
    requires AllListedOk(ck, sp) && ref in sp.owner && sp.owner[ref] == a
    requires InList(ck, o, ref) && NoRepeats(ck[o])
    requires forall x :: x in sp.subs - {Subscription(a, o)} ==> x.peer != a
    ensures !InList(Unlist(ck, o, ref), o', ref)
  {
    UnlistLists(ck, o, ref, o', ref);
    assert ListedOk(ck, sp, ref, o');
    assert Subscription(a, o').peer == a;
  }

  lemma DetachLists(byPriority: bool, keyless: bool, v: Views, sp: Spec, a: Address, o: Option<Key>)
    requires Consistent(byPriority, keyless, v, sp) && IsConnected(v, a, o) && Subscription(a, o) in sp.subs
    ensures
      var v', sp' := Detach(v, a, o), SpecDetach(v, sp, a, o);
      AllListedOk(v'.connected, sp') && ListsOk(byPriority, v'.connected, v'.peers, sp'.owner)
  {
    var s := WithoutKey(v.peers[a], o);
    ConnectedFacts(byPriority, keyless, v, sp, a, o);
    DetachListed(v.connected, sp, SpecDetach(v, sp, a, o), a, o, s.ref);
    if s.keys == {} {
      WithoutKeyOk(keyless, v.peers[a], sp, a, o);
      forall o' ensures !InList(Unlist(v.connected, o, s.ref), o', s.ref) {
        LastEntryGone(v.connected, sp, a, o, s.ref, o');
      }
    }
    DetachListsOk(byPriority, v.connected, v.peers, sp.owner, a, o, s);
  }

  lemma LeftIffSubscribed(keyless: bool, s: Subscriber, sp: Spec, a: Address, o: Option<Key>)
    requires SubscriberOk(s, sp, a) && Subscription(a, o) in sp.subs
    requires forall x :: x in sp.subs ==> Disciplined(keyless, x.peer, x.key)
    ensures HasSubscriptions(sp.subs - {Subscription(a, o)}, a) <==> WithoutKey(s, o).keys != {}
  {
    WithoutKeyOk(keyless, s, sp, a, o);
    var s' := WithoutKey(s, o);
    if s'.keys != {} {
      var k := SomeMember(s'.keys);
      assert Subscription(a, Some(k)) in sp.subs - {Subscription(a, o)};
    }
  }

  lemma RemainingPriorities(peers: Subscribers, priorities: map<Address, int>, a: Address, s: Subscriber)
    requires PrioritiesOk(peers, priorities) && a in peers && s.priority == peers[a].priority
    ensures PrioritiesOk(Remaining(peers, a, s), if s.keys == {} then priorities - {a} else priorities)
  {
    var priorities' := if s.keys == {} then priorities - {a} else priorities;
    forall b ensures PriorityOk(Remaining(peers, a, s), priorities', b) {
      assert PriorityOk(peers, priorities, b);
    }
  }

  lemma DetachPriorities(keyless: bool, v: Views, sp: Spec, a: Address, o: Option<Key>)
    requires SubscribersOk(v.peers, sp) && SubsOk(keyless, v.peers, sp.subs) && PrioritiesOk(v.peers, sp.priorities)
    requires IsConnected(v, a, o) && Subscription(a, o) in sp.subs
    ensures PrioritiesOk(Detach(v, a, o).peers, SpecDetach(v, sp, a, o).priorities)
  {
    assert SubscriberOk(v.peers[a], sp, a);
    LeftIffSubscribed(keyless, v.peers[a], sp, a, o);
    RemainingPriorities(v.peers, sp.priorities, a, WithoutKey(v.peers[a], o));
  }

  /** Detaching removes the subscription; detaching again is a no-op. */
  lemma DetachKeepsConsistent(byPriority: bool, keyless: bool, v: Views, sp: Spec, a: Address, o: Option<Key>)
    requires Consistent(byPriority, keyless, v, sp)
    ensures Subscription(a, o) !in sp.subs ==> Detach(v, a, o) == v
    ensures Subscription(a, o) in sp.subs ==>
      a in v.peers && Consistent(byPriority, keyless, Detach(v, a, o), SpecDetach(v, sp, a, o))
    ensures Detach(Detach(v, a, o), a, o) == Detach(v, a, o)
  {
    ConnectedIffSubscribed(v, sp, keyless, a, o);
    if Subscription(a, o) in sp.subs {
      DetachPeers(byPriority, keyless, v, sp, a, o);
      DetachLists(byPriority, keyless, v, sp, a, o);
      DetachPriorities(keyless, v, sp, a, o);
      ConnectedIffSubscribed(Detach(v, a, o), SpecDetach(v, sp, a, o), keyless, a, o);
    }
  }

  // ----- whole runs -----

  datatype Op =
    | AttachOp(peer: Address, key: Option<Key>, keyId: Option<int>, priority: int)
    | DetachOp(peer: Address, key: Option<Key>)

  const EMPTY := Views(map[], map[], 0, 0)

  function Apply(byPriority: bool, v: Views, op: Op): Views {
    match op
    case AttachOp(a, o, keyId, priority) => Attach(byPriority, v, a, o, keyId, priority).views
    case DetachOp(a, o) => Detach(v, a, o)
  }

  /** The reference behaviour: a plain map of subscriptions, and a plain map of the peers' priorities. */
  datatype Reference = Reference(subs: map<Subscription, int>, priorities: map<Address, int>)

  function SpecApply(r: Reference, op: Op): Reference {
    match op
    case AttachOp(a, o, keyId, priority) =>
      if Subscription(a, o) in r.subs then r
      else
        Reference(r.subs[Subscription(a, o) := if keyId.Some? then keyId.value else 0],
                  if HasSubscriptions(r.subs, a) then r.priorities else r.priorities[a := priority])
    case DetachOp(a, o) =>
      var subs := r.subs - {Subscription(a, o)};
      Reference(subs, if HasSubscriptions(subs, a) then r.priorities else r.priorities - {a})
  }

  function Described(r: Reference, owner: map<nat, Address>): Spec {
    Spec(r.subs, owner, r.priorities)
  }

  function Run(byPriority: bool, ops: seq<Op>): Views {
    if ops == [] then EMPTY else Apply(byPriority, Run(byPriority, ops[..|ops| - 1]), ops[|ops| - 1])
  }

  function SpecRun(ops: seq<Op>): Reference {
    if ops == [] then Reference(map[], map[]) else SpecApply(SpecRun(ops[..|ops| - 1]), ops[|ops| - 1])
  }

  predicate WellBehaved(keyless: bool, op: Op) {
    op.AttachOp? ==> Disciplined(keyless, op.peer, op.key) && IdMatchesKind(op.peer, op.keyId)
  }

  /** The peers with a priority are those with a subscription. */
  lemma RankedIffSubscribed(keyless: bool, peers: Subscribers, sp: Spec, a: Address)
    requires SubscribersOk(peers, sp) && SubsOk(keyless, peers, sp.subs) && PrioritiesOk(peers, sp.priorities)
    ensures a in sp.priorities <==> HasSubscriptions(sp.subs, a)
  {
    assert PriorityOk(peers, sp.priorities, a);
    if a in peers {
      assert SubscriberOk(peers[a], sp, a);
      if peers[a].keys != {} {
        var k := SomeMember(peers[a].keys);
        assert Subscription(a, Some(k)) in sp.subs;
      }
    }
  }

  lemma AttachRefines(
    byPriority: bool, keyless: bool, v: Views, r: Reference, before: map<nat, Address>, op: Op)
    returns (owner: map<nat, Address>)
    requires Consistent(byPriority, keyless, v, Described(r, before)) && WellBehaved(keyless, op) && op.AttachOp?
    ensures Consistent(byPriority, keyless, Apply(byPriority, v, op), Described(SpecApply(r, op), owner))
  {
    var sp := Described(r, before);
    AttachKeepsConsistent(byPriority, keyless, v, sp, op.peer, op.key, op.keyId, op.priority);
    RankedIffSubscribed(keyless, v.peers, sp, op.peer);
    if Subscription(op.peer, op.key) in r.subs {
      owner := before;
    } else {
      owner := SpecAttach(v, sp, op.peer, op.key, op.keyId, op.priority).owner;
    }
  }

  lemma RemoveAbsent<K, T>(m: map<K, T>, x: K)
    requires x !in m
    ensures m - {x} == m
  {
  }

  lemma DetachNothing(r: Reference, op: Op)
    requires op.DetachOp? && Subscription(op.peer, op.key) !in r.subs
    requires op.peer in r.priorities <==> HasSubscriptions(r.subs, op.peer)
    ensures SpecApply(r, op) == r
  {
    RemoveAbsent(r.subs, Subscription(op.peer, op.key));
    if !HasSubscriptions(r.subs, op.peer) {
      RemoveAbsent(r.priorities, op.peer);
    }
  }

  lemma DetachPresent(
    byPriority: bool, keyless: bool, v: Views, r: Reference, before: map<nat, Address>, op: Op)
    returns (owner: map<nat, Address>)
    requires Consistent(byPriority, keyless, v, Described(r, before))
    requires op.DetachOp? && Subscription(op.peer, op.key) in r.subs
    ensures Consistent(byPriority, keyless, Detach(v, op.peer, op.key), Described(SpecApply(r, op), owner))
  {
    var sp := Described(r, before);
    DetachKeepsConsistent(byPriority, keyless, v, sp, op.peer, op.key);
    owner := SpecDetach(v, sp, op.peer, op.key).owner;
    assert SpecDetach(v, sp, op.peer, op.key) == Described(SpecApply(r, op), owner);
  }

  lemma DetachAbsent(
    byPriority: bool, keyless: bool, v: Views, r: Reference, before: map<nat, Address>, op: Op)
    requires Consistent(byPriority, keyless, v, Described(r, before))
    requires op.DetachOp? && Subscription(op.peer, op.key) !in r.subs
    ensures Detach(v, op.peer, op.key) == v && SpecApply(r, op) == r
  {
    DetachKeepsConsistent(byPriority, keyless, v, Described(r, before), op.peer, op.key);
    RankedIffSubscribed(keyless, v.peers, Described(r, before), op.peer);
    DetachNothing(r, op);
  }

  lemma DetachRefines(
    byPriority: bool, keyless: bool, v: Views, r: Reference, before: map<nat, Address>, op: Op)
    returns (owner: map<nat, Address>)
    requires Consistent(byPriority, keyless, v, Described(r, before)) && op.DetachOp?
    ensures Consistent(byPriority, keyless, Apply(byPriority, v, op), Described(SpecApply(r, op), owner))
  {
    if Subscription(op.peer, op.key) in r.subs {
      owner := DetachPresent(byPriority, keyless, v, r, before, op);
    } else {
      DetachAbsent(byPriority, keyless, v, r, before, op);
      owner := before;
    }
  }

  lemma ApplyRefines(
    byPriority: bool, keyless: bool, v: Views, r: Reference, before: map<nat, Address>, op: Op)
    returns (owner: map<nat, Address>)
    requires Consistent(byPriority, keyless, v, Described(r, before)) && WellBehaved(keyless, op)
    ensures Consistent(byPriority, keyless, Apply(byPriority, v, op), Described(SpecApply(r, op), owner))
  {
    if op.AttachOp? {
      owner := AttachRefines(byPriority, keyless, v, r, before, op);
    } else {
      owner := DetachRefines(byPriority, keyless, v, r, before, op);
    }
  }

  lemma RunStep(byPriority: bool, ops: seq<Op>, op: Op)
    ensures Run(byPriority, ops + [op]) == Apply(byPriority, Run(byPriority, ops), op)
    ensures SpecRun(ops + [op]) == SpecApply(SpecRun(ops), op)
  {
    assert (ops + [op])[..|ops|] == ops;
  }

  lemma EmptyIsConsistent(byPriority: bool, keyless: bool)
    ensures Consistent(byPriority, keyless, EMPTY, Spec(map[], map[], map[]))
  {
  }

  lemma RunStepIsConsistent(
    byPriority: bool, keyless: bool, ops: seq<Op>, op: Op, before: map<nat, Address>) returns (owner: map<nat, Address>)
    requires Consistent(byPriority, keyless, Run(byPriority, ops), Described(SpecRun(ops), before))
    requires WellBehaved(keyless, op)
    ensures Consistent(byPriority, keyless, Run(byPriority, ops + [op]), Described(SpecRun(ops + [op]), owner))
  {
    owner := ApplyRefines(byPriority, keyless, Run(byPriority, ops), SpecRun(ops), before, op);
    RunStep(byPriority, ops, op);
  }

  /** Over any sequence of attach and detach calls the stored views keep describing one map of subscriptions, the one a
      plain map would hold: each subscriber object belongs to one peer and holds its keys, its ids and the priority it
      came with, each list names the objects connected under its key, and the count is the number of subscriptions. */
  lemma {:induction false} RunIsConsistent(
    byPriority: bool, keyless: bool, ops: seq<Op>) returns (owner: map<nat, Address>)
    requires forall i :: 0 <= i < |ops| ==> WellBehaved(keyless, ops[i])
    ensures Consistent(byPriority, keyless, Run(byPriority, ops), Described(SpecRun(ops), owner))
  {
    if ops == [] {
      EmptyIsConsistent(byPriority, keyless);
      owner := map[];
    } else {
      var init, last := ops[..|ops| - 1], ops[|ops| - 1];
      assert ops == init + [last];
      var before := RunIsConsistent(byPriority, keyless, init);
      owner := RunStepIsConsistent(byPriority, keyless, init, last, before);
    }
  }

  // ----- priorities -----

  function Threshold(ck: ConnectedKeys, t: int, o: Option<Key>): int {
    if o in ck && ck[o] != [] && ck[o][|ck[o]| - 1].priority > t then ck[o][|ck[o]| - 1].priority else t
  }

  /** hasLowerPriorityThanConnected: compares with the last entry of the key's list and of the null key's list. */
  function HasLowerPriority(ck: ConnectedKeys, priority: int, k: Key): bool {
    var t := Threshold(ck, priority, Some(k));
    priority < Threshold(ck, t, None)
  }

  /** A publisher subscribed under the key or the null key whose priority is strictly higher. */
  ghost predicate Outranks(
    subs: map<Subscription, int>, priorities: map<Address, int>, priority: int, k: Key, a: Address)
  {
    && a in priorities && priorities[a] > priority
    && (Subscription(a, Some(k)) in subs || Subscription(a, None) in subs)
  }

  lemma ThresholdIsGreatest(ck: ConnectedKeys, t: int, o: Option<Key>)
    requires o in ck ==> Sorted(ck[o])
    ensures Threshold(ck, t, o) >= t
    ensures forall i :: o in ck && 0 <= i < |ck[o]| ==> ck[o][i].priority <= Threshold(ck, t, o)
  {
  }

  lemma LowerHasEntry(ck: ConnectedKeys, priority: int, k: Key) returns (o: Option<Key>)
    requires HasLowerPriority(ck, priority, k)
    ensures (o == Some(k) || o == None) && o in ck && ck[o] != [] && ck[o][|ck[o]| - 1].priority > priority
  {
    o := if Threshold(ck, priority, Some(k)) > priority then Some(k) else None;
  }

  lemma EntryOutranks(v: Views, sp: Spec, priority: int, k: Key, o: Option<Key>, i: nat) returns (a: Address)
    requires ListsOk(true, v.connected, v.peers, sp.owner) && AllListedOk(v.connected, sp)
    requires PrioritiesOk(v.peers, sp.priorities)
    requires (o == Some(k) || o == None) && o in v.connected
    requires i < |v.connected[o]| && v.connected[o][i].priority > priority
    ensures Outranks(sp.subs, sp.priorities, priority, k, a)
  {
    var c := v.connected[o][i];
    assert ListOk(true, v.peers, sp.owner, v.connected[o]);
    assert EntryOk(v.peers, sp.owner, c) && ListedOk(v.connected, sp, c.ref, o);
    assert Lists(v.connected[o], c.ref);
    a := sp.owner[c.ref];
    assert PriorityOk(v.peers, sp.priorities, a);
  }

  lemma LowerIsOutranked(v: Views, sp: Spec, priority: int, k: Key) returns (a: Address)
    requires ListsOk(true, v.connected, v.peers, sp.owner) && AllListedOk(v.connected, sp)
    requires PrioritiesOk(v.peers, sp.priorities)
    requires HasLowerPriority(v.connected, priority, k)
    ensures Outranks(sp.subs, sp.priorities, priority, k, a)
  {
    var o := LowerHasEntry(v.connected, priority, k);
    a := EntryOutranks(v, sp, priority, k, o, |v.connected[o]| - 1);
  }

  lemma ConnectedEntry(byPriority: bool, v: Views, sp: Spec, a: Address, o: Option<Key>)
    requires SubscribersOk(v.peers, sp) && ListsOk(byPriority, v.connected, v.peers, sp.owner) && IsConnected(v, a, o)
    ensures exists i :: 0 <= i < |v.connected[o]| && v.connected[o][i].priority == v.peers[a].priority
  {
    var q := v.connected[o];
    var i :| 0 <= i < |q| && q[i].ref == v.peers[a].ref;
    assert ListOk(byPriority, v.peers, sp.owner, q);
    assert EntryOk(v.peers, sp.owner, q[i]) && SubscriberOk(v.peers[a], sp, a);
  }

  lemma EntryIsLower(ck: ConnectedKeys, priority: int, k: Key, o: Option<Key>, i: nat)
    requires (Some(k) in ck ==> Sorted(ck[Some(k)])) && (None in ck ==> Sorted(ck[None]))
    requires (o == Some(k) || o == None) && o in ck && i < |ck[o]| && ck[o][i].priority > priority
    ensures HasLowerPriority(ck, priority, k)
  {
    var t := Threshold(ck, priority, Some(k));
    ThresholdIsGreatest(ck, priority, Some(k));
    ThresholdIsGreatest(ck, t, None);
  }

  lemma OutrankedIsLower(keyless: bool, v: Views, sp: Spec, priority: int, k: Key, a: Address)
    requires SubscribersOk(v.peers, sp) && AllListedOk(v.connected, sp) && SubsOk(keyless, v.peers, sp.subs)
    requires ListsOk(true, v.connected, v.peers, sp.owner) && PrioritiesOk(v.peers, sp.priorities)
    requires Outranks(sp.subs, sp.priorities, priority, k, a)
    ensures HasLowerPriority(v.connected, priority, k)
  {
    var o := if Subscription(a, Some(k)) in sp.subs then Some(k) else None;
    assert PriorityOk(v.peers, sp.priorities, a);
    ConnectedIffSubscribed(v, sp, keyless, a, o);
    ConnectedEntry(true, v, sp, a, o);
    var i :| 0 <= i < |v.connected[o]| && v.connected[o][i].priority == v.peers[a].priority;
    assert None in v.connected ==> ListOk(true, v.peers, sp.owner, v.connected[None]);
    assert Some(k) in v.connected ==> ListOk(true, v.peers, sp.owner, v.connected[Some(k)]);
    EntryIsLower(v.connected, priority, k, o, i);
  }

  /** Some publisher outranks the priority on the key. */
  ghost predicate Outranked(r: Reference, priority: int, k: Key) {
    exists a :: Outranks(r.subs, r.priorities, priority, k, a)
  }

  lemma ConsistentPriorities(
    keyless: bool, v: Views, r: Reference, owner: map<nat, Address>, priority: int, k: Key)
    requires Consistent(true, keyless, v, Described(r, owner))
    ensures HasLowerPriority(v.connected, priority, k) <==> Outranked(r, priority, k)
  {
    var sp := Described(r, owner);
    if HasLowerPriority(v.connected, priority, k) {
      var a := LowerIsOutranked(v, sp, priority, k);
    }
    if a :| Outranks(r.subs, r.priorities, priority, k, a) {
      OutrankedIsLower(keyless, v, sp, priority, k, a);
    }
  }

  /** For a reader with the Priority policy, after any run of attach and detach calls, a sample is outranked exactly
      when some publisher subscribed under its key or under the null key came with a strictly higher priority. */
  lemma LowerPriorityIffOutranked(keyless: bool, ops: seq<Op>, priority: int, k: Key)
    requires forall i :: 0 <= i < |ops| ==> WellBehaved(keyless, ops[i])
    ensures HasLowerPriority(Run(true, ops).connected, priority, k) <==> Outranked(SpecRun(ops), priority, k)
  {
    var owner := RunIsConsistent(true, keyless, ops);
    ConsistentPriorities(keyless, Run(true, ops), SpecRun(ops), owner, priority, k);
  }
}
