/** The interning factory for keys, tags and filters: elements are found by value and by id through weak pointers, and
    an element's deleter unregisters it some time after its last strong reference is gone. */
module Interning {
  import opened Samples

  /** `elements` and `byId` hold weak pointers, given by the id of the element they point at. `value` and `uses` stand
      for the elements ever created: what they hold and how many strong references there are. The elements in `dying`
      have lost their last reference and wait for their deleter. */
  datatype Factory = Factory(
    elements: map<Value, int>, byId: map<int, int>, nextId: int,
    value: map<int, Value>, uses: map<int, nat>, dying: set<int>)

  const INITIAL := Factory(map[], map[], 1, map[], map[], {})

  predicate Live(f: Factory, id: int) {
    id in f.uses && f.uses[id] > 0
  }

  /** weak_ptr::lock on a pointer that has not expired. */
  function Lock(f: Factory, id: int): Factory
    requires Live(f, id)
  {
    f.(uses := f.uses[id := f.uses[id] + 1])
  }

  function Register(f: Factory, v: Value): Factory {
    var id := f.nextId + 1;
    Factory(f.elements[v := id], f.byId[id := id], id, f.value[id := v], f.uses[id := 1], f.dying)
  }

  predicate Interned(f: Factory, v: Value) {
    v in f.elements && Live(f, f.elements[v])
  }

  /** createImpl. */
  function Create(f: Factory, v: Value): Factory {
    if Interned(f, v) then Lock(f, f.elements[v]) else Register(f, v)
  }

  /** The element createImpl returns. */
  function Created(f: Factory, v: Value): int {
    if Interned(f, v) then f.elements[v] else f.nextId + 1
  }

  /** create for several values, under one lock. */
  function CreateAll(f: Factory, vs: seq<Value>): Factory {
    if vs == [] then f else Create(CreateAll(f, vs[..|vs| - 1]), vs[|vs| - 1])
  }

  predicate Found(f: Factory, id: int) {
    id in f.byId && Live(f, f.byId[id])
  }

  /** getImpl. */
  function Get(f: Factory, id: int): Factory {
    if Found(f, id) then Lock(f, f.byId[id]) else f
  }

  /** A strong reference goes away; the last one leaves the element to its deleter. */
  function Release(f: Factory, id: int): Factory
    requires Live(f, id)
  {
    f.(uses := f.uses[id := f.uses[id] - 1], dying := if f.uses[id] == 1 then f.dying + {id} else f.dying)
  }

  /** remove, called by the deleter of a dying element. A live replacement is locked while the maps are updated; that
      reference is released by a later step. */
  function Unregister(f: Factory, id: int): Factory
    requires id in f.value
  {
    var v := f.value[id];
    f.(elements := if v in f.elements && !Interned(f, v) then f.elements - {v} else f.elements,
       uses := if Interned(f, v) then Lock(f, f.elements[v]).uses else f.uses,
       byId := f.byId - {id},
       dying := f.dying - {id})
  }

  // ----- steps -----

  datatype Step =
    | CreateStep(v: Value)
    | CreateAllStep(vs: seq<Value>)
    | GetStep(id: int)
    | CopyStep(id: int)
    | ReleaseStep(id: int)
    | DeleterStep(id: int)

  /** Only a live element can be copied or released, and only a dying one has its deleter run. */
  predicate Enabled(f: Factory, s: Step) {
    match s
    case CopyStep(id) => Live(f, id)
    case ReleaseStep(id) => Live(f, id)
    case DeleterStep(id) => id in f.dying && id in f.value
    case _ => true
  }

  function Next(f: Factory, s: Step): Factory
    requires Enabled(f, s)
  {
    match s
    case CreateStep(v) => Create(f, v)
    case CreateAllStep(vs) => CreateAll(f, vs)
    case GetStep(id) => Get(f, id)
    case CopyStep(id) => Lock(f, id)
    case ReleaseStep(id) => Release(f, id)
    case DeleterStep(id) => Unregister(f, id)
  }

  predicate Possible(ss: seq<Step>)
    decreases |ss|, 0
  {
    ss == [] || (Possible(ss[..|ss| - 1]) && Enabled(After(ss[..|ss| - 1]), ss[|ss| - 1]))
  }

  function After(ss: seq<Step>): Factory
    requires Possible(ss)
    decreases |ss|, 1
  {
    if ss == [] then INITIAL else Next(After(ss[..|ss| - 1]), ss[|ss| - 1])
  }

  // ----- the invariant -----

  /** Every element ever created has an id that was handed out. */
  ghost predicate IdsOk(f: Factory) {
    && f.uses.Keys == f.value.Keys
    && (forall id :: id in f.value ==> 1 < id <= f.nextId)
  }

  /** Both maps point at the element. */
  ghost predicate Registered(f: Factory, id: int) {
    && id in f.value
    && f.value[id] in f.elements && f.elements[f.value[id]] == id
    && id in f.byId && f.byId[id] == id
  }

  ghost predicate LiveOk(f: Factory) {
    forall id :: Live(f, id) ==> Registered(f, id)
  }

  /** An element is dying from its last release to its deleter's call. */
  ghost predicate DyingOk(f: Factory) {
    forall id :: id in f.dying ==> id in f.uses && f.uses[id] == 0
  }

  /** The maps point at nothing but live and dying elements, under their own value and id. */
  ghost predicate NoDangling(f: Factory) {
    && (forall v :: v in f.elements ==>
        f.elements[v] in f.value && f.value[f.elements[v]] == v && (Live(f, f.elements[v]) || f.elements[v] in f.dying))
    && (forall id :: id in f.byId ==> f.byId[id] == id && (Live(f, id) || id in f.dying))
  }

  ghost predicate Inv(f: Factory) {
    f.nextId >= 1 && IdsOk(f) && LiveOk(f) && DyingOk(f) && NoDangling(f)
  }

  lemma CreateKeepsInv(f: Factory, v: Value)
    requires Inv(f)
    ensures Inv(Create(f, v))
  {
    var f' := Create(f, v);
    if Interned(f, v) {
      forall id ensures Live(f', id) <==> Live(f, id) {
      }
    } else {
      var n := f.nextId + 1;
      assert n !in f.value;
      forall id ensures Live(f', id) <==> Live(f, id) || id == n {
      }
      forall id | Live(f', id) ensures Registered(f', id) {
        if id != n {
          assert Registered(f, id);
          assert f.value[id] != v;
        }
      }
    }
  }

  lemma {:induction false} CreateAllKeepsInv(f: Factory, vs: seq<Value>)
    requires Inv(f)
    ensures Inv(CreateAll(f, vs))
  {
    if vs != [] {
      CreateAllKeepsInv(f, vs[..|vs| - 1]);
      CreateKeepsInv(CreateAll(f, vs[..|vs| - 1]), vs[|vs| - 1]);
    }
  }

  lemma LockKeepsInv(f: Factory, id: int)
    requires Inv(f) && Live(f, id)
    ensures Inv(Lock(f, id))
  {
    assert Registered(f, id);
    forall j ensures Live(Lock(f, id), j) <==> Live(f, j) {
    }
  }

  lemma ReleaseKeepsInv(f: Factory, id: int)
    requires Inv(f) && Live(f, id)
    ensures Inv(Release(f, id))
  {
    var f' := Release(f, id);
    assert Registered(f, id);
    forall j ensures Live(f', j) ==> Live(f, j) {
    }
    forall j ensures Live(f, j) || j in f.dying ==> Live(f', j) || j in f'.dying {
    }
  }

  lemma UnregisterKeepsInv(f: Factory, id: int)
    requires Inv(f) && id in f.dying && id in f.value
    ensures Inv(Unregister(f, id))
  {
    var f' := Unregister(f, id);
    var v := f.value[id];
    forall j ensures Live(f', j) <==> Live(f, j) {
    }
    forall j | Live(f', j) ensures Registered(f', j) {
      assert Registered(f, j);
      assert j != id;
    }
    forall w | w in f'.elements
      ensures f'.elements[w] in f'.value && f'.value[f'.elements[w]] == w
      ensures Live(f', f'.elements[w]) || f'.elements[w] in f'.dying
    {
      assert w == v ==> Interned(f, v);
    }
  }

  lemma NextKeepsInv(f: Factory, s: Step)
    requires Inv(f) && Enabled(f, s)
    ensures Inv(Next(f, s))
  {
    match s
    case CreateStep(v) => CreateKeepsInv(f, v);
    case CreateAllStep(vs) => CreateAllKeepsInv(f, vs);
    case GetStep(id) => if Found(f, id) { LockKeepsInv(f, f.byId[id]); }
    case CopyStep(id) => LockKeepsInv(f, id);
    case ReleaseStep(id) => ReleaseKeepsInv(f, id);
    case DeleterStep(id) => UnregisterKeepsInv(f, id);
  }

  /** In every interleaving of creations, lookups, copies, releases and deleters, however late the deleters run: both
      maps point at every live element, so no deleter ever unregisters one. */
  lemma {:induction false} EveryRunKeepsInv(ss: seq<Step>)
    requires Possible(ss)
    ensures Inv(After(ss))
  {
    if ss != [] {
      var init := ss[..|ss| - 1];
      EveryRunKeepsInv(init);
      NextKeepsInv(After(init), ss[|ss| - 1]);
    }
  }

  /** At most one live element per value, and the lookups by value and by id return it. */
  lemma OneLiveElementPerValue(ss: seq<Step>, id: int, id': int)
    requires Possible(ss) && Live(After(ss), id)
    ensures Registered(After(ss), id) && Found(After(ss), id)
    ensures Created(After(ss), After(ss).value[id]) == id
    ensures Live(After(ss), id') && id' in After(ss).value && After(ss).value[id'] == After(ss).value[id] ==> id' == id
  {
    EveryRunKeepsInv(ss);
    assert Registered(After(ss), id);
    if Live(After(ss), id') {
      assert Registered(After(ss), id');
    }
  }

  /** A deleter, however late, leaves every live element registered, and takes its own element out of both maps. */
  lemma LateDeleterIsHarmless(ss: seq<Step>, id: int, other: int)
    requires Possible(ss) && Enabled(After(ss), DeleterStep(id))
    ensures Live(After(ss), other) ==>
      Live(Unregister(After(ss), id), other) && Registered(Unregister(After(ss), id), other)
    ensures var f := Unregister(After(ss), id); id !in f.byId && forall v :: v in f.elements ==> f.elements[v] != id
  {
    EveryRunKeepsInv(ss);
    var f := After(ss);
    UnregisterKeepsInv(f, id);
    var f' := Unregister(f, id);
    if Live(f, other) {
      assert Live(f', other);
    }
    forall v | v in f'.elements ensures f'.elements[v] != id {
      assert f.elements[v] == id ==> v == f.value[id];
    }
  }

  /** When nothing is alive or dying, nothing is registered. */
  lemma NothingLeaks(ss: seq<Step>)
    requires Possible(ss) && After(ss).dying == {} && forall id :: !Live(After(ss), id)
    ensures After(ss).elements == map[] && After(ss).byId == map[]
  {
    EveryRunKeepsInv(ss);
    var f := After(ss);
    assert forall v :: v !in f.elements;
    assert forall id :: id !in f.byId;
  }

  // ----- ids -----

  /** The elements of `f` are still those of `f'`, with the same values, and newer ones have greater ids. */
  ghost predicate Grows(f: Factory, f': Factory) {
    && f.nextId <= f'.nextId
    && (forall id :: id in f.value ==> id in f'.value && f'.value[id] == f.value[id])
    && (forall id :: id in f'.value && id !in f.value ==> f.nextId < id <= f'.nextId)
  }

  lemma {:induction false} CreateAllGrows(f: Factory, vs: seq<Value>)
    requires Inv(f)
    ensures Grows(f, CreateAll(f, vs))
  {
    if vs != [] {
      var init := vs[..|vs| - 1];
      CreateAllGrows(f, init);
      CreateAllKeepsInv(f, init);
      var f1 := CreateAll(f, init);
      assert f1.nextId + 1 !in f1.value;
      assert Grows(f1, Create(f1, vs[|vs| - 1]));
    }
  }

  lemma NextGrows(f: Factory, s: Step)
    requires Inv(f) && Enabled(f, s)
    ensures Grows(f, Next(f, s))
  {
    if s.CreateAllStep? {
      CreateAllGrows(f, s.vs);
    } else if s.CreateStep? {
      assert f.nextId + 1 !in f.value;
    }
  }

  /** Ids are never reused: an element keeps its id and value for ever, also when it is gone, and whatever is created
      later gets a greater id than everything handed out before. */
  lemma {:induction false} IdsAreNeverReused(ss: seq<Step>, n: nat)
    requires Possible(ss) && n <= |ss|
    ensures Possible(ss[..n]) && Grows(After(ss[..n]), After(ss))
  {
    if n == |ss| {
      assert ss[..n] == ss;
    } else {
      var init := ss[..|ss| - 1];
      assert init[..n] == ss[..n];
      IdsAreNeverReused(init, n);
      EveryRunKeepsInv(init);
      NextGrows(After(init), ss[|ss| - 1]);
    }
  }

  // ----- the factory object -----

  /** AbstractFactoryT, with the strong counts and the pending deleters of its elements. */
  class AbstractFactory {
    var elements: map<Value, int>
    var elementsById: map<int, int>
    var nextId: int
    var value: map<int, Value>
    var uses: map<int, nat>
    var dying: set<int>

    function State(): Factory
      reads this
    {
      Factory(elements, elementsById, nextId, value, uses, dying)
    }

    constructor ()
      ensures State() == INITIAL
    {
      elements, elementsById, nextId, value, uses, dying := map[], map[], 1, map[], map[], {};
    }

    method CreateImpl(v: Value) returns (k: int)
      requires Inv(State())
      modifies this
      ensures k == Created(old(State()), v) && State() == Create(old(State()), v)
      ensures Inv(State()) && Live(State(), k) && k in value && value[k] == v
    {
      CreateKeepsInv(State(), v);
      if v in elements {
        var p := elements[v];
        if p in uses && uses[p] > 0 {
          uses := uses[p := uses[p] + 1];
          return p;
        }
        elements := elements - {v};
      }
      nextId := nextId + 1;
      k := nextId;
      value := value[k := v];
      uses := uses[k := 1];
      elements := elements[v := k];
      elementsById := elementsById[k := k];
      assert elements == old(elements)[v := k];
    }

    /** Equal values get the same element, and each is alive at the end. */
    method CreateMany(values: seq<Value>) returns (ks: seq<int>)
      requires Inv(State())
      modifies this
      ensures State() == CreateAll(old(State()), values) && Inv(State())
      ensures |ks| == |values|
      ensures forall i :: 0 <= i < |ks| ==> Live(State(), ks[i]) && ks[i] in value && value[ks[i]] == values[i]
      ensures forall i, j :: 0 <= i < j < |ks| && values[i] == values[j] ==> ks[i] == ks[j]
    {
      ks := [];
      var i := 0;
      while i < |values|
        invariant 0 <= i <= |values| && |ks| == i
        invariant State() == CreateAll(old(State()), values[..i]) && Inv(State())
        invariant forall j :: 0 <= j < i ==> Live(State(), ks[j]) && ks[j] in value && value[ks[j]] == values[j]
      {
        var k := CreateImpl(values[i]);
        ks := ks + [k];
        assert values[..i + 1][..i] == values[..i];
        i := i + 1;
      }
      assert values[..i] == values;
      assert forall j :: 0 <= j < |ks| ==> Registered(State(), ks[j]);
    }

    method GetImpl(id: int) returns (k: Option<int>)
      requires Inv(State())
      modifies this
      ensures State() == Get(old(State()), id) && Inv(State())
      ensures k == if Live(old(State()), id) then Some(id) else None
    {
      assert Live(State(), id) ==> Registered(State(), id);
      if Found(State(), id) {
        LockKeepsInv(State(), elementsById[id]);
      }
      if id in elementsById && elementsById[id] in uses && uses[elementsById[id]] > 0 {
        k := Some(elementsById[id]);
        uses := uses[k.value := uses[k.value] + 1];
      } else {
        k := None;
      }
    }

    /** Returns the live replacement whose reference the caller drops afterwards. */
    method Remove(id: int) returns (e: Option<int>)
      requires Inv(State()) && id in dying && id in value
      modifies this
      ensures State() == Unregister(old(State()), id) && Inv(State())
      ensures e.Some? <==> Interned(old(State()), value[id])
      ensures e.Some? ==> Live(State(), e.value) && e.value != id && value[e.value] == value[id]
    {
      UnregisterKeepsInv(State(), id);
      e := None;
      var v := value[id];
      if v in elements {
        var p := elements[v];
        if p in uses && uses[p] > 0 {
          e := Some(p);
          uses := uses[p := uses[p] + 1];
        } else {
          elements := elements - {v};
        }
      }
      elementsById := elementsById - {id};
      dying := dying - {id};
    }
  }
}
