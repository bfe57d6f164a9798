/** What each step of the interning factory does in every reachable state, said in terms of elements and references. */
module InterningSteps {
  import opened Samples
  import opened Interning

  lemma RunSnoc(ss: seq<Step>, s: Step)
    ensures Possible(ss + [s]) <==> Possible(ss) && Enabled(After(ss), s)
    ensures Possible(ss + [s]) ==> After(ss + [s]) == Next(After(ss), s)
  {
    assert (ss + [s])[..|ss|] == ss;
  }

  // ----- ids -----

  /** The ids handed out are consecutive, from 2 on. */
  ghost predicate Consecutive(f: Factory) {
    f.nextId >= 1 && forall id :: id in f.value <==> 1 < id <= f.nextId
  }

  lemma {:induction false} CreateAllConsecutive(f: Factory, vs: seq<Value>)
    requires Consecutive(f)
    ensures Consecutive(CreateAll(f, vs))
  {
    if vs != [] {
      CreateAllConsecutive(f, vs[..|vs| - 1]);
    }
  }

  lemma {:induction false} IdsAreConsecutive(ss: seq<Step>)
    requires Possible(ss)
    ensures Consecutive(After(ss))
  {
    if ss != [] {
      var init, s := ss[..|ss| - 1], ss[|ss| - 1];
      IdsAreConsecutive(init);
      if s.CreateAllStep? {
        CreateAllConsecutive(After(init), s.vs);
      }
    }
  }

  // ----- references -----

  /** `id` has one reference more, and nothing else happened to the elements. */
  ghost predicate Referenced(f: Factory, f': Factory, id: int) {
    && id in f.uses && f'.uses == f.uses[id := f.uses[id] + 1]
    && f'.value == f.value && f'.nextId == f.nextId && f'.dying == f.dying
  }

  /** `id` is a new element with one reference, under the next id. */
  ghost predicate IsNew(f: Factory, f': Factory, v: Value, id: int) {
    && id == f.nextId + 1 && id !in f.value && f'.nextId == id
    && f'.value == f.value[id := v] && f'.uses == f.uses[id := 1] && f'.dying == f.dying
  }

  ghost predicate Holds(f: Factory, id: int, v: Value) {
    Live(f, id) && id in f.value && f.value[id] == v
  }

  /** A value has the live element that holds it, with one reference more, or a new element. */
  ghost predicate CreateOutcome(f: Factory, v: Value, f': Factory, id: int) {
    && Holds(f', id, v)
    && (if exists x :: Holds(f, x, v) then Holds(f, id, v) && Referenced(f, f', id) else IsNew(f, f', v, id))
  }

  lemma CreateMeans(f: Factory, v: Value)
    requires Inv(f)
    ensures CreateOutcome(f, v, Create(f, v), Created(f, v))
  {
    if x :| Holds(f, x, v) {
      assert Registered(f, x);
    }
    if Interned(f, v) {
      assert Holds(f, f.elements[v], v);
    }
  }

  lemma EveryCreateMeans(ss: seq<Step>, v: Value) returns (id: int)
    requires Possible(ss)
    ensures Possible(ss + [CreateStep(v)])
    ensures CreateOutcome(After(ss), v, After(ss + [CreateStep(v)]), id)
  {
    RunSnoc(ss, CreateStep(v));
    EveryRunKeepsInv(ss);
    id := Created(After(ss), v);
    CreateMeans(After(ss), v);
  }

  /** Creating several values under one lock is creating them one after the other. */
  function OneByOne(vs: seq<Value>): seq<Step> {
    if vs == [] then [] else OneByOne(vs[..|vs| - 1]) + [CreateStep(vs[|vs| - 1])]
  }

  lemma {:induction false} CreateAllMeans(ss: seq<Step>, vs: seq<Value>)
    requires Possible(ss)
    ensures Possible(ss + [CreateAllStep(vs)]) && Possible(ss + OneByOne(vs))
    ensures After(ss + [CreateAllStep(vs)]) == After(ss + OneByOne(vs))
  {
    RunSnoc(ss, CreateAllStep(vs));
    if vs == [] {
      assert ss + OneByOne(vs) == ss;
    } else {
      var init, v := vs[..|vs| - 1], vs[|vs| - 1];
      CreateAllMeans(ss, init);
      RunSnoc(ss, CreateAllStep(init));
      assert ss + OneByOne(vs) == ss + OneByOne(init) + [CreateStep(v)];
      RunSnoc(ss + OneByOne(init), CreateStep(v));
    }
  }

  /** A lookup by id gives a live element one reference more, and does nothing for an id without one. */
  lemma LookupMeans(ss: seq<Step>, id: int)
    requires Possible(ss)
    ensures Possible(ss + [GetStep(id)])
    ensures var f, f' := After(ss), After(ss + [GetStep(id)]);
      if Live(f, id) then Referenced(f, f', id) else f' == f
  {
    RunSnoc(ss, GetStep(id));
    EveryRunKeepsInv(ss);
    var f := After(ss);
    if Live(f, id) {
      assert Registered(f, id);
    }
  }

  lemma CopyMeans(ss: seq<Step>, id: int)
    requires Possible(ss + [CopyStep(id)])
    ensures Possible(ss) && Live(After(ss), id) && Referenced(After(ss), After(ss + [CopyStep(id)]), id)
  {
    RunSnoc(ss, CopyStep(id));
  }

  /** A release takes one reference; the element is left to its deleter with the last one. */
  lemma ReleaseMeans(ss: seq<Step>, id: int)
    requires Possible(ss + [ReleaseStep(id)])
    ensures Possible(ss) && Live(After(ss), id)
    ensures
      var f, f' := After(ss), After(ss + [ReleaseStep(id)]);
      && f'.uses == f.uses[id := f.uses[id] - 1]
      && f'.dying == (if Live(f', id) then f.dying else f.dying + {id})
      && f' == f.(uses := f'.uses, dying := f'.dying)
  {
    RunSnoc(ss, ReleaseStep(id));
    EveryRunKeepsInv(ss);
  }

  /** A deleter is done with its element, and holds a reference to the live element of the same value, if any. */
  lemma DeleterMeans(ss: seq<Step>, id: int)
    requires Possible(ss + [DeleterStep(id)])
    ensures Possible(ss) && id in After(ss).value
    ensures
      var f, f' := After(ss), After(ss + [DeleterStep(id)]);
      && f'.dying == f.dying - {id} && f'.value == f.value && f'.nextId == f.nextId
      && (forall x :: Holds(f, x, f.value[id]) ==> x in f.uses && f'.uses == f.uses[x := f.uses[x] + 1])
      && ((forall x :: !Holds(f, x, f.value[id])) ==> f'.uses == f.uses)
  {
    RunSnoc(ss, DeleterStep(id));
    EveryRunKeepsInv(ss);
    var f := After(ss);
    var v := f.value[id];
    forall x | Holds(f, x, v) ensures v in f.elements && f.elements[v] == x {
      assert Registered(f, x);
    }
    if Interned(f, v) {
      assert Holds(f, f.elements[v], v);
    }
  }
}
