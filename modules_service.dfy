/** The module/component merge of the deployments service (butler): for
    each module of a deployment request, store the module when it is not
    stored yet, otherwise attach to the stored module the components it does
    not have yet. The module repository is a map from module id to the stored
    module with its components. */
module ModulesService {
  import opened Wrappers

  /** A component; `moduleId` is the module relation that the merge sets. */
  datatype Component = Component(
    id: string,
    name: string,
    imageUrl: string,
    moduleId: Option<string>)

  datatype Module = Module(
    id: string,
    name: string,
    gitRepositoryAddress: string,
    components: seq<Component>)

  function ComponentIds(cs: seq<Component>): set<string>
  {
    set c | c in cs :: c.id
  }

  /** A module repository keys every module by its own id. */
  ghost predicate KeyedById(store: map<string, Module>)
  {
    forall k :: k in store ==> store[k].id == k
  }

  /** `!module?.components.some(component => component.id === c.id)`: with
      no stored module every component is new. */
  predicate IsNewComponent(stored: Option<Module>, c: Component)
  {
    stored.None? || c.id !in ComponentIds(stored.value.components)
  }

  /** The incoming components whose id is absent from the stored module. */
  function NewComponents(stored: Option<Module>, incoming: seq<Component>): (r: seq<Component>)
    ensures |r| <= |incoming|
    ensures forall c :: c in r <==> c in incoming && IsNewComponent(stored, c)
    ensures stored.None? ==> r == incoming
    ensures (forall c :: c in incoming ==> !IsNewComponent(stored, c)) ==> r == []
  {
    if incoming == [] then []
    else
      assert incoming == [incoming[0]] + incoming[1..];
      (if IsNewComponent(stored, incoming[0]) then [incoming[0]] else [])
        + NewComponents(stored, incoming[1..])
  }

  /** `newComponent.module = module`. */
  function Attach(c: Component, moduleId: string): Component
  {
    c.(moduleId := Some(moduleId))
  }

  /** The repository's `save` of one component into a module's component
      list: the row with the same id is updated, otherwise a row is added. */
  function Upsert(cs: seq<Component>, c: Component): (r: seq<Component>)
    ensures ComponentIds(r) == ComponentIds(cs) + {c.id}
    ensures c in r
    ensures c.id !in ComponentIds(cs) ==> r == cs + [c]
    ensures |r| >= |cs|
    ensures forall i :: 0 <= i < |cs| && cs[i].id != c.id ==> r[i] == cs[i]
    ensures forall i :: |cs| <= i < |r| ==> r[i] == c
    ensures c.id in ComponentIds(cs) ==> |r| == |cs| && forall i :: 0 <= i < |cs| && cs[i].id == c.id ==> r[i] == c
  {
    if c.id in ComponentIds(cs) then
      var r := seq(|cs|, i requires 0 <= i < |cs| => if cs[i].id == c.id then c else cs[i]);
      assert ComponentIds(r) == ComponentIds(cs) + {c.id} by {
        forall x | x in ComponentIds(cs) ensures x in ComponentIds(r) {
          var d :| d in cs && d.id == x;
          var i :| 0 <= i < |cs| && cs[i] == d;
          assert r[i] in r;
        }
        forall x | x in ComponentIds(r) ensures x in ComponentIds(cs) + {c.id} {
          var d :| d in r && d.id == x;
          var i :| 0 <= i < |r| && r[i] == d;
          assert cs[i] in cs;
        }
      }
      var d :| d in cs && d.id == c.id;
      var i :| 0 <= i < |cs| && cs[i] == d;
      assert r[i] == c;
      r
    else
      assert ComponentIds(cs + [c]) == ComponentIds(cs) + {c.id} by {
        assert forall d :: d in cs + [c] <==> d in cs || d == c;
      }
      cs + [c]
  }

  /** The stored components after each new component has been attached to the
      module and saved, in order. */
  function AttachAll(cs: seq<Component>, added: seq<Component>, moduleId: string): seq<Component>
    decreases |added|
  {
    if added == [] then cs
    else Upsert(AttachAll(cs, added[..|added| - 1], moduleId), Attach(added[|added| - 1], moduleId))
  }

  lemma AttachAllStep(cs: seq<Component>, added: seq<Component>, i: nat, moduleId: string)
    requires i < |added|
    ensures AttachAll(cs, added[..i + 1], moduleId) == Upsert(AttachAll(cs, added[..i], moduleId), Attach(added[i], moduleId))
  {
    var p := added[..i + 1];
    assert p[..|p| - 1] == added[..i];
    assert p[|p| - 1] == added[i];
  }

  /** The ids after attaching are the stored ids and the attached ones. */
  lemma {:induction false} AttachAllIds(cs: seq<Component>, added: seq<Component>, moduleId: string)
    ensures ComponentIds(AttachAll(cs, added, moduleId)) == ComponentIds(cs) + ComponentIds(added)
    decreases |added|
  {
    if added != [] {
      var init := added[..|added| - 1];
      var last := added[|added| - 1];
      AttachAllIds(cs, init, moduleId);
      assert added == init + [last];
      assert forall d :: d in added <==> d in init || d == last;
      assert ComponentIds(added) == ComponentIds(init) + {last.id};
    }
  }

  /** Attaching components whose ids the stored list lacks keeps the stored
      list as a prefix, and every component after the prefix is one of them
      with its module set. */
  lemma {:induction false} AttachAllExtends(cs: seq<Component>, added: seq<Component>, moduleId: string)
    requires forall c :: c in added ==> c.id !in ComponentIds(cs)
    ensures var r := AttachAll(cs, added, moduleId);
            && cs <= r
            && forall i :: |cs| <= i < |r| ==> r[i].moduleId == Some(moduleId) && exists f :: f in added && r[i] == Attach(f, moduleId)
    decreases |added|
  {
    if added != [] {
      var init := added[..|added| - 1];
      var last := added[|added| - 1];
      assert forall c :: c in init ==> c in added;
      AttachAllExtends(cs, init, moduleId);
      var t := AttachAll(cs, init, moduleId);
      var r := Upsert(t, Attach(last, moduleId));
      assert r == AttachAll(cs, added, moduleId);
      assert last in added;
      forall i | 0 <= i < |cs| ensures r[i] == cs[i] {
        assert cs[i] in cs;
        assert t[i] == cs[i];
      }
      forall i | |cs| <= i < |r|
        ensures r[i].moduleId == Some(moduleId) && exists f :: f in added && r[i] == Attach(f, moduleId)
      {
        if i < |t| && t[i].id != last.id {
          assert r[i] == t[i];
          var f :| f in init && t[i] == Attach(f, moduleId);
          assert f in added;
        } else {
          assert r[i] == Attach(last, moduleId);
        }
      }
    }
  }

  /** The module repository after `saveModule(m)`. The module `findOne`
      returns has the id it was looked up by, `m.id`. */
  function SaveModuleSpec(store: map<string, Module>, m: Module): (r: map<string, Module>)
    ensures r.Keys == store.Keys + {m.id}
    ensures forall k :: k in store && k != m.id ==> r[k] == store[k]
    ensures m.id !in store ==> r[m.id] == m
    ensures m.id in store ==> r[m.id].id == store[m.id].id && r[m.id].name == store[m.id].name
  {
    var stored := if m.id in store then Some(store[m.id]) else None;
    var added := NewComponents(stored, m.components);
    if stored.Some? && |added| == 0 then store
    else if stored.None? then store[m.id := m]
    else store[m.id := stored.value.(components := AttachAll(stored.value.components, added, m.id))]
  }

  /** What `saveModule` does to the repository: an unknown module is stored as
      given; a known one keeps all of its stored components, in place and
      unchanged, and gains the new ones; no other module changes. */
  lemma SaveModuleNeverOverwrites(store: map<string, Module>, m: Module)
    ensures var r := SaveModuleSpec(store, m);
            && r.Keys == store.Keys + {m.id}
            && (forall k :: k in store && k != m.id ==> r[k] == store[k])
            && (m.id !in store ==> r[m.id] == m)
            && (m.id in store ==> r[m.id] == store[m.id].(components := r[m.id].components)
                                   && store[m.id].components <= r[m.id].components)
  {
    if m.id in store {
      AttachAllExtends(store[m.id].components, NewComponents(Some(store[m.id]), m.components), m.id);
    }
  }

  /** For a stored module, saving it attaches its new components, also when
      there are none. */
  lemma SaveModuleSpecOfStored(store: map<string, Module>, m: Module)
    requires m.id in store
    ensures SaveModuleSpec(store, m) ==
            store[m.id := store[m.id].(components :=
              AttachAll(store[m.id].components, NewComponents(Some(store[m.id]), m.components), m.id))]
  {
  }

  /** A stored module with no new component is not saved again. */
  lemma NothingNewSavesNothing(store: map<string, Module>, m: Module)
    requires m.id in store
    requires forall c :: c in m.components ==> c.id in ComponentIds(store[m.id].components)
    ensures SaveModuleSpec(store, m) == store
  {
  }

  /** After `saveModule(m)` the stored module holds a component with every id
      of `m`'s components. */
  lemma SaveModuleCovers(store: map<string, Module>, m: Module)
    ensures m.id in SaveModuleSpec(store, m)
    ensures ComponentIds(m.components) <= ComponentIds(SaveModuleSpec(store, m)[m.id].components)
  {
    if m.id in store {
      var stored := store[m.id];
      var added := NewComponents(Some(stored), m.components);
      AttachAllIds(stored.components, added, m.id);
      forall x | x in ComponentIds(m.components)
        ensures x in ComponentIds(SaveModuleSpec(store, m)[m.id].components)
      {
        var c :| c in m.components && c.id == x;
        if x !in ComponentIds(stored.components) {
          assert c in added;
          assert x in ComponentIds(added);
        }
      }
    }
  }

  /** Saving the same module twice leaves the repository as saving it once. */
  lemma SaveModuleIsIdempotent(store: map<string, Module>, m: Module)
    ensures SaveModuleSpec(SaveModuleSpec(store, m), m) == SaveModuleSpec(store, m)
  {
    SaveModuleCovers(store, m);
    NothingNewSavesNothing(SaveModuleSpec(store, m), m);
  }

  /** The repository after `createModules(ms)`: each module saved in turn. */
  function SaveAll(store: map<string, Module>, ms: seq<Module>): (r: map<string, Module>)
    ensures r.Keys == store.Keys + set m | m in ms :: m.id
    decreases |ms|
  {
    if ms == [] then store
    else
      var front := ms[..|ms| - 1];
      assert ms == front + [ms[|ms| - 1]];
      SaveModuleSpec(SaveAll(store, front), ms[|ms| - 1])
  }

  /** Every module of `ms` is stored with all of its component ids. */
  ghost predicate Covers(store: map<string, Module>, ms: seq<Module>)
  {
    forall m :: m in ms ==> m.id in store && ComponentIds(m.components) <= ComponentIds(store[m.id].components)
  }

  /** Saving any module only adds modules and component ids. */
  lemma SaveModuleKeepsCover(store: map<string, Module>, m: Module, ms: seq<Module>)
    requires Covers(store, ms)
    ensures Covers(SaveModuleSpec(store, m), ms)
  {
    var r := SaveModuleSpec(store, m);
    SaveModuleNeverOverwrites(store, m);
    forall m' | m' in ms
      ensures m'.id in r && ComponentIds(m'.components) <= ComponentIds(r[m'.id].components)
    {
      if m'.id == m.id {
        assert store[m.id].components <= r[m.id].components;
        assert ComponentIds(store[m.id].components) <= ComponentIds(r[m.id].components) by {
          forall x | x in ComponentIds(store[m.id].components) ensures x in ComponentIds(r[m.id].components) {
            var c :| c in store[m.id].components && c.id == x;
            var i :| 0 <= i < |store[m.id].components| && store[m.id].components[i] == c;
            assert r[m.id].components[i] == c;
          }
        }
      }
    }
  }

  lemma {:induction false} SaveAllCovers(store: map<string, Module>, ms: seq<Module>)
    ensures Covers(SaveAll(store, ms), ms)
    decreases |ms|
  {
    if ms != [] {
      var init := ms[..|ms| - 1];
      var last := ms[|ms| - 1];
      SaveAllCovers(store, init);
      SaveModuleKeepsCover(SaveAll(store, init), last, init);
      SaveModuleCovers(SaveAll(store, init), last);
      assert ms == init + [last];
    }
  }

  lemma {:induction false} SaveAllOfCoveredIsNoop(store: map<string, Module>, ms: seq<Module>)
    requires Covers(store, ms)
    ensures SaveAll(store, ms) == store
    decreases |ms|
  {
    if ms != [] {
      var init := ms[..|ms| - 1];
      var last := ms[|ms| - 1];
      assert forall m :: m in init ==> m in ms;
      SaveAllOfCoveredIsNoop(store, init);
      assert last in ms;
      NothingNewSavesNothing(store, last);
    }
  }

  /** Running `createModules` twice on the same list leaves the repository as
      running it once. */
  lemma CreateModulesIsIdempotent(store: map<string, Module>, ms: seq<Module>)
    ensures SaveAll(SaveAll(store, ms), ms) == SaveAll(store, ms)
  {
    SaveAllCovers(store, ms);
    SaveAllOfCoveredIsNoop(SaveAll(store, ms), ms);
  }

  /** The module repository after `updateAndSaveComponent(c, m)`: `c`,
      attached to `m`, is saved into `m`'s components. */
  function SaveComponent(store: map<string, Module>, moduleId: string, c: Component): (r: map<string, Module>)
    requires moduleId in store
    ensures r.Keys == store.Keys
    ensures KeyedById(store) ==> KeyedById(r)
  {
    store[moduleId := store[moduleId].(components := Upsert(store[moduleId].components, Attach(c, moduleId)))]
  }

  /** Saving the next new component extends the attached prefix by one. */
  lemma SaveComponentStep(store: map<string, Module>, target: Module, added: seq<Component>, i: nat)
    requires i < |added|
    ensures var before := store[target.id := target.(components := AttachAll(target.components, added[..i], target.id))];
            SaveComponent(before, target.id, added[i]) ==
            store[target.id := target.(components := AttachAll(target.components, added[..i + 1], target.id))]
  {
    AttachAllStep(target.components, added, i, target.id);
  }

  /** The module and component repositories. */
  class ModuleRepositories {
    var modules: map<string, Module>

    ghost predicate Valid()
      reads this
    {
      KeyedById(modules)
    }

    constructor (modules: map<string, Module>)
      requires KeyedById(modules)
      ensures Valid() && this.modules == modules
    {
      this.modules := modules;
    }

    /** `updateAndSaveComponent`: sets the component's module and saves it. */
    method UpdateAndSaveComponent(newComponent: Component, target: Module)
      requires Valid()
      requires target.id in modules
      modifies this
      ensures Valid()
      ensures modules == SaveComponent(old(modules), target.id, newComponent)
    {
      var attached := Attach(newComponent, target.id);
      var stored := modules[target.id];
      modules := modules[target.id := stored.(components := Upsert(stored.components, attached))];
    }

    /** `saveModule`. */
    method SaveModule(moduleEntity: Module)
      requires Valid()
      modifies this
      ensures Valid()
      ensures modules == SaveModuleSpec(old(modules), moduleEntity)
    {
      var found := if moduleEntity.id in modules then Some(modules[moduleEntity.id]) else None;
      var newComponents := NewComponents(found, moduleEntity.components);
      if found.Some? && |newComponents| == 0 {
        return;
      }
      if found.None? {
        modules := modules[moduleEntity.id := moduleEntity];
      } else {
        SaveModuleSpecOfStored(modules, moduleEntity);
        SaveNewComponents(newComponents, found.value);
      }
    }

    /** The `forEach` of `saveModule`: `updateAndSaveComponent` on each new
        component of a stored module, in order. */
    method SaveNewComponents(newComponents: seq<Component>, target: Module)
      requires Valid()
      requires target.id in modules && modules[target.id] == target
      modifies this
      ensures Valid()
      ensures modules == old(modules)[target.id := target.(components := AttachAll(target.components, newComponents, target.id))]
    {
      var i := 0;
      while i < |newComponents|
        invariant 0 <= i <= |newComponents|
        invariant Valid()
        invariant modules == old(modules)[target.id := target.(components := AttachAll(target.components, newComponents[..i], target.id))]
      {
        SaveComponentStep(old(modules), target, newComponents, i);
        UpdateAndSaveComponent(newComponents[i], target);
        i := i + 1;
      }
      assert newComponents[..i] == newComponents;
    }

    /** `verifyModuleExistAndSave`: `saveModule` on every module, in order. */
    method VerifyModuleExistAndSave(moduleEntities: seq<Module>)
      requires Valid()
      modifies this
      ensures Valid()
      ensures modules == SaveAll(old(modules), moduleEntities)
    {
      var i := 0;
      while i < |moduleEntities|
        invariant 0 <= i <= |moduleEntities|
        invariant Valid()
        invariant modules == SaveAll(old(modules), moduleEntities[..i])
      {
        assert moduleEntities[..i + 1][..i] == moduleEntities[..i];
        SaveModule(moduleEntities[i]);
        i := i + 1;
      }
      assert moduleEntities[..i] == moduleEntities;
    }

    /** `createModules`. */
    method CreateModules(moduleEntities: seq<Module>)
      requires Valid()
      modifies this
      ensures Valid()
      ensures modules == SaveAll(old(modules), moduleEntities)
    {
      VerifyModuleExistAndSave(moduleEntities);
    }
  }
}
