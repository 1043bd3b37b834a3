/** `installModule` (src/vuex/index.js:45-100) as a function of the store's
    state: the namespace fold, the state graft, the getter, mutation and
    action tables, and the recursion into the children. */
module Installer {
  import opened Outcomes
  import opened JsValues
  import opened ModuleTree

  /** A mutation handler pushed by `installModule`: the closure of
      src/vuex/index.js:76-81, which knows its qualified type, its module's
      path and the user's mutation. */
  datatype MutHandler = MutHandler(qualified: string, path: seq<string>, body: Fn)

  /** A getter accessor: reads the user's getter over the slice at `path`. */
  datatype GetterEntry = GetterEntry(path: seq<string>, body: Fn)

  /** What the store did, in order. `committing` is the value of the
      `_committing` flag when a write to the state tree happened, which is
      what the strict-mode watcher asserts on. */
  datatype Event =
    | Grafted(path: seq<string>, committing: bool)
    | Mutated(qualified: string, path: seq<string>, payload: Value, committing: bool)
    | Notified(sub: Fn, qualified: string, payload: Value, state: Value)
    | Acted(action: Fn, payload: Value)
    | Replaced(committing: bool)
    | Assigned(path: seq<string>, committing: bool)

  /** True for the events that write to the state tree. */
  predicate IsWrite(e: Event)
  {
    e.Grafted? || e.Mutated? || e.Replaced? || e.Assigned?
  }

  /** A write the strict-mode watcher reports: it happened outside a commit. */
  predicate Unflagged(e: Event)
  {
    IsWrite(e) && !e.committing
  }

  /** The whole state of a store: the module tree, the state tree, the flat
      getter object, the two handler tables, the subscribers, the
      `_committing` flag and the trace of what happened so far. */
  datatype World = World(
    root: Option<Record>,
    state: Value,
    getters: map<string, GetterEntry>,
    mutations: map<string, seq<MutHandler>>,
    actions: map<string, seq<Action>>,
    subs: seq<Fn>,
    committing: bool,
    trace: seq<Event>)

  /** `table[key] || []`. */
  function Handlers<H>(table: map<string, seq<H>>, key: string): (r: seq<H>)
  {
    if key in table then table[key] else []
  }

  /** `Vue.set(parentState, path[last], slice)` after walking `path[:-1]`
      from the root state (src/vuex/index.js:53-58). The walk throws on
      `undefined`, and setting a property on anything but an object throws. */
  function Graft(w: World, path: seq<string>, slice: Value): (r: Outcome<World>)
    requires path != []
  {
    var key := path[|path| - 1];
    match GetState(w.state, Init(path))
    case Err(f) => Threw(f, w)
    case Ok(parent) =>
      if parent.Obj? then
        Done(w.(state := SetAt(w.state, Init(path), Obj(parent.fields[key := slice])),
                trace := w.trace + [Grafted(path, w.committing)]))
      else Threw(SetOnNonObject(key), w)
  }

  /** The getter loop (src/vuex/index.js:59-68): each getter becomes a
      non-configurable accessor at `namespace + name`, so defining a name
      that already exists throws. */
  function DefineGetters(getters: map<string, GetterEntry>, ns: string, path: seq<string>, defs: seq<(string, Fn)>)
    : (r: Outcome<map<string, GetterEntry>>)
    decreases |defs|
  {
    if defs == [] then Done(getters)
    else
      var key := ns + defs[0].0;
      if key in getters then Threw(GetterRedefined(key), getters)
      else DefineGetters(getters[key := GetterEntry(path, defs[0].1)], ns, path, defs[1..])
  }

  /** The mutation loop (src/vuex/index.js:70-83): one handler appended to the
      list at `namespace + name` per mutation, the list created if absent. */
  function AddMutations(table: map<string, seq<MutHandler>>, ns: string, path: seq<string>, defs: seq<(string, Fn)>)
    : (r: map<string, seq<MutHandler>>)
    decreases |defs|
  {
    if defs == [] then table
    else
      var key := ns + defs[0].0;
      AddMutations(table[key := Handlers(table, key) + [MutHandler(key, path, defs[0].1)]], ns, path, defs[1..])
  }

  /** The action loop (src/vuex/index.js:85-95). */
  function AddActions(table: map<string, seq<Action>>, ns: string, defs: seq<(string, Action)>)
    : (r: map<string, seq<Action>>)
    decreases |defs|
  {
    if defs == [] then table
    else
      var key := ns + defs[0].0;
      AddActions(table[key := Handlers(table, key) + [defs[0].1]], ns, defs[1..])
  }

  /** `w` with a module's own tables added: `g` is what the getter loop
      left, then the module's mutations and actions are appended. */
  function Own(w: World, g: map<string, GetterEntry>, ns: string, path: seq<string>, def: Def): (r: World)
  {
    w.(getters := g,
       mutations := AddMutations(w.mutations, ns, path, def.mutations),
       actions := AddActions(w.actions, ns, def.actions))
  }

  /** `installModule(store, store.state, path, rec)`. */
  function Install(w: World, path: seq<string>, rec: Record): (r: Outcome<World>)
    decreases rec, 1
  {
    match Namespace(w.root, path)
    case Err(f) => Threw(f, w)
    case Ok(ns) =>
      match (if path == [] then Done(w) else Graft(w, path, rec.state))
      case Threw(f, w1) => Threw(f, w1)
      case Done(w1) =>
        match DefineGetters(w1.getters, ns, path, rec.raw.getters)
        case Threw(f, g) => Threw(f, w1.(getters := g))
        case Done(g) => InstallAll(Own(w1, g, ns, path, rec.raw), path, rec.children)
  }

  /** The recursion over `_children` (src/vuex/index.js:97-99), in key order. */
  function InstallAll(w: World, path: seq<string>, kids: seq<(string, Record)>): (r: Outcome<World>)
    decreases kids, 0
  {
    if kids == [] then Done(w)
    else
      var first := kids[0];
      assert first.1 < first;
      match Install(w, path + [first.0], first.1)
      case Threw(f, w1) => Threw(f, w1)
      case Done(w1) => InstallAll(w1, path, kids[1..])
  }

  // ---------------------------------------------------------------------
  // Reference definitions for the tables

  /** The handlers that mutations `defs` of a module at `path` with namespace
      `ns` contribute under `key`, in order. */
  function Contributed(ns: string, path: seq<string>, defs: seq<(string, Fn)>, key: string): (r: seq<MutHandler>)
    decreases |defs|
  {
    if defs == [] then []
    else (if ns + defs[0].0 == key then [MutHandler(key, path, defs[0].1)] else [])
         + Contributed(ns, path, defs[1..], key)
  }

  /** The action bodies that `defs` with namespace `ns` contribute under `key`. */
  function ActionsUnder(ns: string, defs: seq<(string, Action)>, key: string): (r: seq<Action>)
    decreases |defs|
  {
    if defs == [] then []
    else (if ns + defs[0].0 == key then [defs[0].1] else []) + ActionsUnder(ns, defs[1..], key)
  }

  /** Append-only mutation table: every key's list is the old list followed by
      this module's handlers for that key, in declaration order; a key is
      present afterwards exactly when it was before or the module adds to it. */
  lemma {:induction false} AddMutationsAppends(table: map<string, seq<MutHandler>>, ns: string, path: seq<string>,
                                               defs: seq<(string, Fn)>, key: string)
    ensures Handlers(AddMutations(table, ns, path, defs), key) == Handlers(table, key) + Contributed(ns, path, defs, key)
    ensures key in AddMutations(table, ns, path, defs) <==> key in table || Contributed(ns, path, defs, key) != []
    decreases |defs|
  {
    if defs != [] {
      var k := ns + defs[0].0;
      var table' := table[k := Handlers(table, k) + [MutHandler(k, path, defs[0].1)]];
      AddMutationsAppends(table', ns, path, defs[1..], key);
    }
  }

  /** Append-only action table, as for mutations. */
  lemma {:induction false} AddActionsAppends(table: map<string, seq<Action>>, ns: string, defs: seq<(string, Action)>, key: string)
    ensures Handlers(AddActions(table, ns, defs), key) == Handlers(table, key) + ActionsUnder(ns, defs, key)
    ensures key in AddActions(table, ns, defs) <==> key in table || ActionsUnder(ns, defs, key) != []
    decreases |defs|
  {
    if defs != [] {
      var k := ns + defs[0].0;
      AddActionsAppends(table[k := Handlers(table, k) + [defs[0].1]], ns, defs[1..], key);
    }
  }

  /** Getters are defined once: a qualified name already present makes the
      loop throw; when it completes, old getters are untouched and each new
      name reads its module's getter over the module's path. */
  lemma {:induction false} DefineGettersOnce(getters: map<string, GetterEntry>, ns: string, path: seq<string>, defs: seq<(string, Fn)>)
    ensures (exists i :: 0 <= i < |defs| && ns + defs[i].0 in getters) ==> DefineGetters(getters, ns, path, defs).Threw?
    ensures DefineGetters(getters, ns, path, defs).Done? ==>
              var g := DefineGetters(getters, ns, path, defs).val;
              && (forall k :: k in getters ==> k in g && g[k] == getters[k])
              && (forall i :: 0 <= i < |defs| ==> ns + defs[i].0 in g && g[ns + defs[i].0] == GetterEntry(path, defs[i].1))
              && (forall k :: k in g ==> k in getters || exists i :: 0 <= i < |defs| && k == ns + defs[i].0)
    decreases |defs|
  {
    if defs != [] {
      var k := ns + defs[0].0;
      if k !in getters {
        var getters' := getters[k := GetterEntry(path, defs[0].1)];
        DefineGettersOnce(getters', ns, path, defs[1..]);
        if exists i :: 0 <= i < |defs| && ns + defs[i].0 in getters {
          var i :| 0 <= i < |defs| && ns + defs[i].0 in getters;
          assert i != 0;
          assert ns + defs[1..][i - 1].0 in getters';
        }
        if DefineGetters(getters, ns, path, defs).Done? {
          var g := DefineGetters(getters, ns, path, defs).val;
          forall i | 0 <= i < |defs|
            ensures ns + defs[i].0 in g && g[ns + defs[i].0] == GetterEntry(path, defs[i].1)
          {
            if i > 0 {
              assert defs[1..][i - 1] == defs[i];
            } else if ns + defs[0].0 in DefineGetters(getters', ns, path, defs[1..]).val {
              assert g[k] == getters'[k];
            }
          }
          forall key | key in g
            ensures key in getters || exists i :: 0 <= i < |defs| && key == ns + defs[i].0
          {
            if key !in getters && key != k {
              var j :| 0 <= j < |defs[1..]| && key == ns + defs[1..][j].0;
              assert key == ns + defs[j + 1].0;
            }
          }
        }
      }
    }
  }

  // ---------------------------------------------------------------------
  // What installing leaves in place

  /** `w2` extends `w`: same module tree, subscribers and flag; the trace,
      every getter and every handler list of `w` survive as prefixes. */
  ghost predicate Grows(w: World, w2: World)
  {
    && w2.root == w.root
    && w2.subs == w.subs
    && w2.committing == w.committing
    && w.trace <= w2.trace
    && (forall k :: k in w.getters ==> k in w2.getters && w2.getters[k] == w.getters[k])
    && (forall k :: k in w.mutations ==> k in w2.mutations && w.mutations[k] <= w2.mutations[k])
    && (forall k :: k in w.actions ==> k in w2.actions && w.actions[k] <= w2.actions[k])
  }

  /** Every event from position `from` on is a graft made with flag `flag`. */
  ghost predicate GraftsFrom(trace: seq<Event>, from: nat, flag: bool)
  {
    forall i :: from <= i < |trace| ==> trace[i].Grafted? && trace[i].committing == flag
  }

  lemma GrowsTransitive(a: World, b: World, c: World)
    requires Grows(a, b) && Grows(b, c)
    ensures Grows(a, c)
  {
    forall k | k in a.mutations ensures a.mutations[k] <= c.mutations[k] {
      assert a.mutations[k] <= b.mutations[k] <= c.mutations[k];
    }
    forall k | k in a.actions ensures a.actions[k] <= c.actions[k] {
      assert a.actions[k] <= b.actions[k] <= c.actions[k];
    }
  }

  lemma {:induction false} GettersGrow(getters: map<string, GetterEntry>, ns: string, path: seq<string>, defs: seq<(string, Fn)>)
    ensures var g := DefineGetters(getters, ns, path, defs).val;
            forall k :: k in getters ==> k in g && g[k] == getters[k]
    decreases |defs|
  {
    if defs != [] && ns + defs[0].0 !in getters {
      GettersGrow(getters[ns + defs[0].0 := GetterEntry(path, defs[0].1)], ns, path, defs[1..]);
    }
  }

  lemma TablesGrow(w: World, ns: string, path: seq<string>, rec: Record, g: map<string, GetterEntry>)
    requires forall k :: k in w.getters ==> k in g && g[k] == w.getters[k]
    ensures Grows(w, Own(w, g, ns, path, rec.raw))
  {
    forall k | k in w.mutations
      ensures k in AddMutations(w.mutations, ns, path, rec.raw.mutations)
           && w.mutations[k] <= AddMutations(w.mutations, ns, path, rec.raw.mutations)[k]
    {
      AddMutationsAppends(w.mutations, ns, path, rec.raw.mutations, k);
    }
    forall k | k in w.actions
      ensures k in AddActions(w.actions, ns, rec.raw.actions)
           && w.actions[k] <= AddActions(w.actions, ns, rec.raw.actions)[k]
    {
      AddActionsAppends(w.actions, ns, rec.raw.actions, k);
    }
  }

  lemma GraftGrows(w: World, path: seq<string>, slice: Value)
    requires path != []
    ensures Grows(w, Graft(w, path, slice).val)
    ensures GraftsFrom(Graft(w, path, slice).val.trace, |w.trace|, w.committing)
  {
  }

  lemma GraftsChain(t1: seq<Event>, t2: seq<Event>, n: nat, flag: bool)
    requires n <= |t1| && t1 <= t2
    requires GraftsFrom(t1, n, flag) && GraftsFrom(t2, |t1|, flag)
    ensures GraftsFrom(t2, n, flag)
  {
    forall i | n <= i < |t2| ensures t2[i].Grafted? && t2[i].committing == flag {
      if i < |t1| {
        assert t2[i] == t1[i];
      }
    }
  }

  /** Installing only adds: the module tree, subscribers and flag are kept,
      existing getters and handler lists survive as prefixes (also when it
      throws part way), and the only events it records are grafts made under
      the flag it found. */
  lemma {:induction false} InstallGrows(w: World, path: seq<string>, rec: Record)
    ensures Grows(w, Install(w, path, rec).val)
    ensures GraftsFrom(Install(w, path, rec).val.trace, |w.trace|, w.committing)
    decreases rec, 1
  {
    match Namespace(w.root, path)
    case Err(f) =>
    case Ok(ns) =>
      var o1 := if path == [] then Done(w) else Graft(w, path, rec.state);
      if path != [] {
        GraftGrows(w, path, rec.state);
      }
      assert Grows(w, o1.val) && GraftsFrom(o1.val.trace, |w.trace|, w.committing);
      if o1.Done? {
        var w1 := o1.val;
        GettersGrow(w1.getters, ns, path, rec.raw.getters);
        var og := DefineGetters(w1.getters, ns, path, rec.raw.getters);
        if og.Threw? {
          var wf := w1.(getters := og.val);
          assert Install(w, path, rec) == Threw(og.fault, wf);
          GrowsTransitive(w, w1, wf);
          assert GraftsFrom(wf.trace, |w.trace|, w.committing);
        } else {
          var w2 := Own(w1, og.val, ns, path, rec.raw);
          TablesGrow(w1, ns, path, rec, og.val);
          assert Install(w, path, rec) == InstallAll(w2, path, rec.children);
          InstallChildrenGrow(w, w1, w2, path, rec.children);
        }
      } else {
        assert Install(w, path, rec) == o1;
      }
  }

  lemma InstallChildrenGrow(w: World, w1: World, w2: World, path: seq<string>, kids: seq<(string, Record)>)
    requires Grows(w, w1) && GraftsFrom(w1.trace, |w.trace|, w.committing)
    requires Grows(w1, w2) && w2.trace == w1.trace
    ensures Grows(w, InstallAll(w2, path, kids).val)
    ensures GraftsFrom(InstallAll(w2, path, kids).val.trace, |w.trace|, w.committing)
    decreases kids, 1
  {
    InstallAllGrows(w2, path, kids);
    var w3 := InstallAll(w2, path, kids).val;
    GrowsTransitive(w, w1, w2);
    GrowsTransitive(w, w2, w3);
    GraftsChain(w2.trace, w3.trace, |w.trace|, w.committing);
  }

  lemma {:induction false} InstallAllGrows(w: World, path: seq<string>, kids: seq<(string, Record)>)
    ensures Grows(w, InstallAll(w, path, kids).val)
    ensures GraftsFrom(InstallAll(w, path, kids).val.trace, |w.trace|, w.committing)
    decreases kids, 0
  {
    if kids != [] {
      var first := kids[0];
      assert first.1 < first;
      InstallGrows(w, path + [first.0], first.1);
      match Install(w, path + [first.0], first.1)
      case Threw(f, w1) =>
      case Done(w1) =>
        InstallAllGrows(w1, path, kids[1..]);
        GrowsTransitive(w, w1, InstallAll(w1, path, kids[1..]).val);
        GraftsChain(w1.trace, InstallAll(w1, path, kids[1..]).val.trace, |w.trace|, w.committing);
    }
  }

  /** Each mutation of `def` has a handler for the module at `path` under
      its name qualified by `ns`, each action likewise, and each getter reads
      over `path` under its qualified name. */
  ghost predicate Landed(w: World, ns: string, path: seq<string>, def: Def)
  {
    && (forall i :: 0 <= i < |def.mutations| ==>
          MutHandler(ns + def.mutations[i].0, path, def.mutations[i].1) in Handlers(w.mutations, ns + def.mutations[i].0))
    && (forall i :: 0 <= i < |def.actions| ==>
          def.actions[i].1 in Handlers(w.actions, ns + def.actions[i].0))
    && (forall i :: 0 <= i < |def.getters| ==>
          ns + def.getters[i].0 in w.getters && w.getters[ns + def.getters[i].0] == GetterEntry(path, def.getters[i].1))
  }

  lemma LandedGrows(w: World, w2: World, ns: string, path: seq<string>, def: Def)
    requires Landed(w, ns, path, def) && Grows(w, w2)
    ensures Landed(w2, ns, path, def)
  {
    forall i | 0 <= i < |def.mutations|
      ensures MutHandler(ns + def.mutations[i].0, path, def.mutations[i].1) in Handlers(w2.mutations, ns + def.mutations[i].0)
    {
      var key := ns + def.mutations[i].0;
      assert w.mutations[key] <= w2.mutations[key];
    }
    forall i | 0 <= i < |def.actions|
      ensures def.actions[i].1 in Handlers(w2.actions, ns + def.actions[i].0)
    {
      var key := ns + def.actions[i].0;
      assert w.actions[key] <= w2.actions[key];
    }
  }

  /** After a completed install, each of the module's own mutations is
      registered under its qualified name with a handler for the module's
      path, each action likewise, and each getter reads over the module's
      path. */
  lemma InstallLands(w: World, path: seq<string>, rec: Record, ns: string)
    requires Namespace(w.root, path) == Ok(ns)
    requires Install(w, path, rec).Done?
    ensures Landed(Install(w, path, rec).val, ns, path, rec.raw)
  {
    var ns', w1, g := InstallSteps(w, path, rec);
    var w2 := Own(w1, g, ns, path, rec.raw);
    OwnLands(w1, g, ns, path, rec.raw);
    InstallAllGrows(w2, path, rec.children);
    LandedGrows(w2, Install(w, path, rec).val, ns, path, rec.raw);
  }

  /** The steps of a completed install: the namespace, the graft (none at
      the root), the getter loop, then the tables and the children. */
  lemma InstallSteps(w: World, path: seq<string>, rec: Record) returns (ns: string, w1: World, g: map<string, GetterEntry>)
    requires Install(w, path, rec).Done?
    ensures Namespace(w.root, path) == Ok(ns)
    ensures path == [] ==> w1 == w
    ensures path != [] ==> Graft(w, path, rec.state) == Done(w1)
    ensures w1 == w.(state := w1.state, trace := w1.trace)
    ensures DefineGetters(w1.getters, ns, path, rec.raw.getters) == Done(g)
    ensures Install(w, path, rec) == InstallAll(Own(w1, g, ns, path, rec.raw), path, rec.children)
  {
    ns := Namespace(w.root, path).value;
    w1 := if path == [] then w else Graft(w, path, rec.state).val;
    g := DefineGetters(w1.getters, ns, path, rec.raw.getters).val;
  }

  /** A module's own tables hold everything it defines. */
  lemma OwnLands(w: World, g: map<string, GetterEntry>, ns: string, path: seq<string>, def: Def)
    requires DefineGetters(w.getters, ns, path, def.getters) == Done(g)
    ensures Landed(Own(w, g, ns, path, def), ns, path, def)
  {
    DefineGettersOnce(w.getters, ns, path, def.getters);
    var w2 := Own(w, g, ns, path, def);
    forall i | 0 <= i < |def.mutations|
      ensures MutHandler(ns + def.mutations[i].0, path, def.mutations[i].1) in Handlers(w2.mutations, ns + def.mutations[i].0)
    {
      var key := ns + def.mutations[i].0;
      AddMutationsAppends(w.mutations, ns, path, def.mutations, key);
      ContributedHas(ns, path, def.mutations, i);
    }
    forall i | 0 <= i < |def.actions|
      ensures def.actions[i].1 in Handlers(w2.actions, ns + def.actions[i].0)
    {
      var key := ns + def.actions[i].0;
      AddActionsAppends(w.actions, ns, def.actions, key);
      ActionsUnderHas(ns, def.actions, i);
    }
  }

  lemma {:induction false} ContributedHas(ns: string, path: seq<string>, defs: seq<(string, Fn)>, i: nat)
    requires i < |defs|
    ensures MutHandler(ns + defs[i].0, path, defs[i].1) in Contributed(ns, path, defs, ns + defs[i].0)
    decreases |defs|
  {
    if i > 0 {
      ContributedHas(ns, path, defs[1..], i - 1);
      assert defs[1..][i - 1] == defs[i];
    }
  }

  lemma {:induction false} ActionsUnderHas(ns: string, defs: seq<(string, Action)>, i: nat)
    requires i < |defs|
    ensures defs[i].1 in ActionsUnder(ns, defs, ns + defs[i].0)
    decreases |defs|
  {
    if i > 0 {
      ActionsUnderHas(ns, defs[1..], i - 1);
      assert defs[1..][i - 1] == defs[i];
    }
  }

  /** A graft throws exactly when the walk to the parent throws or the
      parent slice is not an object. */
  lemma GraftThrows(w: World, path: seq<string>, slice: Value)
    requires path != []
    ensures Graft(w, path, slice).Done? <==> GetState(w.state, Init(path)).Ok? && GetState(w.state, Init(path)).value.Obj?
  {
  }

  /** State graft: a completed graft makes the path resolve to the module's
      state, keeps the parent's other properties, and leaves every slice on
      a diverging path as it was. */
  lemma GraftLands(w: World, path: seq<string>, slice: Value)
    requires path != []
    requires Graft(w, path, slice).Done?
    ensures var parent := GetState(w.state, Init(path)).value;
            var s2 := Graft(w, path, slice).val.state;
            && GetState(s2, Init(path)) == Ok(Obj(parent.fields[path[|path| - 1] := slice]))
            && GetState(s2, path) == Ok(slice)
            && forall other :: Diverge(Init(path), other) ==> GetState(s2, other) == GetState(w.state, other)
  {
    var parent, x := GraftWrites(w, path, slice);
    SetAtLands(w.state, Init(path), path[|path| - 1], x, slice);
    assert Init(path) + [path[|path| - 1]] == path;
    WriteKeepsAll(w.state, Init(path), x);
  }

  /** A completed graft writes the parent object, extended by the module's
      state, back at the parent path. */
  lemma GraftWrites(w: World, path: seq<string>, slice: Value) returns (parent: Value, x: Value)
    requires path != []
    requires Graft(w, path, slice).Done?
    ensures GetState(w.state, Init(path)) == Ok(parent) && parent.Obj?
    ensures x == Obj(parent.fields[path[|path| - 1] := slice])
    ensures Graft(w, path, slice).val.state == SetAt(w.state, Init(path), x)
  {
    parent := GetState(w.state, Init(path)).value;
    x := Obj(parent.fields[path[|path| - 1] := slice]);
  }

  lemma WriteKeepsAll(root: Value, path: seq<string>, x: Value)
    requires GetState(root, path).Ok? && GetState(root, path).value.Obj?
    ensures forall other :: Diverge(path, other) ==> GetState(SetAt(root, path, x), other) == GetState(root, other)
  {
    forall other | Diverge(path, other)
      ensures GetState(SetAt(root, path, x), other) == GetState(root, other)
    {
      WriteKeepsOthers(root, path, other, x);
    }
  }

  lemma SetAtLands(root: Value, parent: seq<string>, key: string, x: Value, slice: Value)
    requires GetState(root, parent).Ok? && GetState(root, parent).value.Obj?
    requires x.Obj? && key in x.fields && x.fields[key] == slice
    ensures GetState(SetAt(root, parent, x), parent) == Ok(x)
    ensures GetState(SetAt(root, parent, x), parent + [key]) == Ok(slice)
  {
    ReadAfterWrite(root, parent, x);
    GetStateSnoc(SetAt(root, parent, x), parent, key);
  }

  /** Installation reaches the whole tree: after a completed install of
      `rec` at `path`, the module at every path below `rec` is installed
      under the namespace of its full path. */
  lemma {:induction false} InstallCovers(w: World, path: seq<string>, rec: Record, sub: seq<string>)
    requires Install(w, path, rec).Done?
    requires Lookup(rec, sub).Some?
    requires Namespace(w.root, path + sub).Ok?
    ensures Landed(Install(w, path, rec).val, Namespace(w.root, path + sub).value, path + sub, Lookup(rec, sub).value.raw)
    decreases |sub|, |rec.children| + 1
  {
    if sub == [] {
      assert path + sub == path;
      InstallLands(w, path, rec, Namespace(w.root, path).value);
    } else {
      var ns, w1, g := InstallSteps(w, path, rec);
      var w2 := Own(w1, g, ns, path, rec.raw);
      var full := path + [sub[0]] + sub[1..];
      assert path + sub == full;
      assert Lookup(rec, sub) == Lookup(Find(rec.children, sub[0]).value, sub[1..]);
      InstallAllCovers(w2, path, rec.children, sub[0], sub[1..]);
      assert Landed(InstallAll(w2, path, rec.children).val, Namespace(w.root, full).value, full, Lookup(rec, sub).value.raw);
    }
  }

  lemma {:induction false} InstallAllCovers(w: World, path: seq<string>, kids: seq<(string, Record)>, key: string, rest: seq<string>)
    requires InstallAll(w, path, kids).Done?
    requires Find(kids, key).Some? && Lookup(Find(kids, key).value, rest).Some?
    requires Namespace(w.root, path + [key] + rest).Ok?
    ensures Landed(InstallAll(w, path, kids).val, Namespace(w.root, path + [key] + rest).value,
                   path + [key] + rest, Lookup(Find(kids, key).value, rest).value.raw)
    decreases |rest| + 1, |kids|
  {
    var first := kids[0];
    assert first.1 < first;
    var w1 := Install(w, path + [first.0], first.1).val;
    InstallGrows(w, path + [first.0], first.1);
    assert InstallAll(w, path, kids) == InstallAll(w1, path, kids[1..]);
    if first.0 == key {
      InstallCovers(w, path + [key], first.1, rest);
      InstallAllGrows(w1, path, kids[1..]);
      LandedGrows(w1, InstallAll(w1, path, kids[1..]).val, Namespace(w.root, path + [key] + rest).value,
                  path + [key] + rest, Lookup(first.1, rest).value.raw);
    } else {
      InstallAllCovers(w1, path, kids[1..], key, rest);
    }
  }

  // ---------------------------------------------------------------------
  // The state tree after an install

  /** Reference definition of the state a record tree grows into: the
      record's own state with each child's grown state set under the
      child's key, in key order. */
  function Grown(rec: Record): (r: Value)
    decreases rec, 1
  {
    GrowAll(rec.state, rec.children)
  }

  /** `s` with the grown state of each of `kids` set in turn; a slice that
      is not an object takes no properties. */
  function GrowAll(s: Value, kids: seq<(string, Record)>): (r: Value)
    decreases kids, 0
  {
    if kids == [] then s
    else
      var first := kids[0];
      assert first.1 < first;
      GrowAll(if s.Obj? then Obj(s.fields[first.0 := Grown(first.1)]) else s, kids[1..])
  }

  /** Every record with children has an object for its state, which a
      completed install needs to graft the children into. */
  ghost predicate Sound(rec: Record)
    decreases rec
  {
    (rec.children != [] ==> rec.state.Obj?) && forall e | e in rec.children :: Sound(e.1)
  }

  /** The state after an install: at the root, the old state with the
      children's grown states set in it; elsewhere, the old state with the
      record's grown state grafted at the path. */
  lemma {:induction false} InstallState(w: World, path: seq<string>, rec: Record)
    requires Install(w, path, rec).Done?
    ensures path == [] ==> Install(w, path, rec).val.state == GrowAll(w.state, rec.children)
    ensures path != [] ==>
              Graft(w, path, Grown(rec)).Done? && Install(w, path, rec).val.state == Graft(w, path, Grown(rec)).val.state
    decreases rec, 1
  {
    var ns, w1, g := InstallSteps(w, path, rec);
    var w2 := Own(w1, g, ns, path, rec.raw);
    if path == [] {
      InstallAllState(w2, path, rec.children);
    } else {
      var parent, x := GraftWrites(w, path, rec.state);
      GraftLands(w, path, rec.state);
      InstallAllState(w2, path, rec.children);
      GraftThrows(w, path, Grown(rec));
      var parent', x' := GraftWrites(w, path, Grown(rec));
      Regraft(w.state, path, rec.state, Grown(rec));
    }
  }

  lemma {:induction false} InstallAllState(w: World, path: seq<string>, kids: seq<(string, Record)>)
    requires InstallAll(w, path, kids).Done?
    requires GetState(w.state, path).Ok?
    ensures InstallAll(w, path, kids).val.state == SetAt(w.state, path, GrowAll(GetState(w.state, path).value, kids))
    decreases kids, 0
  {
    var s := GetState(w.state, path).value;
    if kids == [] {
      SetAtSame(w.state, path);
    } else {
      var first := kids[0];
      assert first.1 < first;
      var k := first.0;
      var w1 := Install(w, path + [k], first.1).val;
      InstallState(w, path + [k], first.1);
      assert Init(path + [k]) == path;
      var s1 := Obj(s.fields[k := Grown(first.1)]);
      assert w1.state == SetAt(w.state, path, s1);
      ReadAfterWrite(w.state, path, s1);
      InstallAllState(w1, path, kids[1..]);
      SetAtTwice(w.state, path, s1, GrowAll(s1, kids[1..]));
    }
  }

  /** State after an install: a completed install below the root makes its
      path resolve to the record's grown state, keeps the parent's other
      properties, and leaves every slice on a path diverging from the
      parent's as it was. */
  lemma InstallStateLands(w: World, path: seq<string>, rec: Record)
    requires path != []
    requires Install(w, path, rec).Done?
    ensures var parent := GetState(w.state, Init(path)).value;
            var s2 := Install(w, path, rec).val.state;
            && parent.Obj?
            && GetState(s2, Init(path)) == Ok(Obj(parent.fields[path[|path| - 1] := Grown(rec)]))
            && GetState(s2, path) == Ok(Grown(rec))
            && forall other :: Diverge(Init(path), other) ==> GetState(s2, other) == GetState(w.state, other)
  {
    InstallState(w, path, rec);
    GraftThrows(w, path, Grown(rec));
    GraftLands(w, path, Grown(rec));
  }

  /** A completed install grafted every child into an object: the records
      installed form a sound tree. */
  lemma {:induction false} InstallSound(w: World, path: seq<string>, rec: Record)
    requires Install(w, path, rec).Done?
    requires path != [] || w.state == rec.state
    ensures Sound(rec)
    decreases rec, 1
  {
    var ns, w1, g := InstallSteps(w, path, rec);
    if path != [] {
      GraftLands(w, path, rec.state);
    }
    InstallAllSound(Own(w1, g, ns, path, rec.raw), path, rec.children);
  }

  lemma {:induction false} InstallAllSound(w: World, path: seq<string>, kids: seq<(string, Record)>)
    requires InstallAll(w, path, kids).Done?
    ensures kids != [] ==> GetState(w.state, path).Ok? && GetState(w.state, path).value.Obj?
    ensures forall e | e in kids :: Sound(e.1)
    decreases kids, 0
  {
    if kids != [] {
      var first := kids[0];
      assert first.1 < first;
      var k := first.0;
      var ns, v1, g := InstallSteps(w, path + [k], first.1);
      GraftThrows(w, path + [k], first.1.state);
      assert Init(path + [k]) == path;
      InstallSound(w, path + [k], first.1);
      InstallAllSound(Install(w, path + [k], first.1).val, path, kids[1..]);
      assert kids == [first] + kids[1..];
    }
  }

  /** Setting children whose keys are not `key` leaves `key` as it was. */
  lemma {:induction false} GrowAllKeeps(s: Value, kids: seq<(string, Record)>, key: string)
    requires s.Obj? && key !in Keys(kids)
    ensures GrowAll(s, kids).Obj?
    ensures key in GrowAll(s, kids).fields <==> key in s.fields
    ensures key in s.fields ==> GrowAll(s, kids).fields[key] == s.fields[key]
    decreases |kids|
  {
    if kids != [] {
      assert Keys(kids) == [kids[0].0] + Keys(kids[1..]);
      GrowAllKeeps(Obj(s.fields[kids[0].0 := Grown(kids[0].1)]), kids[1..], key);
    }
  }

  /** With each key once, the property set under a child's key is that
      child's grown state. */
  lemma {:induction false} GrowAllFind(s: Value, kids: seq<(string, Record)>, key: string)
    requires s.Obj? && Distinct(Keys(kids)) && Find(kids, key).Some?
    ensures GrowAll(s, kids).Obj?
    ensures key in GrowAll(s, kids).fields && GrowAll(s, kids).fields[key] == Grown(Find(kids, key).value)
    decreases |kids|
  {
    var s1 := Obj(s.fields[kids[0].0 := Grown(kids[0].1)]);
    DistinctTail(kids);
    if kids[0].0 == key {
      GrowAllKeeps(s1, kids[1..], key);
    } else {
      GrowAllFind(s1, kids[1..], key);
    }
  }

  /** The grown state mirrors the record tree: every path that reaches a
      record resolves to that record's grown state. */
  lemma {:induction false} GrownLookup(rec: Record, sub: seq<string>)
    requires WellFormed(rec) && Sound(rec)
    requires Lookup(rec, sub).Some?
    ensures GetState(Grown(rec), sub) == Ok(Grown(Lookup(rec, sub).value))
    decreases |sub|
  {
    if sub != [] {
      var c := Find(rec.children, sub[0]).value;
      FindIn(rec.children, sub[0]);
      GrowAllFind(rec.state, rec.children, sub[0]);
      GrownLookup(c, sub[1..]);
    }
  }

  // ---------------------------------------------------------------------
  // The whole tables after an install

  /** Reference content of a mutation list: the handlers that the modules of
      the subtree `rec`, installed at `path`, contribute under `key`, in
      pre-order and, among siblings, in key order; each module's namespace
      is the one of its path in `root`. */
  function SubtreeMutations(root: Option<Record>, path: seq<string>, rec: Record, key: string): (r: seq<MutHandler>)
    decreases rec, 1
  {
    (match Namespace(root, path)
     case Ok(ns) => Contributed(ns, path, rec.raw.mutations, key)
     case Err(_) => [])
    + KidsMutations(root, path, rec.children, key)
  }

  function KidsMutations(root: Option<Record>, path: seq<string>, kids: seq<(string, Record)>, key: string): (r: seq<MutHandler>)
    decreases kids, 0
  {
    if kids == [] then []
    else
      var first := kids[0];
      assert first.1 < first;
      SubtreeMutations(root, path + [first.0], first.1, key) + KidsMutations(root, path, kids[1..], key)
  }

  /** Reference content of an action list, in the same order. */
  function SubtreeActions(root: Option<Record>, path: seq<string>, rec: Record, key: string): (r: seq<Action>)
    decreases rec, 1
  {
    (match Namespace(root, path)
     case Ok(ns) => ActionsUnder(ns, rec.raw.actions, key)
     case Err(_) => [])
    + KidsActions(root, path, rec.children, key)
  }

  function KidsActions(root: Option<Record>, path: seq<string>, kids: seq<(string, Record)>, key: string): (r: seq<Action>)
    decreases kids, 0
  {
    if kids == [] then []
    else
      var first := kids[0];
      assert first.1 < first;
      SubtreeActions(root, path + [first.0], first.1, key) + KidsActions(root, path, kids[1..], key)
  }

  /** `w2`'s handler lists under `key` are `w`'s followed by `muts` and
      `acts`, and `key` is present exactly when it was or something was added. */
  ghost predicate TablesAs(w: World, w2: World, key: string, muts: seq<MutHandler>, acts: seq<Action>)
  {
    && Handlers(w2.mutations, key) == Handlers(w.mutations, key) + muts
    && (key in w2.mutations <==> key in w.mutations || muts != [])
    && Handlers(w2.actions, key) == Handlers(w.actions, key) + acts
    && (key in w2.actions <==> key in w.actions || acts != [])
  }

  lemma TablesChain(w: World, w1: World, w2: World, key: string, m1: seq<MutHandler>, a1: seq<Action>,
                    m2: seq<MutHandler>, a2: seq<Action>)
    requires TablesAs(w, w1, key, m1, a1) && TablesAs(w1, w2, key, m2, a2)
    ensures TablesAs(w, w2, key, m1 + m2, a1 + a2)
  {
    assert Handlers(w.mutations, key) + m1 + m2 == Handlers(w.mutations, key) + (m1 + m2);
    assert Handlers(w.actions, key) + a1 + a2 == Handlers(w.actions, key) + (a1 + a2);
  }

  /** Fan-out on name collision: after a completed install, the handler
      list under every key is the old list followed by the handlers the
      subtree contributes to that key, in registration order, and nothing
      else; a key is present exactly when it was before or the subtree adds
      to it. The same holds for the action table. */
  lemma {:induction false} InstallTables(w: World, path: seq<string>, rec: Record, key: string)
    requires Install(w, path, rec).Done?
    ensures TablesAs(w, Install(w, path, rec).val, key,
                     SubtreeMutations(w.root, path, rec, key), SubtreeActions(w.root, path, rec, key))
    decreases rec, 1
  {
    var ns, w1, g := InstallSteps(w, path, rec);
    var w2 := Own(w1, g, ns, path, rec.raw);
    var m1, a1 := Contributed(ns, path, rec.raw.mutations, key), ActionsUnder(ns, rec.raw.actions, key);
    assert TablesAs(w, w2, key, m1, a1) by {
      AddMutationsAppends(w.mutations, ns, path, rec.raw.mutations, key);
      AddActionsAppends(w.actions, ns, rec.raw.actions, key);
    }
    InstallAllTables(w2, path, rec.children, key);
    TablesChain(w, w2, InstallAll(w2, path, rec.children).val, key,
                m1, a1, KidsMutations(w.root, path, rec.children, key), KidsActions(w.root, path, rec.children, key));
  }

  lemma {:induction false} InstallAllTables(w: World, path: seq<string>, kids: seq<(string, Record)>, key: string)
    requires InstallAll(w, path, kids).Done?
    ensures TablesAs(w, InstallAll(w, path, kids).val, key,
                     KidsMutations(w.root, path, kids, key), KidsActions(w.root, path, kids, key))
    decreases kids, 0
  {
    if kids != [] {
      var first := kids[0];
      assert first.1 < first;
      var w1 := Install(w, path + [first.0], first.1).val;
      assert InstallAll(w, path, kids) == InstallAll(w1, path, kids[1..]);
      InstallTables(w, path + [first.0], first.1, key);
      assert w1.root == w.root by { InstallGrows(w, path + [first.0], first.1); }
      InstallAllTables(w1, path, kids[1..], key);
      TablesChain(w, w1, InstallAll(w1, path, kids[1..]).val, key,
                  SubtreeMutations(w.root, path + [first.0], first.1, key), SubtreeActions(w.root, path + [first.0], first.1, key),
                  KidsMutations(w.root, path, kids[1..], key), KidsActions(w.root, path, kids[1..], key));
    }
  }

  /** Two sibling modules that share a namespace and each define mutation
      `m`: after the parent installs, `ns + m` runs the first sibling's
      handler and then the second's, after whatever was there before. */
  lemma SiblingsCollide(w: World, path: seq<string>, rec: Record, ns: string, m: string,
                        k1: string, r1: Record, f1: Fn, k2: string, r2: Record, f2: Fn)
    requires Install(w, path, rec).Done?
    requires rec.raw.mutations == [] && rec.children == [(k1, r1), (k2, r2)]
    requires r1.raw.mutations == [(m, f1)] && r1.children == []
    requires r2.raw.mutations == [(m, f2)] && r2.children == []
    requires Namespace(w.root, path + [k1]) == Ok(ns) && Namespace(w.root, path + [k2]) == Ok(ns)
    ensures Handlers(Install(w, path, rec).val.mutations, ns + m)
         == Handlers(w.mutations, ns + m) + [MutHandler(ns + m, path + [k1], f1), MutHandler(ns + m, path + [k2], f2)]
  {
    var key := ns + m;
    InstallTables(w, path, rec, key);
    var h1, h2 := MutHandler(key, path + [k1], f1), MutHandler(key, path + [k2], f2);
    assert [(m, f1)][1..] == [] && [(m, f2)][1..] == [];
    assert Contributed(ns, path + [k1], r1.raw.mutations, key) == [h1];
    assert Contributed(ns, path + [k2], r2.raw.mutations, key) == [h2];
    assert SubtreeMutations(w.root, path + [k1], r1, key) == [h1];
    assert SubtreeMutations(w.root, path + [k2], r2, key) == [h2];
    assert rec.children[1..] == [(k2, r2)] && rec.children[1..][1..] == [];
    assert KidsMutations(w.root, path, [(k2, r2)], key) == [h2] + KidsMutations(w.root, path, [], key);
    assert KidsMutations(w.root, path, rec.children, key) == [h1] + KidsMutations(w.root, path, [(k2, r2)], key);
    assert KidsMutations(w.root, path, rec.children, key) == [h1, h2];
    assert SubtreeMutations(w.root, path, rec, key) == [h1, h2];
  }
}
