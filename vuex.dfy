/** The `Store` class (src/vuex/index.js:102-183) together with
    `installModule` and `getState` (src/vuex/index.js:38-100), which work on
    a store's fields in place. Each method is proved against the function of
    the store's state that specifies it in Installer or StoreSpec. */
module Vuex {
  import opened Outcomes
  import opened JsValues
  import opened ModuleTree
  import opened Installer
  import opened StoreSpec
  import opened Collections

  /** `Err(f)` stays as it is; `Ok(rest)` gets `ns` in front. */
  function Prefixed(ns: string, r: Result<string>): (res: Result<string>)
  {
    match r
    case Err(f) => Err(f)
    case Ok(rest) => Ok(ns + rest)
  }

  /** `getState(store, path)` (src/vuex/index.js:38-43): read the slice of
      `root` at `path`, one property at a time. */
  method Resolve(root: Value, path: seq<string>) returns (r: Result<Value>)
    ensures r == GetState(root, path)
  {
    var cur := root;
    var i := 0;
    while i < |path|
      invariant 0 <= i <= |path|
      invariant GetState(root, path) == GetState(cur, path[i..])
    {
      assert path[i..][0] == path[i] && path[i..][1..] == path[i + 1..];
      var next := Prop(cur, path[i]);
      if next.Err? {
        return Err(next.fault);
      }
      cur := next.value;
      i := i + 1;
    }
    return Ok(cur);
  }

  /** The namespace reduce of `installModule` (src/vuex/index.js:46-51). */
  method Qualify(root: Option<Record>, path: seq<string>) returns (r: Result<string>)
    ensures r == Namespace(root, path)
  {
    var node := root;
    var ns := "";
    var i := 0;
    assert path[0..] == path;
    PrefixedEmpty(Namespace(root, path));
    while i < |path|
      invariant 0 <= i <= |path|
      invariant Namespace(root, path) == Prefixed(ns, Namespace(node, path[i..]))
    {
      assert path[i..][1..] == path[i + 1..];
      NamespaceUnfold(node, path[i..]);
      var child := if node.None? then None else Find(node.value.children, path[i]);
      if child.None? {
        return Err(MissingModule);
      }
      var c := child.value;
      var seg := if c.raw.namespaced then path[i] + "/" else "";
      PrefixedTwice(ns, seg, Namespace(Some(c), path[i + 1..]));
      ns := ns + seg;
      node := Some(c);
      i := i + 1;
    }
    assert ns + "" == ns;
    return Ok(ns);
  }

  /** One step of each handler loop, at index `i`. */
  lemma RunMutationsStepAt(w: World, run: Runner, hs: seq<MutHandler>, i: nat, payload: Value)
    requires i < |hs|
    ensures var o := Invoke(w, run, hs[i], payload);
            RunMutations(w, run, hs[i..], payload) == if o.Threw? then o else RunMutations(o.val, run, hs[i + 1..], payload)
  {
    assert hs[i..][0] == hs[i] && hs[i..][1..] == hs[i + 1..];
    RunMutationsStep(w, run, hs[i..], payload);
  }

  lemma RunCommitsStepAt(w: World, run: Runner, types: seq<string>, i: nat, payload: Value)
    requires i < |types|
    ensures var o := StoreSpec.Commit(w, run, types[i], payload);
            RunCommits(w, run, types[i..], payload) == if o.Threw? then o else RunCommits(o.val, run, types[i + 1..], payload)
  {
    assert types[i..][0] == types[i] && types[i..][1..] == types[i + 1..];
    RunCommitsStep(w, run, types[i..], payload);
  }

  lemma RunActionsStepAt(w: World, run: Runner, acts: seq<Action>, i: nat, payload: Value)
    requires i < |acts|
    ensures var o := StoreSpec.RunAction(w, run, acts[i], payload);
            RunActions(w, run, acts[i..], payload) == if o.Threw? then o else RunActions(o.val, run, acts[i + 1..], payload)
  {
    assert acts[i..][0] == acts[i] && acts[i..][1..] == acts[i + 1..];
    RunActionsStep(w, run, acts[i..], payload);
  }

  lemma PrefixedEmpty(r: Result<string>)
    ensures Prefixed("", r) == r
  {
    if r.Ok? {
      assert "" + r.value == r.value;
    }
  }

  lemma PrefixedTwice(ns: string, seg: string, r: Result<string>)
    ensures Prefixed(ns, Prefixed(seg, r)) == Prefixed(ns + seg, r)
  {
    if r.Ok? {
      assert ns + (seg + r.value) == (ns + seg) + r.value;
    }
  }

  /** One step of the namespace fold, stated with `Prefixed`. */
  lemma NamespaceUnfold(node: Option<Record>, p: seq<string>)
    requires p != []
    ensures var child := if node.None? then None else Find(node.value.children, p[0]);
            && (child.None? ==> Namespace(node, p) == Err(MissingModule))
            && (child.Some? ==> Namespace(node, p)
                                == Prefixed(if child.value.raw.namespaced then p[0] + "/" else "", Namespace(child, p[1..])))
  {
  }

  class Store {
    /** The meaning of the mutation bodies of this store's modules. */
    const run: Runner
    /** The meaning of the getter bodies of this store's modules. */
    const read: Reader
    const modules: ModuleCollections

    /** `this.vm.state`: the root of the state tree. */
    var state: Value
    var getters: map<string, GetterEntry>
    var mutations: map<string, seq<MutHandler>>
    var actions: map<string, seq<Action>>
    var subs: seq<Fn>
    /** `_committing`. */
    var committing: bool
    /** What the store has done, including every write and the flag at that
        moment; it stands in for the strict-mode watcher. */
    var trace: seq<Event>

    ghost function Snapshot(): (r: World)
      reads this, modules
    {
      World(modules.root, state, getters, mutations, actions, subs, committing, trace)
    }

    /** `new Store(options)` up to the call of `installModule`
        (src/vuex/index.js:104-117). */
    constructor (options: Def, run: Runner, read: Reader)
      ensures Snapshot() == World(Some(Build(options)), options.state, map[], map[], map[], [], false, [])
      ensures this.run == run && this.read == read
      ensures fresh(modules)
    {
      this.run := run;
      this.read := read;
      committing := false;
      state := options.state;
      getters := map[];
      mutations := map[];
      actions := map[];
      subs := [];
      trace := [];
      modules := new ModuleCollections(options);
    }

    /** `new Store(options)` (src/vuex/index.js:103-118): construct, then
        install the root module. A throw from the installation is reported
        with the store as it was left. */
    static method Create(options: Def, run: Runner, read: Reader) returns (store: Store, fault: Option<Fault>)
      ensures fresh(store) && fresh(store.modules)
      ensures store.run == run && store.read == read
      ensures Of(store.Snapshot(), fault) == Boot(options)
    {
      store := new Store(options, run, read);
      fault := store.InstallModule([], store.modules.root.value);
    }

    /** `installModule(this, this.state, path, rec)` (src/vuex/index.js:45-100). */
    method InstallModule(path: seq<string>, rec: Record) returns (fault: Option<Fault>)
      modifies this
      ensures Of(Snapshot(), fault) == Install(old(Snapshot()), path, rec)
      decreases rec, 1
    {
      ghost var w0 := Snapshot();
      var r := Qualify(modules.root, path);
      if r.Err? {
        return Some(r.fault);
      }
      var ns := r.value;
      if path != [] {
        fault := Graft(path, rec.state);
        if fault.Some? {
          return;
        }
      }
      ghost var w1 := Snapshot();
      assert (if path == [] then Done(w0) else Installer.Graft(w0, path, rec.state)) == Done(w1);
      fault := DefineGetters(ns, path, rec.raw.getters);
      if fault.Some? {
        return;
      }
      AddMutations(ns, path, rec.raw.mutations);
      AddActions(ns, rec.raw.actions);
      fault := InstallChildren(path, rec.children);
    }

    /** `Vue.set(parentState, path[last], rec.state)` after resolving the
        parent slice (src/vuex/index.js:53-58). */
    method Graft(path: seq<string>, slice: Value) returns (fault: Option<Fault>)
      requires path != []
      modifies this
      ensures Of(Snapshot(), fault) == Installer.Graft(old(Snapshot()), path, slice)
    {
      var key := path[|path| - 1];
      var parent := Resolve(state, Init(path));
      if parent.Err? {
        return Some(parent.fault);
      }
      if !parent.value.Obj? {
        return Some(SetOnNonObject(key));
      }
      state := SetAt(state, Init(path), Obj(parent.value.fields[key := slice]));
      trace := trace + [Grafted(path, committing)];
      fault := None;
    }

    /** The getter loop (src/vuex/index.js:59-68). */
    method DefineGetters(ns: string, path: seq<string>, defs: seq<(string, Fn)>) returns (fault: Option<Fault>)
      modifies this
      ensures Of(getters, fault) == Installer.DefineGetters(old(getters), ns, path, defs)
      ensures Snapshot() == old(Snapshot()).(getters := getters)
    {
      var i := 0;
      while i < |defs|
        invariant 0 <= i <= |defs|
        invariant Installer.DefineGetters(old(getters), ns, path, defs) == Installer.DefineGetters(getters, ns, path, defs[i..])
        invariant Snapshot() == old(Snapshot()).(getters := getters)
      {
        assert defs[i..][0] == defs[i] && defs[i..][1..] == defs[i + 1..];
        var key := ns + defs[i].0;
        if key in getters {
          return Some(GetterRedefined(key));
        }
        getters := getters[key := GetterEntry(path, defs[i].1)];
        i := i + 1;
      }
      fault := None;
    }

    /** The mutation loop (src/vuex/index.js:70-83). */
    method AddMutations(ns: string, path: seq<string>, defs: seq<(string, Fn)>)
      modifies this
      ensures mutations == Installer.AddMutations(old(mutations), ns, path, defs)
      ensures Snapshot() == old(Snapshot()).(mutations := mutations)
    {
      var i := 0;
      while i < |defs|
        invariant 0 <= i <= |defs|
        invariant Installer.AddMutations(old(mutations), ns, path, defs) == Installer.AddMutations(mutations, ns, path, defs[i..])
        invariant Snapshot() == old(Snapshot()).(mutations := mutations)
      {
        assert defs[i..][0] == defs[i] && defs[i..][1..] == defs[i + 1..];
        var key := ns + defs[i].0;
        mutations := mutations[key := Handlers(mutations, key) + [MutHandler(key, path, defs[i].1)]];
        i := i + 1;
      }
    }

    /** The action loop (src/vuex/index.js:85-95). */
    method AddActions(ns: string, defs: seq<(string, Action)>)
      modifies this
      ensures actions == Installer.AddActions(old(actions), ns, defs)
      ensures Snapshot() == old(Snapshot()).(actions := actions)
    {
      var i := 0;
      while i < |defs|
        invariant 0 <= i <= |defs|
        invariant Installer.AddActions(old(actions), ns, defs) == Installer.AddActions(actions, ns, defs[i..])
        invariant Snapshot() == old(Snapshot()).(actions := actions)
      {
        assert defs[i..][0] == defs[i] && defs[i..][1..] == defs[i + 1..];
        var key := ns + defs[i].0;
        actions := actions[key := Handlers(actions, key) + [defs[i].1]];
        i := i + 1;
      }
    }

    /** The recursion over `_children` (src/vuex/index.js:97-99). */
    method InstallChildren(path: seq<string>, kids: seq<(string, Record)>) returns (fault: Option<Fault>)
      modifies this
      ensures Of(Snapshot(), fault) == InstallAll(old(Snapshot()), path, kids)
      decreases kids, 0
    {
      var i := 0;
      while i < |kids|
        invariant 0 <= i <= |kids|
        invariant InstallAll(old(Snapshot()), path, kids) == InstallAll(Snapshot(), path, kids[i..])
      {
        assert kids[i..][0] == kids[i] && kids[i..][1..] == kids[i + 1..];
        var name, child := kids[i].0, kids[i].1;
        assert child < kids[i];
        fault := InstallModule(path + [name], child);
        if fault.Some? {
          return;
        }
        i := i + 1;
      }
      fault := None;
    }

    /** `subscribe(fn)` (src/vuex/index.js:143-145). */
    method Subscribe(sub: Fn)
      modifies this
      ensures Snapshot() == StoreSpec.Subscribe(old(Snapshot()), sub)
    {
      subs := subs + [sub];
    }

    /** `replaceState(newState)` (src/vuex/index.js:154-158). */
    method ReplaceState(newState: Value)
      modifies this
      ensures Snapshot() == StoreSpec.ReplaceState(old(Snapshot()), newState)
    {
      var saved := committing;
      committing := true;
      state := newState;
      trace := trace + [Replaced(committing)];
      committing := saved;
    }

    /** A mutation handler (src/vuex/index.js:76-81). */
    method InvokeMutation(h: MutHandler, payload: Value) returns (fault: Option<Fault>)
      modifies this
      ensures Of(Snapshot(), fault) == Invoke(old(Snapshot()), run, h, payload)
    {
      var slice := Resolve(state, h.path);
      if slice.Err? {
        return Some(slice.fault);
      }
      ghost var w0 := Snapshot();
      if slice.value.Obj? {
        state := SetAt(state, h.path, Obj(run(h.body, slice.value.fields, payload)));
      }
      trace := trace + [Mutated(h.qualified, h.path, payload, committing)];
      ghost var w1 := Snapshot();
      Notify(h.qualified, payload);
      assert GetState(w0.state, h.path) == Ok(slice.value);
      assert state == if slice.value.Obj? then SetAt(w0.state, h.path, Obj(run(h.body, slice.value.fields, payload))) else w0.state;
      assert Invoke(w0, run, h, payload) == Done(w1.(trace := w1.trace + Notifications(subs, h.qualified, payload, state)));
      fault := None;
    }

    /** `store.subs.forEach(fn => fn({type, payload}, store.state))`
        (src/vuex/index.js:78-80): one notification per subscriber, in
        subscription order, each with the current root state. */
    method Notify(qualified: string, payload: Value)
      modifies this
      ensures Snapshot() == old(Snapshot()).(trace := old(trace) + Notifications(subs, qualified, payload, state))
    {
      ghost var t0 := trace;
      var i := 0;
      while i < |subs|
        invariant 0 <= i <= |subs|
        invariant trace == t0 + Notifications(subs[..i], qualified, payload, state)
        invariant Snapshot() == old(Snapshot()).(trace := trace)
      {
        assert subs[..i + 1][..i] == subs[..i];
        trace := trace + [Notified(subs[i], qualified, payload, state)];
        i := i + 1;
      }
      assert subs[..|subs|] == subs;
    }

    /** `commit(name, payload)` (src/vuex/index.js:160-166). */
    method Commit(name: string, payload: Value) returns (fault: Option<Fault>)
      modifies this
      ensures Of(Snapshot(), fault) == StoreSpec.Commit(old(Snapshot()), run, name, payload)
    {
      var saved := committing;
      committing := true;
      if name !in mutations {
        return Some(UnknownMutation(name));
      }
      fault := RunHandlers(mutations[name], payload);
      if fault.None? {
        committing := saved;
      }
    }

    /** `this.mutations[name].forEach(fn => fn(payload))`
        (src/vuex/index.js:162-164): a throw stops the loop. */
    method RunHandlers(hs: seq<MutHandler>, payload: Value) returns (fault: Option<Fault>)
      modifies this
      ensures Of(Snapshot(), fault) == RunMutations(old(Snapshot()), run, hs, payload)
    {
      var i := 0;
      while i < |hs|
        invariant 0 <= i <= |hs|
        invariant RunMutations(old(Snapshot()), run, hs, payload) == RunMutations(Snapshot(), run, hs[i..], payload)
      {
        RunMutationsStepAt(Snapshot(), run, hs, i, payload);
        fault := InvokeMutation(hs[i], payload);
        if fault.Some? {
          return;
        }
        i := i + 1;
      }
      fault := None;
    }

    /** An action handler (src/vuex/index.js:91-93): the user's action,
        which commits its mutation types with the dispatched payload. */
    method RunAction(a: Action, payload: Value) returns (fault: Option<Fault>)
      modifies this
      ensures Of(Snapshot(), fault) == StoreSpec.RunAction(old(Snapshot()), run, a, payload)
    {
      trace := trace + [Acted(a.body, payload)];
      var i := 0;
      while i < |a.commits|
        invariant 0 <= i <= |a.commits|
        invariant StoreSpec.RunAction(old(Snapshot()), run, a, payload) == RunCommits(Snapshot(), run, a.commits[i..], payload)
      {
        RunCommitsStepAt(Snapshot(), run, a.commits, i, payload);
        fault := Commit(a.commits[i], payload);
        if fault.Some? {
          return;
        }
        i := i + 1;
      }
      fault := None;
    }

    /** `dispatch(name, payload)` (src/vuex/index.js:168-172). */
    method Dispatch(name: string, payload: Value) returns (fault: Option<Fault>)
      modifies this
      ensures Of(Snapshot(), fault) == StoreSpec.Dispatch(old(Snapshot()), run, name, payload)
    {
      if name !in actions {
        return Some(UnknownAction(name));
      }
      var acts := actions[name];
      var i := 0;
      while i < |acts|
        invariant 0 <= i <= |acts|
        invariant StoreSpec.Dispatch(old(Snapshot()), run, name, payload) == RunActions(Snapshot(), run, acts[i..], payload)
      {
        RunActionsStepAt(Snapshot(), run, acts, i, payload);
        fault := RunAction(acts[i], payload);
        if fault.Some? {
          return;
        }
        i := i + 1;
      }
      fault := None;
    }

    /** `registerModule(name, def)` (src/vuex/index.js:174-182). */
    method RegisterModule(name: ModuleName, def: Def) returns (fault: Option<Fault>)
      modifies this, modules
      ensures Of(Snapshot(), fault) == StoreSpec.RegisterModule(old(Snapshot()), name, def)
    {
      var path := Normalize(name);
      var saved := committing;
      committing := true;
      var before := modules.root;
      fault := modules.Register(path, def);
      if fault.Some? {
        return;
      }
      fault := InstallModule(path, Created(before, modules.root, path, def));
      if fault.Some? {
        return;
      }
      committing := saved;
    }

    /** `store.getters[name]` (src/vuex/index.js:62-66). */
    method Getter(name: string) returns (r: Result<Value>)
      ensures r == GetterValue(Snapshot(), read, name)
    {
      if name !in getters {
        return Ok(Undefined);
      }
      var slice := Resolve(state, getters[name].path);
      if slice.Err? {
        return Err(slice.fault);
      }
      return Ok(read(getters[name].body, slice.value));
    }
  }
}
