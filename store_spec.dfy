/** The `Store` facade (src/vuex/index.js:102-183) as functions of the
    store's state: construction, `_withCommit`, `commit`, `dispatch`,
    `replaceState`, `subscribe`, `registerModule` and getter reads. */
module StoreSpec {
  import opened Outcomes
  import opened JsValues
  import opened ModuleTree
  import opened Installer

  /** The meaning of user mutation bodies: the new properties of the module's
      state object, given its old properties and the payload. */
  type Runner = (Fn, map<string, Value>, Value) -> map<string, Value>

  /** The meaning of user getter bodies, given the module's state slice. */
  type Reader = (Fn, Value) -> Value

  /** `new Store(options)` up to its plugins and watcher
      (src/vuex/index.js:103-118): a fresh store over the options' state,
      the options registered as the root module, then the root installed. */
  function Boot(options: Def): (r: Outcome<World>)
  {
    Install(World(Some(Build(options)), options.state, map[], map[], map[], [], false, []), [], Build(options))
  }

  /** Construction installs the whole options tree: for every path that
      reaches a module definition, its mutations, actions and getters are
      installed under the namespace the path determines. */
  lemma BootInstallsAll(options: Def, path: seq<string>)
    requires Boot(options).Done?
    requires DefAt(options, path).Some?
    ensures Landed(Boot(options).val, Qualifier(Build(options), path), path, DefAt(options, path).value)
  {
    var t := Build(options);
    BuildMirrors(options, path);
    NamespaceComposition(t, path);
    assert [] + path == path;
    InstallCovers(World(Some(t), options.state, map[], map[], map[], [], false, []), [], t, path);
  }

  /** Construction builds the whole tables: under every key, the mutation
      list is exactly what the modules of the options tree contribute to it,
      in registration order (pre-order, children in key order), and the
      action list likewise. */
  lemma BootTables(options: Def, key: string)
    requires Boot(options).Done?
    ensures Handlers(Boot(options).val.mutations, key) == SubtreeMutations(Some(Build(options)), [], Build(options), key)
    ensures Handlers(Boot(options).val.actions, key) == SubtreeActions(Some(Build(options)), [], Build(options), key)
  {
    var w := World(Some(Build(options)), options.state, map[], map[], map[], [], false, []);
    assert Boot(options) == Install(w, [], Build(options));
    InstallFromEmpty(w, [], Build(options), key);
  }

  lemma InstallFromEmpty(w: World, path: seq<string>, rec: Record, key: string)
    requires Install(w, path, rec).Done?
    requires w.mutations == map[] && w.actions == map[]
    ensures Handlers(Install(w, path, rec).val.mutations, key) == SubtreeMutations(w.root, path, rec, key)
    ensures Handlers(Install(w, path, rec).val.actions, key) == SubtreeActions(w.root, path, rec, key)
  {
    InstallTables(w, path, rec, key);
    assert Handlers(w.mutations, key) == [] && Handlers(w.actions, key) == [];
  }

  /** Construction builds the whole state tree: the store's state is the
      options' record tree grown, every module's state set under its key in
      its parent's state. */
  lemma BootState(options: Def)
    requires Boot(options).Done?
    ensures Boot(options).val.state == Grown(Build(options))
    ensures Sound(Build(options))
  {
    var w := World(Some(Build(options)), options.state, map[], map[], map[], [], false, []);
    InstallState(w, [], Build(options));
    InstallSound(w, [], Build(options));
  }

  /** After construction, every path that reaches a module definition of the
      options resolves in the store's state to that module's grown state. */
  lemma BootStateAt(options: Def, path: seq<string>)
    requires Boot(options).Done?
    requires DefAt(options, path).Some?
    ensures GetState(Boot(options).val.state, path) == Ok(Grown(Build(DefAt(options, path).value)))
  {
    BootState(options);
    BuildMirrors(options, path);
    BuildWellFormed(options);
    GrownLookup(Build(options), path);
  }

  /** The first half of `_withCommit` (src/vuex/index.js:147-152): set the flag. */
  function Enter(w: World): (r: World)
  {
    w.(committing := true)
  }

  /** The second half of `_withCommit`: restore the saved flag once the body
      returns. There is no `finally`, so a body that throws leaves the flag
      as the body left it. */
  function Leave(saved: bool, o: Outcome<World>): (r: Outcome<World>)
  {
    match o
    case Done(w) => Done(w.(committing := saved))
    case Threw(f, w) => Threw(f, w)
  }

  /** One notification per subscriber, in subscription order
      (src/vuex/index.js:78-80). */
  function Notifications(subs: seq<Fn>, qualified: string, payload: Value, state: Value): (r: seq<Event>)
    decreases |subs|
  {
    if subs == [] then []
    else Notifications(subs[..|subs| - 1], qualified, payload, state)
         + [Notified(subs[|subs| - 1], qualified, payload, state)]
  }

  /** A mutation handler (src/vuex/index.js:76-81): re-resolve the module's
      slice, run the user's mutation on it, then notify every subscriber with
      the mutation and the current root state. */
  function Invoke(w: World, run: Runner, h: MutHandler, payload: Value): (r: Outcome<World>)
  {
    match GetState(w.state, h.path)
    case Err(f) => Threw(f, w)
    case Ok(slice) =>
      var state := if slice.Obj? then SetAt(w.state, h.path, Obj(run(h.body, slice.fields, payload))) else w.state;
      Done(w.(state := state,
              trace := w.trace + [Mutated(h.qualified, h.path, payload, w.committing)]
                       + Notifications(w.subs, h.qualified, payload, state)))
  }

  /** `mutations[name].forEach(fn => fn(payload))`: a throw stops the loop. */
  function RunMutations(w: World, run: Runner, hs: seq<MutHandler>, payload: Value): (r: Outcome<World>)
    decreases |hs|
  {
    if hs == [] then Done(w)
    else
      match Invoke(w, run, hs[0], payload)
      case Threw(f, w1) => Threw(f, w1)
      case Done(w1) => RunMutations(w1, run, hs[1..], payload)
  }

  /** `commit(name, payload)` (src/vuex/index.js:160-166). The lookup happens
      inside `_withCommit`, so an unknown name throws with the flag set. */
  function Commit(w: World, run: Runner, name: string, payload: Value): (r: Outcome<World>)
  {
    var w1 := Enter(w);
    Leave(w.committing,
          if name !in w1.mutations then Threw(UnknownMutation(name), w1)
          else RunMutations(w1, run, w1.mutations[name], payload))
  }

  /** The commits an action body makes, in order. */
  function RunCommits(w: World, run: Runner, types: seq<string>, payload: Value): (r: Outcome<World>)
    decreases |types|
  {
    if types == [] then Done(w)
    else
      match Commit(w, run, types[0], payload)
      case Threw(f, w1) => Threw(f, w1)
      case Done(w1) => RunCommits(w1, run, types[1..], payload)
  }

  /** An action handler (src/vuex/index.js:91-93): call the user's action
      with the store and the payload. */
  function RunAction(w: World, run: Runner, a: Action, payload: Value): (r: Outcome<World>)
  {
    RunCommits(w.(trace := w.trace + [Acted(a.body, payload)]), run, a.commits, payload)
  }

  /** `actions[name].forEach(fn => fn(payload))`. */
  function RunActions(w: World, run: Runner, acts: seq<Action>, payload: Value): (r: Outcome<World>)
    decreases |acts|
  {
    if acts == [] then Done(w)
    else
      match RunAction(w, run, acts[0], payload)
      case Threw(f, w1) => Threw(f, w1)
      case Done(w1) => RunActions(w1, run, acts[1..], payload)
  }

  /** One step of each loop above: the first call's throw ends the loop,
      otherwise the rest runs from the state the first call left. */
  lemma RunMutationsStep(w: World, run: Runner, hs: seq<MutHandler>, payload: Value)
    requires hs != []
    ensures var o := Invoke(w, run, hs[0], payload);
            RunMutations(w, run, hs, payload) == if o.Threw? then o else RunMutations(o.val, run, hs[1..], payload)
  {
  }

  lemma RunCommitsStep(w: World, run: Runner, types: seq<string>, payload: Value)
    requires types != []
    ensures var o := Commit(w, run, types[0], payload);
            RunCommits(w, run, types, payload) == if o.Threw? then o else RunCommits(o.val, run, types[1..], payload)
  {
  }

  lemma RunActionsStep(w: World, run: Runner, acts: seq<Action>, payload: Value)
    requires acts != []
    ensures var o := RunAction(w, run, acts[0], payload);
            RunActions(w, run, acts, payload) == if o.Threw? then o else RunActions(o.val, run, acts[1..], payload)
  {
  }

  /** `dispatch(name, payload)` (src/vuex/index.js:168-172): no `_withCommit`. */
  function Dispatch(w: World, run: Runner, name: string, payload: Value): (r: Outcome<World>)
  {
    if name !in w.actions then Threw(UnknownAction(name), w)
    else RunActions(w, run, w.actions[name], payload)
  }

  /** `replaceState(state)` (src/vuex/index.js:154-158). */
  function ReplaceState(w: World, state: Value): (r: World)
  {
    Leave(w.committing, Done(Enter(w).(state := state, trace := w.trace + [Replaced(true)]))).val
  }

  /** `subscribe(fn)` (src/vuex/index.js:143-145). */
  function Subscribe(w: World, sub: Fn): (r: World)
  {
    w.(subs := w.subs + [sub])
  }

  /** The first argument of `registerModule`: a single name or a path. */
  datatype ModuleName = Name(name: string) | Path(segments: seq<string>)

  /** `if (!Array.isArray(moduleName)) moduleName = [moduleName]`. */
  function Normalize(n: ModuleName): (r: seq<string>)
  {
    match n
    case Name(s) => [s]
    case Path(p) => p
  }

  /** The record `register` stored in `module.rawModule`: the one found at
      the path afterwards, except that a second registration at the empty
      path attaches its record under "undefined" and its children under the
      root, leaving the record childless. */
  function Created(before: Option<Record>, after: Option<Record>, path: seq<string>, def: Def): (r: Record)
  {
    if path == [] && before.Some? then Fresh(def)
    else if after.None? then Fresh(def)
    else
      match Lookup(after.value, path)
      case Some(r) => r
      case None => Fresh(def)
  }

  /** `registerModule(name, def)` (src/vuex/index.js:174-182): normalise the
      name, then register and install under `_withCommit`. */
  function RegisterModule(w: World, name: ModuleName, def: Def): (r: Outcome<World>)
  {
    var path := Normalize(name);
    var w1 := Enter(w);
    Leave(w.committing,
          match ModuleTree.Register(w1.root, path, def)
          case Threw(f, r) => Threw(f, w1.(root := r))
          case Done(r) => Install(w1.(root := r), path, Created(w1.root, r, path, def)))
  }

  /** `store.getters[name]`: undefined when no getter has that name,
      otherwise the user's getter over the slice re-resolved now
      (src/vuex/index.js:62-66). */
  function GetterValue(w: World, read: Reader, name: string): (r: Result<Value>)
  {
    if name !in w.getters then Ok(Undefined)
    else
      var e := w.getters[name];
      match GetState(w.state, e.path)
      case Err(f) => Err(f)
      case Ok(slice) => Ok(read(e.body, slice))
  }

  // ---------------------------------------------------------------------
  // Fan-out and notification order

  /** An event without the state snapshot a notification carries. */
  function Bare(e: Event): (r: Event)
  {
    if e.Notified? then e.(state := Undefined) else e
  }

  function Skeleton(t: seq<Event>): (r: seq<Event>)
    decreases |t|
  {
    if t == [] then [] else [Bare(t[0])] + Skeleton(t[1..])
  }

  /** Reference order of a commit: for each handler in registration order,
      its mutation and then one notification per subscriber in subscription
      order. */
  function FanOut(hs: seq<MutHandler>, subs: seq<Fn>, payload: Value): (r: seq<Event>)
    decreases |hs|
  {
    if hs == [] then []
    else [Mutated(hs[0].qualified, hs[0].path, payload, true)]
         + Skeleton(Notifications(subs, hs[0].qualified, payload, Undefined))
         + FanOut(hs[1..], subs, payload)
  }

  /** Everything but the state, the flag and the trace is as in `w`. */
  ghost predicate SameTables(w: World, w2: World)
  {
    w2.(state := w.state, committing := w.committing, trace := w.trace) == w
  }

  /** From position `from` on, `trace` holds only what the store itself did,
      and none of its writes happened outside a commit. */
  ghost predicate FlaggedFrom(trace: seq<Event>, from: nat)
  {
    forall i :: from <= i < |trace| ==> !Unflagged(trace[i]) && !trace[i].Assigned?
  }

  lemma {:induction false} SkeletonAppend(a: seq<Event>, b: seq<Event>)
    ensures Skeleton(a + b) == Skeleton(a) + Skeleton(b)
    decreases |a|
  {
    if a == [] {
      assert a + b == b;
    } else {
      assert (a + b)[1..] == a[1..] + b;
      SkeletonAppend(a[1..], b);
    }
  }

  lemma {:induction false} NotificationsBare(subs: seq<Fn>, qualified: string, payload: Value, state: Value)
    ensures Skeleton(Notifications(subs, qualified, payload, state)) == Skeleton(Notifications(subs, qualified, payload, Undefined))
    ensures forall e :: e in Notifications(subs, qualified, payload, state) ==> e.Notified? && e.state == state
    decreases |subs|
  {
    if subs != [] {
      var n := |subs| - 1;
      NotificationsBare(subs[..n], qualified, payload, state);
      SkeletonAppend(Notifications(subs[..n], qualified, payload, state), [Notified(subs[n], qualified, payload, state)]);
      SkeletonAppend(Notifications(subs[..n], qualified, payload, Undefined), [Notified(subs[n], qualified, payload, Undefined)]);
    }
  }

  lemma FlaggedAppend(t: seq<Event>, from: nat, extra: seq<Event>)
    requires from <= |t| && FlaggedFrom(t, from)
    requires forall e :: e in extra ==> !Unflagged(e) && !e.Assigned?
    ensures FlaggedFrom(t + extra, from)
  {
    forall i | from <= i < |t + extra| ensures !Unflagged((t + extra)[i]) && !(t + extra)[i].Assigned? {
      if i >= |t| {
        assert (t + extra)[i] in extra;
      }
    }
  }

  lemma FlaggedChain(t1: seq<Event>, t2: seq<Event>, from: nat)
    requires from <= |t1| && t1 <= t2
    requires FlaggedFrom(t1, from) && FlaggedFrom(t2, |t1|)
    ensures FlaggedFrom(t2, from)
  {
    forall i | from <= i < |t2| ensures !Unflagged(t2[i]) && !t2[i].Assigned? {
      if i < |t1| {
        assert t2[i] == t1[i];
      }
    }
  }

  /** A handler either throws with the store untouched, or changes only the
      state and appends its mutation and the notifications. */
  lemma InvokeShape(w: World, run: Runner, h: MutHandler, payload: Value)
    ensures Invoke(w, run, h, payload).Threw? ==> Invoke(w, run, h, payload).val == w
    ensures var w1 := Invoke(w, run, h, payload).val;
            Invoke(w, run, h, payload).Done? ==>
              w1 == w.(state := w1.state,
                       trace := w.trace + ([Mutated(h.qualified, h.path, payload, w.committing)]
                                           + Notifications(w.subs, h.qualified, payload, w1.state)))
  {
  }

  /** Running a commit's handlers changes only the state and the trace; run
      under the flag, every write it records is flagged. */
  lemma {:induction false} RunMutationsFrame(w: World, run: Runner, hs: seq<MutHandler>, payload: Value)
    ensures SameTables(w, RunMutations(w, run, hs, payload).val)
    ensures RunMutations(w, run, hs, payload).val.committing == w.committing
    ensures w.trace <= RunMutations(w, run, hs, payload).val.trace
    ensures w.committing ==> FlaggedFrom(RunMutations(w, run, hs, payload).val.trace, |w.trace|)
    decreases |hs|
  {
    if hs != [] {
      var h := hs[0];
      InvokeShape(w, run, h, payload);
      match Invoke(w, run, h, payload)
      case Threw(f, w1) =>
      case Done(w1) =>
        NotificationsBare(w.subs, h.qualified, payload, w1.state);
        var extra := [Mutated(h.qualified, h.path, payload, w.committing)] + Notifications(w.subs, h.qualified, payload, w1.state);
        if w.committing {
          FlaggedAppend(w.trace, |w.trace|, extra);
        }
        RunMutationsFrame(w1, run, hs[1..], payload);
        if w.committing {
          FlaggedChain(w1.trace, RunMutations(w1, run, hs[1..], payload).val.trace, |w.trace|);
        }
    }
  }

  /** Under the flag, a completed run of handlers records exactly the
      reference fan-out, whatever the state snapshots in the notifications. */
  lemma {:induction false} RunMutationsFanOut(w: World, run: Runner, hs: seq<MutHandler>, payload: Value)
    requires w.committing
    requires RunMutations(w, run, hs, payload).Done?
    ensures var t := RunMutations(w, run, hs, payload).val.trace;
            |w.trace| <= |t| && t[..|w.trace|] == w.trace && Skeleton(t[|w.trace|..]) == FanOut(hs, w.subs, payload)
    decreases |hs|
  {
    var t := RunMutations(w, run, hs, payload).val.trace;
    if hs == [] {
      assert t[|w.trace|..] == [];
    } else {
      var h := hs[0];
      var w1 := Invoke(w, run, h, payload).val;
      var notes := Notifications(w.subs, h.qualified, payload, w1.state);
      var mine := [Mutated(h.qualified, h.path, payload, true)] + notes;
      InvokeShape(w, run, h, payload);
      RunMutationsFanOut(w1, run, hs[1..], payload);
      RunMutationsFrame(w1, run, hs[1..], payload);
      assert t[|w.trace|..] == mine + t[|w1.trace|..];
      SkeletonAppend(mine, t[|w1.trace|..]);
      SkeletonAppend([Mutated(h.qualified, h.path, payload, true)], notes);
      NotificationsBare(w.subs, h.qualified, payload, w1.state);
    }
  }

  /** Commit fan-out and flag discipline: a completed commit ran every
      handler listed under the name in registration order, each followed by
      one notification per subscriber in subscription order; it changed
      nothing but the state and the trace, and restored the flag it found. */
  lemma CommitFanOut(w: World, run: Runner, name: string, payload: Value)
    requires Commit(w, run, name, payload).Done?
    ensures name in w.mutations
    ensures var w2 := Commit(w, run, name, payload).val;
            && w2.committing == w.committing
            && SameTables(w, w2)
            && |w.trace| <= |w2.trace| && w2.trace[..|w.trace|] == w.trace
            && Skeleton(w2.trace[|w.trace|..]) == FanOut(w.mutations[name], w.subs, payload)
  {
    RunMutationsFanOut(Enter(w), run, w.mutations[name], payload);
    RunMutationsFrame(Enter(w), run, w.mutations[name], payload);
  }

  /** Commit-flag discipline, as written: every write a commit makes is
      flagged; the flag is restored when it completes, and stays set when it
      throws, because `_withCommit` has no `finally`. */
  lemma CommitFlag(w: World, run: Runner, name: string, payload: Value)
    ensures var o := Commit(w, run, name, payload);
            && (o.Done? ==> o.val.committing == w.committing)
            && (o.Threw? ==> o.val.committing)
            && w.trace <= o.val.trace
            && FlaggedFrom(o.val.trace, |w.trace|)
  {
    if name in w.mutations {
      RunMutationsFrame(Enter(w), run, w.mutations[name], payload);
    }
  }

  /** Committing a name with no handlers throws and leaves the flag set. */
  lemma UnknownMutationLeavesFlagSet(w: World, run: Runner, name: string, payload: Value)
    requires name !in w.mutations
    ensures Commit(w, run, name, payload) == Threw(UnknownMutation(name), w.(committing := true))
  {
  }

  /** State graft identity: when one handler is listed under the name and
      its module's slice is an object, a commit writes the mutated slice at
      the module's path and records the mutation, flagged, followed by one
      notification per subscriber, each carrying the new root state. */
  lemma CommitWritesSlice(w: World, run: Runner, name: string, payload: Value, h: MutHandler)
    requires name in w.mutations && w.mutations[name] == [h]
    requires GetState(w.state, h.path).Ok? && GetState(w.state, h.path).value.Obj?
    ensures Commit(w, run, name, payload).Done?
    ensures var w2 := Commit(w, run, name, payload).val;
            var slice := Obj(run(h.body, GetState(w.state, h.path).value.fields, payload));
            && GetState(w2.state, h.path) == Ok(slice)
            && w2.trace == w.trace + [Mutated(h.qualified, h.path, payload, true)] + Notifications(w.subs, h.qualified, payload, w2.state)
            && forall e :: e in Notifications(w.subs, h.qualified, payload, w2.state) ==> e.Notified? && e.state == w2.state
  {
    var slice := Obj(run(h.body, GetState(w.state, h.path).value.fields, payload));
    var w1 := Enter(w);
    var st := SetAt(w.state, h.path, slice);
    assert Invoke(w1, run, h, payload) == Done(w1.(state := st,
      trace := w.trace + [Mutated(h.qualified, h.path, payload, true)] + Notifications(w.subs, h.qualified, payload, st)));
    assert RunMutations(w1, run, [h], payload) == Invoke(w1, run, h, payload);
    ReadAfterWrite(w.state, h.path, slice);
    NotificationsBare(w.subs, h.qualified, payload, st);
  }

  /** Getter freshness: after such a commit, a getter over the mutated
      module reads the new slice. */
  lemma GetterAfterCommit(w: World, run: Runner, read: Reader, name: string, payload: Value, h: MutHandler, getter: string)
    requires name in w.mutations && w.mutations[name] == [h]
    requires GetState(w.state, h.path).Ok? && GetState(w.state, h.path).value.Obj?
    requires getter in w.getters && w.getters[getter].path == h.path
    ensures Commit(w, run, name, payload).Done?
    ensures GetterValue(Commit(w, run, name, payload).val, read, getter)
            == Ok(read(w.getters[getter].body, Obj(run(h.body, GetState(w.state, h.path).value.fields, payload))))
  {
    CommitWritesSlice(w, run, name, payload, h);
    CommitFanOut(w, run, name, payload);
  }

  // ---------------------------------------------------------------------
  // Dispatch

  lemma {:induction false} RunCommitsFlag(w: World, run: Runner, types: seq<string>, payload: Value)
    ensures var o := RunCommits(w, run, types, payload);
            && (o.Done? ==> o.val.committing == w.committing)
            && w.trace <= o.val.trace
            && FlaggedFrom(o.val.trace, |w.trace|)
    decreases |types|
  {
    if types != [] {
      CommitFlag(w, run, types[0], payload);
      match Commit(w, run, types[0], payload)
      case Threw(f, w1) =>
      case Done(w1) =>
        RunCommitsFlag(w1, run, types[1..], payload);
        FlaggedChain(w1.trace, RunCommits(w1, run, types[1..], payload).val.trace, |w.trace|);
    }
  }

  lemma {:induction false} RunActionsFlag(w: World, run: Runner, acts: seq<Action>, payload: Value)
    ensures var o := RunActions(w, run, acts, payload);
            && (o.Done? ==> o.val.committing == w.committing)
            && w.trace <= o.val.trace
            && FlaggedFrom(o.val.trace, |w.trace|)
    decreases |acts|
  {
    if acts != [] {
      var a := acts[0];
      var wa := w.(trace := w.trace + [Acted(a.body, payload)]);
      FlaggedAppend(w.trace, |w.trace|, [Acted(a.body, payload)]);
      RunCommitsFlag(wa, run, a.commits, payload);
      FlaggedChain(wa.trace, RunAction(w, run, a, payload).val.trace, |w.trace|);
      match RunAction(w, run, a, payload)
      case Threw(f, w1) =>
      case Done(w1) =>
        RunActionsFlag(w1, run, acts[1..], payload);
        FlaggedChain(w1.trace, RunActions(w1, run, acts[1..], payload).val.trace, |w.trace|);
    }
  }

  /** Dispatch never touches the flag itself: an unknown name throws with
      the store unchanged, and a completed dispatch ends with the flag it
      found; every write its actions' commits make is flagged. */
  lemma DispatchFlag(w: World, run: Runner, name: string, payload: Value)
    ensures name !in w.actions ==> Dispatch(w, run, name, payload) == Threw(UnknownAction(name), w)
    ensures var o := Dispatch(w, run, name, payload);
            && (o.Done? ==> o.val.committing == w.committing)
            && w.trace <= o.val.trace
            && FlaggedFrom(o.val.trace, |w.trace|)
  {
    if name in w.actions {
      RunActionsFlag(w, run, w.actions[name], payload);
    }
  }

  /** Reference order of an action body's commits: the fan-out of each
      committed type in turn, under the handlers listed for it. */
  function CommitsFanOut(mutations: map<string, seq<MutHandler>>, subs: seq<Fn>, types: seq<string>, payload: Value)
    : (r: seq<Event>)
    decreases |types|
  {
    if types == [] then []
    else FanOut(Handlers(mutations, types[0]), subs, payload) + CommitsFanOut(mutations, subs, types[1..], payload)
  }

  /** Reference order of a dispatch: for each action in registration order,
      the action itself and then the fan-out of the commits it makes. */
  function ActionsFanOut(mutations: map<string, seq<MutHandler>>, subs: seq<Fn>, acts: seq<Action>, payload: Value)
    : (r: seq<Event>)
    decreases |acts|
  {
    if acts == [] then []
    else [Acted(acts[0].body, payload)] + CommitsFanOut(mutations, subs, acts[0].commits, payload)
         + ActionsFanOut(mutations, subs, acts[1..], payload)
  }

  /** What a completed run leaves: the tables and the flag as they were,
      the old trace as a prefix, and `added` as the skeleton of the rest. */
  ghost predicate RanAs(w: World, w2: World, added: seq<Event>)
  {
    && SameTables(w, w2) && w2.committing == w.committing
    && |w.trace| <= |w2.trace| && w2.trace[..|w.trace|] == w.trace
    && Skeleton(w2.trace[|w.trace|..]) == added
  }

  /** Two completed runs in a row add up. */
  lemma RanAsChain(w: World, w1: World, w2: World, a1: seq<Event>, a2: seq<Event>)
    requires RanAs(w, w1, a1) && RanAs(w1, w2, a2)
    ensures RanAs(w, w2, a1 + a2)
  {
    assert w2.trace[..|w.trace|] == w1.trace[..|w1.trace|][..|w.trace|];
    assert w2.trace[|w.trace|..] == w1.trace[|w.trace|..] + w2.trace[|w1.trace|..];
    SkeletonAppend(w1.trace[|w.trace|..], w2.trace[|w1.trace|..]);
  }

  lemma {:induction false} RunCommitsFanOut(w: World, run: Runner, types: seq<string>, payload: Value)
    requires RunCommits(w, run, types, payload).Done?
    ensures RanAs(w, RunCommits(w, run, types, payload).val, CommitsFanOut(w.mutations, w.subs, types, payload))
    decreases |types|
  {
    var w2 := RunCommits(w, run, types, payload).val;
    if types == [] {
      assert w2.trace[|w.trace|..] == [];
    } else {
      RunCommitsStep(w, run, types, payload);
      var w1 := Commit(w, run, types[0], payload).val;
      CommitFanOut(w, run, types[0], payload);
      assert RanAs(w, w1, FanOut(Handlers(w.mutations, types[0]), w.subs, payload));
      RunCommitsFanOut(w1, run, types[1..], payload);
      RanAsChain(w, w1, w2, FanOut(Handlers(w.mutations, types[0]), w.subs, payload),
                 CommitsFanOut(w.mutations, w.subs, types[1..], payload));
    }
  }

  lemma {:induction false} RunActionsFanOut(w: World, run: Runner, acts: seq<Action>, payload: Value)
    requires RunActions(w, run, acts, payload).Done?
    ensures RanAs(w, RunActions(w, run, acts, payload).val, ActionsFanOut(w.mutations, w.subs, acts, payload))
    decreases |acts|
  {
    var w3 := RunActions(w, run, acts, payload).val;
    if acts == [] {
      assert w3.trace[|w.trace|..] == [];
    } else {
      var a := acts[0];
      RunActionsStep(w, run, acts, payload);
      var wa := w.(trace := w.trace + [Acted(a.body, payload)]);
      var w1 := RunAction(w, run, a, payload).val;
      assert wa.trace[|w.trace|..] == [Acted(a.body, payload)];
      assert RanAs(w, wa, [Acted(a.body, payload)]);
      RunCommitsFanOut(wa, run, a.commits, payload);
      RanAsChain(w, wa, w1, [Acted(a.body, payload)], CommitsFanOut(w.mutations, w.subs, a.commits, payload));
      RunActionsFanOut(w1, run, acts[1..], payload);
      RanAsChain(w, w1, w3, [Acted(a.body, payload)] + CommitsFanOut(w.mutations, w.subs, a.commits, payload),
                 ActionsFanOut(w.mutations, w.subs, acts[1..], payload));
    }
  }

  /** Dispatch fan-out: a completed dispatch had actions for its type and
      ran every one in registration order, each recorded and followed by the
      fan-out of every commit it makes, in order; it changed nothing but the
      state and the trace, and ends with the flag it found. */
  lemma DispatchFanOut(w: World, run: Runner, name: string, payload: Value)
    requires Dispatch(w, run, name, payload).Done?
    ensures name in w.actions
    ensures var w2 := Dispatch(w, run, name, payload).val;
            && w2.committing == w.committing
            && SameTables(w, w2)
            && |w.trace| <= |w2.trace| && w2.trace[..|w.trace|] == w.trace
            && Skeleton(w2.trace[|w.trace|..]) == ActionsFanOut(w.mutations, w.subs, w.actions[name], payload)
  {
    RunActionsFanOut(w, run, w.actions[name], payload);
  }

  /** One commit of a single-handler mutation with one subscriber. */
  lemma CommitOnce(w: World, run: Runner, m: string, payload: Value, h: MutHandler, sub: Fn)
    requires m in w.mutations && w.mutations[m] == [h]
    requires w.subs == [sub]
    requires GetState(w.state, h.path).Ok? && GetState(w.state, h.path).value.Obj?
    ensures Commit(w, run, m, payload).Done?
    ensures var w2 := Commit(w, run, m, payload).val;
            && SameTables(w, w2) && w2.committing == w.committing
            && GetState(w2.state, h.path).Ok? && GetState(w2.state, h.path).value.Obj?
            && w2.trace == w.trace + [Mutated(h.qualified, h.path, payload, true), Notified(sub, h.qualified, payload, w2.state)]
  {
    CommitWritesSlice(w, run, m, payload, h);
    CommitFanOut(w, run, m, payload);
    var w2 := Commit(w, run, m, payload).val;
    assert Notifications([sub], h.qualified, payload, w2.state) == [Notified(sub, h.qualified, payload, w2.state)];
  }

  /** The run of one action whose body commits `m` twice. */
  lemma ActionTwiceRuns(w: World, run: Runner, name: string, payload: Value, body: Fn, m: string, h: MutHandler, sub: Fn)
    returns (w1: World, w2: World)
    requires name in w.actions && w.actions[name] == [Action(body, [m, m])]
    requires m in w.mutations && w.mutations[m] == [h]
    requires w.subs == [sub]
    requires GetState(w.state, h.path).Ok? && GetState(w.state, h.path).value.Obj?
    ensures Dispatch(w, run, name, payload) == Done(w2) && w2.committing == w.committing
    ensures w2.trace == w.trace + [Acted(body, payload),
                                   Mutated(h.qualified, h.path, payload, true), Notified(sub, h.qualified, payload, w1.state),
                                   Mutated(h.qualified, h.path, payload, true), Notified(sub, h.qualified, payload, w2.state)]
  {
    var wa := w.(trace := w.trace + [Acted(body, payload)]);
    CommitOnce(wa, run, m, payload, h, sub);
    w1 := Commit(wa, run, m, payload).val;
    CommitOnce(w1, run, m, payload, h, sub);
    w2 := Commit(w1, run, m, payload).val;
    assert [m, m][1..] == [m] && [m][1..] == [];
    assert RunCommits(w1, run, [m], payload) == Done(w2);
    assert RunCommits(wa, run, [m, m], payload) == Done(w2);
    assert RunActions(w, run, [Action(body, [m, m])], payload) == Done(w2);
  }

  lemma SkeletonOfPair(a: Event, sub: Fn, q: string, p: Value, s: Value, rest: seq<Event>)
    ensures Skeleton([a, Notified(sub, q, p, s)] + rest) == [Bare(a), Notified(sub, q, p, Undefined)] + Skeleton(rest)
  {
    SkeletonAppend([a], [Notified(sub, q, p, s)] + rest);
    SkeletonAppend([Notified(sub, q, p, s)], rest);
    assert [a, Notified(sub, q, p, s)] + rest == [a] + ([Notified(sub, q, p, s)] + rest);
  }

  /** An action that commits the same single-handler mutation twice, with
      one subscriber: two mutations, each flagged and each followed by one
      notification, and the flag back to false afterwards. */
  lemma ActionCommitsTwice(w: World, run: Runner, name: string, payload: Value, body: Fn, m: string, h: MutHandler, sub: Fn)
    requires !w.committing
    requires name in w.actions && w.actions[name] == [Action(body, [m, m])]
    requires m in w.mutations && w.mutations[m] == [h]
    requires w.subs == [sub]
    requires GetState(w.state, h.path).Ok? && GetState(w.state, h.path).value.Obj?
    ensures Dispatch(w, run, name, payload).Done?
    ensures var w2 := Dispatch(w, run, name, payload).val;
            && !w2.committing
            && |w.trace| <= |w2.trace| && w2.trace[..|w.trace|] == w.trace
            && Skeleton(w2.trace[|w.trace|..])
               == [Acted(body, payload),
                   Mutated(h.qualified, h.path, payload, true), Notified(sub, h.qualified, payload, Undefined),
                   Mutated(h.qualified, h.path, payload, true), Notified(sub, h.qualified, payload, Undefined)]
  {
    var w1, w2 := ActionTwiceRuns(w, run, name, payload, body, m, h, sub);
    var a := Acted(body, payload);
    var mu := Mutated(h.qualified, h.path, payload, true);
    var tail := [mu, Notified(sub, h.qualified, payload, w2.state)];
    var added := [a] + ([mu, Notified(sub, h.qualified, payload, w1.state)] + tail);
    assert w2.trace[|w.trace|..] == added;
    SkeletonOfPair(mu, sub, h.qualified, payload, w2.state, []);
    assert tail == tail + [];
    SkeletonOfPair(mu, sub, h.qualified, payload, w1.state, tail);
    SkeletonAppend([a], [mu, Notified(sub, h.qualified, payload, w1.state)] + tail);
  }

  // ---------------------------------------------------------------------
  // Dynamic registration

  lemma GraftsFlagged(t: seq<Event>, from: nat)
    requires GraftsFrom(t, from, true)
    ensures FlaggedFrom(t, from)
  {
  }

  /** `registerModule` runs under the flag: every graft it makes is flagged,
      a completed call restores the flag it found, and one that throws
      leaves it set. */
  lemma RegisterModuleFlag(w: World, name: ModuleName, def: Def)
    ensures var o := RegisterModule(w, name, def);
            && (o.Done? ==> o.val.committing == w.committing)
            && (o.Threw? ==> o.val.committing)
            && w.trace <= o.val.trace
            && FlaggedFrom(o.val.trace, |w.trace|)
  {
    var path := Normalize(name);
    var w1 := Enter(w);
    match ModuleTree.Register(w1.root, path, def)
    case Threw(f, r) =>
    case Done(r) =>
      InstallGrows(w1.(root := r), path, Created(w1.root, r, path, def));
      GraftsFlagged(Install(w1.(root := r), path, Created(w1.root, r, path, def)).val.trace, |w.trace|);
  }

  /** Registering below a missing parent throws with the flag left set and
      the store otherwise unchanged. */
  lemma RegisterModuleMissingParent(w: World, name: ModuleName, def: Def)
    requires w.root.Some? && Lookup(w.root.value, Init(Normalize(name))).None?
    ensures RegisterModule(w, name, def) == Threw(MissingModule, w.(committing := true))
  {
    RegisterMissingParent(w.root.value, Normalize(name), def);
  }

  /** Dynamic registration lands: registering below an existing module
      attaches the definition's whole record tree at the path, and installs
      the new module's own mutations, actions and getters under its
      namespace, which is the reference concatenation along the path. */
  lemma RegisterModuleLands(w: World, name: ModuleName, def: Def)
    requires w.root.Some? && Normalize(name) != [] && Lookup(w.root.value, Init(Normalize(name))).Some?
    requires RegisterModule(w, name, def).Done?
    ensures var path := Normalize(name);
            var w2 := RegisterModule(w, name, def).val;
            var t := Attach(w.root.value, Init(path), LastKey(path), Build(def));
            var ns := Qualifier(t, path);
            && w2.root == Some(t)
            && (forall i :: 0 <= i < |def.mutations| ==>
                  MutHandler(ns + def.mutations[i].0, path, def.mutations[i].1) in Handlers(w2.mutations, ns + def.mutations[i].0))
            && (forall i :: 0 <= i < |def.actions| ==>
                  def.actions[i].1 in Handlers(w2.actions, ns + def.actions[i].0))
            && (forall i :: 0 <= i < |def.getters| ==>
                  ns + def.getters[i].0 in w2.getters && w2.getters[ns + def.getters[i].0] == GetterEntry(path, def.getters[i].1))
  {
    var path := Normalize(name);
    var w1 := Enter(w);
    RegisterBuilds(w.root, path, def);
    var t := Attach(w.root.value, Init(path), LastKey(path), Build(def));
    AttachPlaces(w.root.value, Init(path), LastKey(path), Build(def));
    assert Init(path) + [LastKey(path)] == path;
    assert Created(w1.root, Some(t), path, def) == Build(def);
    NamespaceComposition(t, path);
    InstallLands(w1.(root := Some(t)), path, Build(def), Qualifier(t, path));
    InstallGrows(w1.(root := Some(t)), path, Build(def));
  }

  /** Dynamic registration grows the state: registering below an existing
      module makes the path resolve to the definition's grown state, keeps
      the parent slice's other properties, and leaves every slice on a path
      diverging from the parent's as it was. */
  lemma RegisterModuleState(w: World, name: ModuleName, def: Def)
    requires w.root.Some? && Normalize(name) != [] && Lookup(w.root.value, Init(Normalize(name))).Some?
    requires RegisterModule(w, name, def).Done?
    ensures var path := Normalize(name);
            var parent := GetState(w.state, Init(path)).value;
            var s2 := RegisterModule(w, name, def).val.state;
            && GetState(w.state, Init(path)).Ok? && parent.Obj?
            && GetState(s2, Init(path)) == Ok(Obj(parent.fields[path[|path| - 1] := Grown(Build(def))]))
            && GetState(s2, path) == Ok(Grown(Build(def)))
            && forall other :: Diverge(Init(path), other) ==> GetState(s2, other) == GetState(w.state, other)
  {
    var path := Normalize(name);
    var w1 := Enter(w);
    RegisterBuilds(w.root, path, def);
    var t := Attach(w.root.value, Init(path), LastKey(path), Build(def));
    AttachPlaces(w.root.value, Init(path), LastKey(path), Build(def));
    assert Init(path) + [LastKey(path)] == path;
    assert Created(w1.root, Some(t), path, def) == Build(def);
    InstallStateLands(w1.(root := Some(t)), path, Build(def));
  }

  /** Dynamic registration of a leaf module without getters into a store
      whose root state is an object: the call completes, and the module's
      state is then the root state's property of that name. */
  lemma DynamicRegistration(w: World, key: string, def: Def)
    requires w.root.Some? && w.state.Obj?
    requires def.getters == [] && def.modules == []
    ensures RegisterModule(w, Name(key), def).Done?
    ensures GetState(RegisterModule(w, Name(key), def).val.state, [key]) == Ok(def.state)
  {
    var path := [key];
    var w1 := Enter(w);
    assert Init(path) == [];
    RegisterBuilds(w.root, path, def);
    var t := Attach(w.root.value, [], key, Build(def));
    AttachPlaces(w.root.value, [], key, Build(def));
    assert [] + [key] == path;
    assert Build(def) == Fresh(def);
    assert Created(w1.root, Some(t), path, def) == Build(def);
    NamespaceComposition(t, path);
    var w2 := w1.(root := Some(t));
    GraftThrows(w2, path, def.state);
    GraftLands(w2, path, def.state);
    var ns := Namespace(Some(t), path).value;
    var w3 := Graft(w2, path, def.state).val;
    assert DefineGetters(w3.getters, ns, path, []) == Done(w3.getters);
    assert Build(def).children == [];
    var w4 := w3.(mutations := AddMutations(w3.mutations, ns, path, def.mutations),
                  actions := AddActions(w3.actions, ns, def.actions));
    assert Install(w2, path, Build(def)) == InstallAll(w4, path, []);
  }

  // ---------------------------------------------------------------------
  // Strict mode over any sequence of calls

  /** A property assignment into `store.state` made by code outside the
      store, such as a component writing `store.state.a.b = v`: the same
      property write a graft performs. Assigning `store.state` itself
      throws, since the store defines only a getter for it
      (src/vuex/index.js:139-141); reading through `undefined` on the way,
      or assigning a property of a primitive, throws as well. A write that
      throws changes nothing and is not recorded. */
  function DirectWrite(w: World, path: seq<string>, x: Value): (r: Outcome<World>)
  {
    if path == [] then Threw(StateIsReadOnly, w)
    else
      match Graft(w, path, x)
      case Threw(f, _) => Threw(f, w)
      case Done(w1) => Done(w1.(trace := w.trace + [Assigned(path, w.committing)]))
  }

  /** An outside assignment completes exactly when the path is not empty and
      its parent resolves to an object; one that throws leaves the store as
      it was. */
  lemma DirectWriteThrows(w: World, path: seq<string>, x: Value)
    ensures DirectWrite(w, path, x).Done?
        <==> path != [] && GetState(w.state, Init(path)).Ok? && GetState(w.state, Init(path)).value.Obj?
    ensures DirectWrite(w, path, x).Threw? ==> DirectWrite(w, path, x).val == w
  {
    if path != [] {
      GraftThrows(w, path, x);
    }
  }

  /** A completed outside assignment: the path resolves to the assigned
      value, the parent keeps its other properties, every slice on a path
      diverging from the parent's is as it was, nothing but the state
      changes, and the trace records the assignment with the flag found. */
  lemma DirectWriteLands(w: World, path: seq<string>, x: Value)
    requires DirectWrite(w, path, x).Done?
    ensures path != []
    ensures var parent := GetState(w.state, Init(path)).value;
            var w2 := DirectWrite(w, path, x).val;
            && w2 == w.(state := w2.state, trace := w.trace + [Assigned(path, w.committing)])
            && GetState(w2.state, Init(path)) == Ok(Obj(parent.fields[path[|path| - 1] := x]))
            && GetState(w2.state, path) == Ok(x)
            && forall other :: Diverge(Init(path), other) ==> GetState(w2.state, other) == GetState(w.state, other)
  {
    GraftLands(w, path, x);
  }

  /** A call on a constructed store: one of its public methods, or an
      assignment into its state from outside. */
  datatype Op =
    | CommitOp(mutation: string, payload: Value)
    | DispatchOp(action: string, payload: Value)
    | ReplaceOp(state: Value)
    | SubscribeOp(sub: Fn)
    | RegisterOp(name: ModuleName, def: Def)
    | AssignOp(path: seq<string>, value: Value)

  function Apply(w: World, run: Runner, op: Op): (r: Outcome<World>)
  {
    match op
    case CommitOp(m, p) => Commit(w, run, m, p)
    case DispatchOp(a, p) => Dispatch(w, run, a, p)
    case ReplaceOp(s) => Done(ReplaceState(w, s))
    case SubscribeOp(f) => Done(Subscribe(w, f))
    case RegisterOp(n, d) => RegisterModule(w, n, d)
    case AssignOp(p, x) => DirectWrite(w, p, x)
  }

  /** The calls in order; a caller that catches a throw goes on with the
      store as the throw left it. */
  function ApplyAll(w: World, run: Runner, ops: seq<Op>): (r: World)
    decreases |ops|
  {
    if ops == [] then w else ApplyAll(Apply(w, run, ops[0]).val, run, ops[1..])
  }

  /** `a` is `b` with some of its elements left out, the rest in order. */
  ghost predicate Subsequence<T>(a: seq<T>, b: seq<T>)
    decreases |b|
  {
    a == [] || (b != [] && (Subsequence(a, b[1..]) || (a[0] == b[0] && Subsequence(a[1..], b[1..]))))
  }

  /** The paths of the outside assignments among `ops`, in order. */
  function OutsideWrites(ops: seq<Op>): (r: seq<seq<string>>)
    decreases |ops|
  {
    if ops == [] then []
    else (if ops[0].AssignOp? then [ops[0].path] else []) + OutsideWrites(ops[1..])
  }

  /** The paths of the outside assignments recorded in `t`, in order. */
  function Assignments(t: seq<Event>): (r: seq<seq<string>>)
    decreases |t|
  {
    if t == [] then []
    else (if t[0].Assigned? then [t[0].path] else []) + Assignments(t[1..])
  }

  /** From position `from` on, the watcher's condition fails exactly at the
      outside assignments made while no commit was in progress. */
  ghost predicate ReportsFrom(t: seq<Event>, from: nat)
  {
    forall i :: from <= i < |t| ==> (Unflagged(t[i]) <==> t[i].Assigned? && !t[i].committing)
  }

  lemma {:induction false} AssignmentsAppend(a: seq<Event>, b: seq<Event>)
    ensures Assignments(a + b) == Assignments(a) + Assignments(b)
    decreases |a|
  {
    if a == [] {
      assert a + b == b;
    } else {
      assert (a + b)[1..] == a[1..] + b;
      AssignmentsAppend(a[1..], b);
    }
  }

  lemma {:induction false} FlaggedNoAssignments(t: seq<Event>, from: nat)
    requires from <= |t| && FlaggedFrom(t, from)
    ensures Assignments(t[from..]) == []
    decreases |t| - from
  {
    if from < |t| {
      assert t[from..] == [t[from]] + t[from + 1..];
      AssignmentsAppend([t[from]], t[from + 1..]);
      FlaggedNoAssignments(t, from + 1);
    }
  }

  /** One call's effect on the trace: a public method records only flagged
      writes of its own, a completed outside assignment records itself with
      the flag it found, and one that throws records nothing. */
  lemma ApplyStep(w: World, run: Runner, op: Op)
    ensures w.trace <= Apply(w, run, op).val.trace
    ensures !op.AssignOp? ==> FlaggedFrom(Apply(w, run, op).val.trace, |w.trace|)
    ensures op.AssignOp? && Apply(w, run, op).Done? ==> Apply(w, run, op).val.trace == w.trace + [Assigned(op.path, w.committing)]
    ensures op.AssignOp? && Apply(w, run, op).Threw? ==> Apply(w, run, op).val == w
    ensures ReportsFrom(Apply(w, run, op).val.trace, |w.trace|)
  {
    match op {
      case CommitOp(m, p) => CommitFlag(w, run, m, p);
      case DispatchOp(a, p) => DispatchFlag(w, run, a, p);
      case ReplaceOp(st) => FlaggedAppend(w.trace, |w.trace|, [Replaced(true)]);
      case SubscribeOp(f) =>
      case RegisterOp(n, d) => RegisterModuleFlag(w, n, d);
      case AssignOp(p, x) => DirectWriteThrows(w, p, x);
    }
  }

  /** Strict mode over any sequence of calls, including ones that throw:
      the public methods never make a write the watcher's `_committing`
      check would report; the only writes it reports are outside
      assignments made while no commit is in progress; and the recorded
      outside assignments are among those attempted, in the order they were
      made (the ones that throw are not recorded). */
  lemma {:induction false} StrictModeHolds(w: World, run: Runner, ops: seq<Op>)
    ensures w.trace <= ApplyAll(w, run, ops).trace
    ensures ReportsFrom(ApplyAll(w, run, ops).trace, |w.trace|)
    ensures Subsequence(Assignments(ApplyAll(w, run, ops).trace[|w.trace|..]), OutsideWrites(ops))
    decreases |ops|
  {
    var t := ApplyAll(w, run, ops).trace;
    if ops == [] {
      assert t[|w.trace|..] == [];
    } else {
      var w1 := Apply(w, run, ops[0]).val;
      ApplyAssignments(w, run, ops[0]);
      StrictModeHolds(w1, run, ops[1..]);
      assert ApplyAll(w, run, ops) == ApplyAll(w1, run, ops[1..]);
      ReportsChain(w.trace, w1.trace, t);
      var rest := Assignments(t[|w1.trace|..]);
      assert OutsideWrites(ops) == (if ops[0].AssignOp? then [ops[0].path] else []) + OutsideWrites(ops[1..]);
      if ops[0].AssignOp? {
        SubsequenceCons(ops[0].path, Apply(w, run, ops[0]).Done?, rest, OutsideWrites(ops[1..]));
      } else {
        assert Assignments(t[|w.trace|..]) == [] + rest == rest;
        assert OutsideWrites(ops) == [] + OutsideWrites(ops[1..]) == OutsideWrites(ops[1..]);
      }
    }
  }

  /** The outside assignments one call records: its own path when it is a
      completed outside assignment, none otherwise. */
  lemma ApplyAssignments(w: World, run: Runner, op: Op)
    ensures w.trace <= Apply(w, run, op).val.trace
    ensures ReportsFrom(Apply(w, run, op).val.trace, |w.trace|)
    ensures Assignments(Apply(w, run, op).val.trace[|w.trace|..])
         == if op.AssignOp? && Apply(w, run, op).Done? then [op.path] else []
  {
    var w1 := Apply(w, run, op).val;
    ApplyStep(w, run, op);
    if op.AssignOp? && Apply(w, run, op).Done? {
      assert w1.trace[|w.trace|..] == [Assigned(op.path, w.committing)];
    } else if op.AssignOp? {
      assert w1.trace[|w.trace|..] == [];
    } else {
      FlaggedNoAssignments(w1.trace, |w.trace|);
    }
  }

  lemma SubsequenceCons<T>(e: T, kept: bool, a: seq<T>, b: seq<T>)
    requires Subsequence(a, b)
    ensures Subsequence((if kept then [e] else []) + a, [e] + b)
  {
    assert ([e] + b)[1..] == b;
    if kept {
      assert ([e] + a)[1..] == a;
    } else {
      assert [] + a == a;
    }
  }

  /** Two stretches of trace, one after the other: the watcher's condition
      and the recorded outside assignments of the whole are those of the two. */
  lemma ReportsChain(t0: seq<Event>, t1: seq<Event>, t2: seq<Event>)
    requires t0 <= t1 && t1 <= t2
    requires ReportsFrom(t1, |t0|) && ReportsFrom(t2, |t1|)
    ensures ReportsFrom(t2, |t0|)
    ensures Assignments(t2[|t0|..]) == Assignments(t1[|t0|..]) + Assignments(t2[|t1|..])
  {
    forall i | |t0| <= i < |t2|
      ensures Unflagged(t2[i]) <==> t2[i].Assigned? && !t2[i].committing
    {
      if i < |t1| {
        assert t2[i] == t1[i];
      }
    }
    assert t2[|t0|..] == t1[|t0|..] + t2[|t1|..];
    AssignmentsAppend(t1[|t0|..], t2[|t1|..]);
  }

  /** As written, a commit of an unknown type leaves the flag set, so the
      `_committing` check stops failing on outside assignments made
      afterwards. */
  lemma StuckFlagMasksDirectWrites(w: World, run: Runner, name: string, payload: Value, path: seq<string>, x: Value)
    requires !w.committing && name !in w.mutations
    requires path != [] && GetState(w.state, Init(path)).Ok? && GetState(w.state, Init(path)).value.Obj?
    ensures DirectWrite(w, path, x).Done? && Unflagged(DirectWrite(w, path, x).val.trace[|w.trace|])
    ensures var w1 := Commit(w, run, name, payload).val;
            DirectWrite(w1, path, x).Done? && !Unflagged(DirectWrite(w1, path, x).val.trace[|w1.trace|])
  {
    UnknownMutationLeavesFlagSet(w, run, name, payload);
    DirectWriteThrows(w, path, x);
    DirectWriteThrows(Commit(w, run, name, payload).val, path, x);
  }
}
