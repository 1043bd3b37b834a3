# A verified model of a small Vuex-style store

This project models the store engine in `src/vuex/index.js`, a compact
reimplementation of Vuex. The engine has four parts:

- **`ModuleCollections`** turns the nested `modules` of the store options into a
  tree of module records (`{_raw, _children, state}`). The `Collections` module
  models it as a class whose `root` field `register` reassigns. `ModuleTree`
  holds its value-level specification.
- **`installModule`** walks the record tree. For each module it:
  - computes the namespace from the `namespaced` flags along the path;
  - grafts the module's state into the root state with `Vue.set`;
  - defines each getter as an accessor named `namespace + name`;
  - appends the mutation and action handlers to the store's tables;
  - recurses into the children.

  It is the `Installer` module.
- **`Store`** is the public interface: `commit`, `dispatch`, `subscribe`,
  `replaceState`, `registerModule` and `store.getters[name]`. Its `_withCommit`
  wrapper sets and restores the `_committing` flag. The class `Vuex.Store`
  keeps the source's fields and updates them in place. Each of its methods is
  proved equal to a function on a `World` snapshot of those fields: the
  install methods to the functions of `Installer`, the others to those of
  `StoreSpec`.
- **Strict mode** is a deep watcher that is meant to assert `_committing`
  whenever the state changes. The model replaces it with a trace of events.
  Every write to the state tree is recorded with the value the flag had at
  that moment. `Installer.Unflagged` marks the writes at which that intended
  `_committing` check fails. Outside assignments into the state are a call
  of their own (`StoreSpec.AssignOp`), so the model can say which writes the
  check would catch. Such an assignment (`StoreSpec.DirectWrite`) sets one
  property of an object slice. Assigning `store.state` itself throws, since
  the store defines only a getter for it. Assigning through `undefined`, or a
  property of a primitive, throws as well, and a write that throws records
  nothing.

User code is opaque:

- Getters, mutations, actions and subscribers are identified closures (`Fn`).
- A store is given two functions:
  - `run` gives mutation bodies their meaning: it maps old slice properties and a payload to new ones.
  - `read` gives getter bodies their meaning.
- An action body is the list of mutation types it commits with its payload.

JavaScript exceptions are modelled:

- Every operation that can throw returns `Outcome<T>`, which is either `Done(value)` or
  `Threw(fault, partial)`. `partial` is the state as the throw left it, so
  "what is left half-done" is part of every contract.
- The `Fixture` module replays the example store of `src/store/index.js`:
  - the record tree it builds;
  - the namespaces of its modules;
  - that it boots, and where the deepest state lands;
  - the state `store.state.b.c.d.e` after construction;
  - under which qualified types its mutations are reachable.

Where the behaviour the module is documented to have and the code differ, the model follows the code:

- A second `register` at the empty path does not fail. JavaScript reads
  `path[-1]` as `undefined`, so the record is attached under the key
  `"undefined"` (`ModuleTree.LastKey`). Its children are registered under the root.
- The namespace walk reads `_raw` of a missing child and therefore throws
  (`Fault.MissingModule`). Registering below a missing parent throws the same way.
- `_withCommit` has no `finally`. A commit that throws leaves `_committing`
  set (`StoreSpec.UnknownMutationLeavesFlagSet`). From then on the
  `_committing` check no longer fails on outside assignments
  (`StoreSpec.StuckFlagMasksDirectWrites`).
- Committing or dispatching an unknown type throws a `TypeError`, because
  `undefined.forEach` is called. The model calls these `UnknownMutation` and
  `UnknownAction`. The commit throws inside `_withCommit`. The dispatch does
  not touch the flag.
- A getter is defined with `Object.defineProperty` and no `configurable`, so
  defining the same qualified getter twice throws.

## Model

| member | source | states |
|---|---|---|
| JsValues.GetStateSnoc | src/vuex/index.js:38-43 | resolving `path + [key]` is resolving `path` and then reading `key`; a read of `undefined` throws and stays thrown |
| JsValues.ReadAfterWrite | src/vuex/index.js:53-58 | after writing `x` at a path that resolves to an object, the path resolves to exactly `x` |
| JsValues.WriteKeepsOthers | src/vuex/index.js:53-58 | a write at one path leaves every slice on a diverging path unchanged |
| JsValues.SetAtTwice | src/vuex/index.js:53-58 | writing at a path twice keeps only the second write |
| JsValues.Regraft | src/vuex/index.js:53-58 | setting the same property of a parent slice twice keeps only the second value |
| Vuex.Resolve | src/vuex/index.js:38-43 | the property-by-property loop returns the specification walk `GetState`, including the throw on `undefined` |
| ModuleTree.FindPut | src/vuex/index.js:27 | after `children[key] = r`, `key` reads `r` and every other key reads what it read before |
| ModuleTree.PutKeepsOrder | src/vuex/index.js:27 | assigning an existing key keeps the key order; a new key is enumerated last |
| ModuleTree.PutPut | src/vuex/index.js:27 | assigning the same key twice is assigning it once, to the second record |
| ModuleTree.AttachPlaces | src/vuex/index.js:23-27 | a record attached below an existing parent is reachable at `parent + [key]` |
| ModuleTree.AttachKeepsOthers | src/vuex/index.js:23-27 | attaching changes nothing reachable by a path that diverges from the attached one |
| ModuleTree.AttachChild | src/vuex/index.js:23-32 | attaching below a just-attached record is attaching that record with the child already in place |
| ModuleTree.RegisterBuilds | src/vuex/index.js:14-35 | the first `register` makes the whole record tree of the definition the root; a later one with an existing parent attaches that tree under `path[last]`, replacing any record there |
| ModuleTree.RegisterMissingParent | src/vuex/index.js:24-26 | registering below a missing parent throws and leaves the tree unchanged |
| ModuleTree.BuildWellFormed | src/vuex/index.js:27-32 | every `_children` object of a definition's record tree has each key once, at every level |
| ModuleTree.BuildMirrors | src/vuex/index.js:14-35 | the record tree mirrors the definition tree: a path reaches a record exactly when it reaches a definition, and the record holds that definition and its state |
| ModuleTree.NamespaceComposition | src/vuex/index.js:46-51 | the namespace fold equals the reference concatenation of the segments added by namespaced modules along the path, and throws exactly when some segment names no module |
| ModuleTree.RootFlagIgnored | src/vuex/index.js:46-51 | the root's own `namespaced` flag never affects a namespace |
| Vuex.Qualify | src/vuex/index.js:46-51 | the reduce loop returns the specification fold `Namespace`, including the throw |
| Collections.ModuleCollections.constructor | src/vuex/index.js:10-12 | a new collection's root is the whole record tree of the options |
| Collections.ModuleCollections.Register | src/vuex/index.js:14-35 | the new root, or the thrown fault and the tree as the throw left it, are those of `ModuleTree.Register` on the old root |
| Installer.AddMutationsAppends | src/vuex/index.js:70-83 | the mutation table only grows: each key's list is the old list followed by this module's handlers for the key, in declaration order; a key is present exactly when it was before or this module adds to it |
| Installer.AddActionsAppends | src/vuex/index.js:85-95 | the same append-only law for the action table |
| Installer.DefineGettersOnce | src/vuex/index.js:59-68 | defining a qualified getter name that already exists throws; a completed loop keeps old getters and maps each new qualified name to its getter over the module's path, and adds no other name |
| Installer.GraftThrows | src/vuex/index.js:53-58 | a graft completes exactly when the parent path resolves to an object |
| Installer.GraftLands | src/vuex/index.js:53-58 | a completed graft makes the module path resolve to the module's state, keeps the parent's other properties and leaves diverging slices unchanged |
| Installer.InstallGrows | src/vuex/index.js:45-100 | installing, completed or not, keeps the module tree, the subscribers, the flag, every old getter, and every old handler list as a prefix; it records only grafts, made under the flag it found |
| Installer.InstallLands | src/vuex/index.js:59-95 | after a completed install, every mutation, action and getter of the module is registered under its name qualified by the module's namespace |
| Installer.InstallTables | src/vuex/index.js:70-99 | after a completed install, the list under every key is the old list followed by the handlers the installed subtree contributes to that key, modules in pre-order and children in key order, and nothing else; a key is present exactly when it was before or the subtree adds to it; the same for actions |
| Installer.SiblingsCollide | src/vuex/index.js:70-83 | two sibling modules in one namespace that define the same mutation both run under the shared type, the first sibling's handler first |
| Installer.InstallCovers | src/vuex/index.js:97-99 | a completed install reaches the whole subtree: the module at every path below is installed under the namespace of its full path |
| Installer.InstallState | src/vuex/index.js:45-100 | the state after a completed install: at the root, the old state with every child's grown state set under its key; below the root, the old state with the record's grown state (`Installer.Grown`: its own state with each child's grown state under the child's key, in key order) grafted at the path |
| Installer.InstallStateLands | src/vuex/index.js:53-58 | after a completed install below the root, the path resolves to the record's grown state, the parent keeps its other properties, and every slice on a path diverging from the parent's is unchanged |
| Installer.InstallSound | src/vuex/index.js:53-58 | a completed install grafted every child into an object: each installed record that has children has an object state |
| Installer.GrownLookup | src/vuex/index.js:45-100 | in a well-formed, sound record tree, every path that reaches a record resolves in the grown state to that record's grown state |
| StoreSpec.BootInstallsAll | src/vuex/index.js:103-118 | after construction completes, every module definition of the options is installed under the namespace that its path determines |
| StoreSpec.BootState | src/vuex/index.js:103-118 | after construction completes, the store's state is the options' record tree grown, and that tree is sound |
| StoreSpec.BootStateAt | src/vuex/index.js:103-118 | after construction completes, every path that reaches a module definition resolves to that definition's grown state |
| StoreSpec.BootTables | src/vuex/index.js:103-118 | after construction, the list under every key holds exactly the handlers the options tree contributes to that key, in registration order; the same for actions |
| Vuex.Store.constructor | src/vuex/index.js:103-117 | a new store has the options' state and record tree, empty tables, no subscribers, the flag clear and an empty trace |
| Vuex.Store.Create | src/vuex/index.js:103-118 | constructing a store yields the state of `Boot(options)`, or its fault together with the store as the throw left it |
| Vuex.Store.InstallModule | src/vuex/index.js:45-100 | the in-place install changes the store exactly as `Installer.Install` says |
| Vuex.Store.Graft | src/vuex/index.js:53-58 | the in-place graft changes the store exactly as `Installer.Graft` says |
| Vuex.Store.DefineGetters | src/vuex/index.js:59-68 | the getter loop changes only the getters, as `Installer.DefineGetters` says |
| Vuex.Store.AddMutations | src/vuex/index.js:70-83 | the mutation loop changes only the mutation table, as `Installer.AddMutations` says |
| Vuex.Store.AddActions | src/vuex/index.js:85-95 | the action loop changes only the action table, as `Installer.AddActions` says |
| Vuex.Store.InstallChildren | src/vuex/index.js:97-99 | the loop over the children changes the store as `Installer.InstallAll` says |
| StoreSpec.CommitFanOut | src/vuex/index.js:160-166 | a completed commit had handlers for its type and ran every one in registration order, each followed by one notification per subscriber in subscription order; it changed nothing but state and trace, and restored the flag |
| StoreSpec.CommitFlag | src/vuex/index.js:147-152 | every write a commit makes is flagged; the flag is restored when the commit completes and stays set when it throws |
| StoreSpec.UnknownMutationLeavesFlagSet | src/vuex/index.js:160-166 | committing a type with no handlers throws, and the only change to the store is that the flag is left set |
| StoreSpec.CommitWritesSlice | src/vuex/index.js:76-81 | with one handler over an object slice, a commit writes the mutated slice at the module's path, records the mutation flagged, and notifies every subscriber with the new root state |
| StoreSpec.GetterAfterCommit | src/vuex/index.js:62-66 | after such a commit, a getter over the mutated module reads the new slice |
| StoreSpec.DispatchFlag | src/vuex/index.js:168-172 | dispatching an unknown type throws and leaves the store unchanged; a completed dispatch ends with the flag it found; every write its commits make is flagged |
| StoreSpec.DispatchFanOut | src/vuex/index.js:168-172 | a completed dispatch had actions for its type and ran every one in registration order, each recorded and followed by the fan-out of each commit it makes, in order; it changed nothing but state and trace, and ended with the flag it found |
| StoreSpec.ActionCommitsTwice | src/vuex/index.js:91-93 | an action that commits a single-handler mutation twice records the action, then mutation, notification, mutation, notification, with both mutations flagged and the flag clear afterwards |
| StoreSpec.RegisterModuleFlag | src/vuex/index.js:174-182 | every graft `registerModule` makes is flagged; a completed call restores the flag and one that throws leaves it set |
| StoreSpec.RegisterModuleMissingParent | src/vuex/index.js:174-182 | registering below a missing parent throws, and the only change is that the flag is left set |
| StoreSpec.RegisterModuleLands | src/vuex/index.js:174-182 | a completed registration below an existing module attaches the definition's record tree at the path, and installs its mutations, actions and getters under the namespace of that path |
| StoreSpec.RegisterModuleState | src/vuex/index.js:174-182 | a completed registration below an existing module makes the path resolve to the definition's grown state, keeps the parent's other properties, and leaves every slice on a path diverging from the parent's unchanged |
| StoreSpec.DynamicRegistration | src/vuex/index.js:174-182 | a leaf module without getters, registered by name into a store whose state is an object, registers completely, and its state becomes the root state's property of that name |
| StoreSpec.DirectWriteThrows | src/vuex/index.js:139-141 | an outside assignment completes exactly when its path is not empty and the parent path resolves to an object; one that throws leaves the store unchanged |
| StoreSpec.DirectWriteLands | src/vuex/index.js:139-141 | a completed outside assignment makes the path resolve to the assigned value, keeps the parent's other properties and every slice on a path diverging from the parent's, changes nothing but state and trace, and records itself with the flag it found |
| StoreSpec.StrictModeHolds | src/vuex/index.js:126-136 | over any sequence of public calls and outside assignments, including calls that throw, the `_committing` check fails exactly at the outside assignments made with the flag clear, never at a write of the store's own; the recorded outside assignments are among those attempted, in the order they were made |
| StoreSpec.StuckFlagMasksDirectWrites | src/vuex/index.js:147-152 | an outside assignment into an object slice completes either way, and the `_committing` check fails on it when it is made before an unknown-type commit and not when it is made after, because the flag stays set |
| Vuex.Store.Subscribe | src/vuex/index.js:143-145 | the subscriber is appended and nothing else changes |
| Vuex.Store.ReplaceState | src/vuex/index.js:154-158 | the state is replaced by a flagged write, and the flag is restored |
| Vuex.Store.InvokeMutation | src/vuex/index.js:76-81 | the in-place handler (mutate the slice, then notify each subscriber) changes the store as `StoreSpec.Invoke` says |
| Vuex.Store.Notify | src/vuex/index.js:78-80 | the subscriber loop appends one notification per subscriber, in subscription order, each carrying the current root state, and changes nothing else |
| Vuex.Store.RunHandlers | src/vuex/index.js:162-164 | the handler loop changes the store, or stops at the first throw, as `StoreSpec.RunMutations` says |
| Vuex.Store.Commit | src/vuex/index.js:160-166 | the in-place commit changes the store, or throws leaving it, as `StoreSpec.Commit` says |
| Vuex.Store.RunAction | src/vuex/index.js:91-93 | an action handler changes the store as `StoreSpec.RunAction` says |
| Vuex.Store.Dispatch | src/vuex/index.js:168-172 | the in-place dispatch changes the store, or throws leaving it, as `StoreSpec.Dispatch` says |
| Vuex.Store.RegisterModule | src/vuex/index.js:174-182 | the in-place registration changes the store and its module collection as `StoreSpec.RegisterModule` says |
| Vuex.Store.Getter | src/vuex/index.js:62-66 | reading a getter gives `undefined` for an unknown name, and otherwise the user's getter over the slice resolved now |
| Fixture.ExampleTree | src/store/index.js:30-115 | the example options build the record tree root → a, b → c → d → e |
| Fixture.ExampleNamespaces | src/store/index.js:64-114 | the example namespaces are "", "a/", "b/" and "b/c/", with `d` and `e` sharing the namespace of `c`; a path through a missing module throws |
| Fixture.ExampleBoots | src/store/index.js:30-115 | the example store boots, and the state of `e` ends up at `state.b.c.d.e` |
| Fixture.ExampleRootTables | src/store/index.js:40-58 | the root's `addNum` is reachable as "addNum" with a handler for the root path, and the getter `title` reads the root state |
| Fixture.ExampleTypeA | src/store/index.js:65-75 | module `a`'s `addNum` is reachable as "a/addNum" |
| Fixture.ExampleTypeB | src/store/index.js:76-85 | module `b`'s `addNum` is reachable as "b/addNum" |
| Fixture.ExampleTypeC | src/store/index.js:87-96 | module `c`, nested in `b`, has its `addNum` reachable as "b/c/addNum" |
| Fixture.ExampleDeepState | src/store/index.js:97-109 | after the example store boots, `store.state.b.c.d.e` is `{age: "e100"}` |
| Fixture.ExampleRegisterM | src/store/index.js:116-120 | registering module `m` on the booted example store completes, and `m`'s state is at `state.m` |

## Left out

- Vue reactivity and object identity are not modelled. State is a value tree,
  not shared references. A handler re-resolves its slice on every call, so
  slice reads and writes are the same as in the source. Aliasing between
  `record.state` and the grafted slice is not modelled.
- The deep watcher, `console.assert` and `this.vm.$watch` are replaced by the
  event trace and `Installer.Unflagged`. The model checks the condition the
  watcher is meant to check, not the one it checks as written.
  - The callback is a plain `function`, not an arrow function. Vue calls it
    with the Vue instance as `this`, so it reads the instance's
    `_committing`, which is `undefined`. As written, the assertion therefore
    fails on every observed change, inside a commit or not.
  - The watcher is created after `installModule` has run, so the grafts of
    construction are never observed. The model records them, unflagged,
    because the flag is clear during construction.
- The `strict` option is not stored. The watcher's verdict is available in
  every store whatever the option says.
- Plugins are not modelled. This includes the fact that construction throws
  when `options.plugins` is absent, because `undefined.forEach` is called.
- The `install` mixin (`$store` injection) and the helpers `mapState`,
  `mapGetters`, `mapMutations` and `mapActions` are left out. They are
  component-side conveniences that only forward to the store.
- User mutation, getter and subscriber bodies are opaque. The model assumes
  they do not throw and do not call back into the store.
  - A mutation sees only its own slice's properties.
  - A mutation of a slice that is not an object leaves the state unchanged.
- Action bodies are modelled as a list of commits with the dispatched payload.
  Asynchronous actions, nested dispatches and other effects are not modelled.
- Numbers are integers, there are no arrays and no `null`, and string indexing
  and prototype properties read as `undefined`. In JavaScript reading a
  property of `null` throws like reading one of `undefined`; with no `null`
  value, the model has no such case.
- Installer.AddMutations: treats every name not yet added as absent. The
  table is a plain object, so a mutation named after an inherited property
  such as `constructor` finds `Object` there and `.push` throws
  (src/vuex/index.js:73-76). `Installer.AddActions` (src/vuex/index.js:88-91)
  and `commit` or `dispatch` of such a name are modelled the same way.
- StoreSpec.DirectWrite: records every completed outside assignment. Vue 2's
  reactive setters do not see a property added by plain assignment, nor an
  assignment of the value already there, so a deep watcher would not be
  triggered by those writes.
- Object key order is insertion order. The JavaScript rule that lists
  integer-like keys first is not modelled.
- `rootModule.rawModule` is not a mutable property of the definition. The
  record that `register` created is recomputed from the tree (`StoreSpec.Created`).
- Vuex.Store.constructor: does not run the installation, because a
  constructor cannot report a throw. `Vuex.Store.Create` is the full
  `new Store(options)`.
