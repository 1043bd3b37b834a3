/** `ModuleCollections` (src/vuex/index.js:9-36): the object that owns the
    record tree. `register` reassigns the tree in place of the source's
    updates to `this.root` and to a parent's `_children`. */
module Collections {
  import opened Outcomes
  import opened ModuleTree

  class ModuleCollections {
    var root: Option<Record>

    /** `new ModuleCollections(options)`: registers the options as the root,
        which makes the root the options' whole record tree. */
    constructor (options: Def)
      ensures root == Some(Build(options))
    {
      root := None;
      new;
      var fault := Register([], options);
      RegisterBuilds(None, [], options);
    }

    /** `register(path, def)`: the new record becomes the root, or replaces
        the child `path[last]` of the record at `path[:-1]`; then every
        module of the definition is registered below it, in key order. */
    method Register(path: seq<string>, def: Def) returns (fault: Option<Fault>)
      modifies this
      ensures Of(root, fault) == ModuleTree.Register(old(root), path, def)
      decreases def
    {
      if root.None? {
        root := Some(Fresh(def));
      } else {
        var parent := Init(path);
        if Lookup(root.value, parent).None? {
          return Some(MissingModule);
        }
        root := Some(Attach(root.value, parent, LastKey(path), Fresh(def)));
      }
      var i := 0;
      while i < |def.modules|
        invariant 0 <= i <= |def.modules|
        invariant ModuleTree.Register(old(root), path, def) == RegisterAll(root, path, def.modules[i..])
      {
        var name, child := def.modules[i].0, def.modules[i].1;
        assert child < def.modules[i];
        assert def.modules[i..][0] == def.modules[i] && def.modules[i..][1..] == def.modules[i + 1..];
        fault := Register(path + [name], child);
        if fault.Some? {
          return;
        }
        i := i + 1;
      }
      fault := None;
    }
  }
}
