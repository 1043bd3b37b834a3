/** Module definitions, the record tree that `ModuleCollections.register`
    builds from them (src/vuex/index.js:14-35), and the namespace fold of
    `installModule` (src/vuex/index.js:46-51).

    A record's `_children` is a JavaScript object: its keys enumerate in
    insertion order and assigning to an existing key keeps that key's place.
    The children are therefore kept as an association list. */
module ModuleTree {
  import opened Outcomes
  import opened JsValues

  /** A user-supplied closure (getter, mutation, action or subscriber),
      known only by its identity. */
  datatype Fn = Fn(id: string)

  /** An action body: the mutation types it commits, in order, each with the
      payload it was dispatched with. */
  datatype Action = Action(body: Fn, commits: seq<string>)

  /** A module definition literal. Absent `getters`, `mutations`, `actions`
      and `modules` are empty lists; the lists are in key order. */
  datatype Def = Def(
    namespaced: bool,
    state: Value,
    getters: seq<(string, Fn)>,
    mutations: seq<(string, Fn)>,
    actions: seq<(string, Action)>,
    modules: seq<(string, Def)>)

  /** A module record `{_raw, _children, state}`. */
  datatype Record = Record(raw: Def, children: seq<(string, Record)>, state: Value)

  /** `children[key]`, or None when the key is absent. */
  function Find(kids: seq<(string, Record)>, key: string): (r: Option<Record>)
    decreases |kids|
  {
    if kids == [] then None
    else if kids[0].0 == key then Some(kids[0].1)
    else Find(kids[1..], key)
  }

  /** `children[key] = r`: overwrite in place, or append a new key. */
  function Put(kids: seq<(string, Record)>, key: string, r: Record): (res: seq<(string, Record)>)
    decreases |kids|
  {
    if kids == [] then [(key, r)]
    else if kids[0].0 == key then [(key, r)] + kids[1..]
    else [kids[0]] + Put(kids[1..], key, r)
  }

  /** `Object.keys(children)`. */
  function Keys(kids: seq<(string, Record)>): (r: seq<string>)
    decreases |kids|
  {
    if kids == [] then [] else [kids[0].0] + Keys(kids[1..])
  }

  /** The record reached from `t` through `_children` along `path`. */
  function Lookup(t: Record, path: seq<string>): (r: Option<Record>)
    decreases |path|
  {
    if path == [] then Some(t)
    else
      match Find(t.children, path[0])
      case None => None
      case Some(c) => Lookup(c, path[1..])
  }

  /** `path.slice(0, -1)`. */
  function Init(path: seq<string>): (r: seq<string>)
  {
    if path == [] then [] else path[..|path| - 1]
  }

  /** `path[path.length - 1]` used as a property key: on an empty path it is
      `undefined`, which JavaScript turns into the key "undefined". */
  function LastKey(path: seq<string>): (r: string)
  {
    if path == [] then "undefined" else path[|path| - 1]
  }

  /** The tree `t` with `r` stored under `key` in the children of the record
      at `parent`; `t` itself when there is no record at `parent`. */
  function Attach(t: Record, parent: seq<string>, key: string, r: Record): (res: Record)
    decreases |parent|
  {
    if parent == [] then t.(children := Put(t.children, key, r))
    else
      match Find(t.children, parent[0])
      case None => t
      case Some(c) => t.(children := Put(t.children, parent[0], Attach(c, parent[1..], key, r)))
  }

  /** The record `register` creates for a definition, before its children. */
  function Fresh(def: Def): (r: Record)
  {
    Record(def, [], def.state)
  }

  /** `register(path, def)` on a collection whose root is `root`
      (src/vuex/index.js:14-35): the first call makes the new record the
      root, later ones attach it under `path[last]` of the record at
      `path[:-1]`, and the definition's modules are registered in key order
      below it. Walking through a missing record throws. */
  function Register(root: Option<Record>, path: seq<string>, def: Def): (r: Outcome<Option<Record>>)
    decreases def, 1
  {
    if root.None? then RegisterAll(Some(Fresh(def)), path, def.modules)
    else if Lookup(root.value, Init(path)).None? then Threw(MissingModule, root)
    else RegisterAll(Some(Attach(root.value, Init(path), LastKey(path), Fresh(def))), path, def.modules)
  }

  /** The `forEachValue(def.modules, ...)` loop of `register`, from the
      first module on; a throw stops it. */
  function RegisterAll(root: Option<Record>, path: seq<string>, mods: seq<(string, Def)>): (r: Outcome<Option<Record>>)
    decreases mods, 0
  {
    if mods == [] then Done(root)
    else
      var first := mods[0];
      assert first.1 < first;
      match Register(root, path + [first.0], first.1)
      case Threw(f, r) => Threw(f, r)
      case Done(r) => RegisterAll(r, path, mods[1..])
  }

  /** The record tree a definition stands for: one record per definition,
      holding the definition and its state, with its modules as children. */
  function Build(def: Def): (r: Record)
    decreases def, 1
  {
    Record(def, Adopt([], def.modules), def.state)
  }

  /** `kids` with the record tree of every definition in `mods` stored, in order. */
  function Adopt(kids: seq<(string, Record)>, mods: seq<(string, Def)>): (r: seq<(string, Record)>)
    decreases mods, 0
  {
    if mods == [] then kids
    else
      var first := mods[0];
      assert first.1 < first;
      Adopt(Put(kids, first.0, Build(first.1)), mods[1..])
  }

  /** The definition stored last under `key` in a `modules` list. */
  function FindDef(mods: seq<(string, Def)>, key: string): (r: Option<Def>)
    decreases |mods|
  {
    if mods == [] then None
    else
      match FindDef(mods[1..], key)
      case Some(d) => Some(d)
      case None => if mods[0].0 == key then Some(mods[0].1) else None
  }

  /** The definition reached from `def` through `modules` along `path`. */
  function DefAt(def: Def, path: seq<string>): (r: Option<Def>)
    decreases |path|
  {
    if path == [] then Some(def)
    else
      match FindDef(def.modules, path[0])
      case None => None
      case Some(d) => DefAt(d, path[1..])
  }

  /** The namespace fold of `installModule` (src/vuex/index.js:46-51): walk
      `path` from `node`, appending `segment + "/"` whenever the record just
      descended into is namespaced. Descending into a missing record throws
      when its `_raw` is read. */
  function Namespace(node: Option<Record>, path: seq<string>): (r: Result<string>)
    decreases |path|
  {
    if path == [] then Ok("")
    else
      var child := if node.None? then None else Find(node.value.children, path[0]);
      match child
      case None => Err(MissingModule)
      case Some(c) =>
        match Namespace(Some(c), path[1..])
        case Err(f) => Err(f)
        case Ok(rest) => Ok((if c.raw.namespaced then path[0] + "/" else "") + rest)
  }

  /** What the module at the end of `path` adds to a namespace. */
  function Segment(m: Option<Record>, key: string): (r: string)
  {
    if m.Some? && m.value.raw.namespaced then key + "/" else ""
  }

  /** Reference definition of a namespace: the concatenation, over the
      non-empty prefixes of `path` from the shortest, of what the module
      reached by each prefix adds. */
  function Qualifier(root: Record, path: seq<string>): (r: string)
    decreases |path|
  {
    if path == [] then ""
    else Qualifier(root, Init(path)) + Segment(Lookup(root, path), LastKey(path))
  }

  // ---------------------------------------------------------------------
  // Children as a JavaScript object

  lemma {:induction false} FindPut(kids: seq<(string, Record)>, key: string, r: Record, other: string)
    ensures Find(Put(kids, key, r), other) == if other == key then Some(r) else Find(kids, other)
    decreases |kids|
  {
    if kids != [] && kids[0].0 != key {
      FindPut(kids[1..], key, r, other);
    }
  }

  /** Assigning an existing key keeps the enumeration order; a new key goes last. */
  lemma {:induction false} PutKeepsOrder(kids: seq<(string, Record)>, key: string, r: Record)
    ensures Keys(Put(kids, key, r)) == if key in Keys(kids) then Keys(kids) else Keys(kids) + [key]
    decreases |kids|
  {
    if kids != [] && kids[0].0 != key {
      PutKeepsOrder(kids[1..], key, r);
      assert Put(kids, key, r)[1..] == Put(kids[1..], key, r);
    }
  }

  lemma {:induction false} PutPut(kids: seq<(string, Record)>, key: string, a: Record, b: Record)
    ensures Put(Put(kids, key, a), key, b) == Put(kids, key, b)
    decreases |kids|
  {
    if kids != [] && kids[0].0 != key {
      PutPut(kids[1..], key, a, b);
      assert Put(kids, key, a)[1..] == Put(kids[1..], key, a);
    }
  }

  /** No key occurs twice. */
  predicate Distinct(ks: seq<string>)
  {
    forall i, j :: 0 <= i < j < |ks| ==> ks[i] != ks[j]
  }

  /** A record tree whose every `_children` object has each key once, as a
      JavaScript object does. */
  ghost predicate WellFormed(t: Record)
    decreases t
  {
    Distinct(Keys(t.children)) && forall e | e in t.children :: WellFormed(e.1)
  }

  lemma DistinctTail(kids: seq<(string, Record)>)
    requires kids != [] && Distinct(Keys(kids))
    ensures kids[0].0 !in Keys(kids[1..]) && Distinct(Keys(kids[1..]))
  {
    var ks := Keys(kids);
    assert ks == [kids[0].0] + Keys(kids[1..]);
    forall j | 0 <= j < |Keys(kids[1..])|
      ensures Keys(kids[1..])[j] != kids[0].0
    {
      assert ks[j + 1] != ks[0];
    }
    forall i, j | 0 <= i < j < |Keys(kids[1..])|
      ensures Keys(kids[1..])[i] != Keys(kids[1..])[j]
    {
      assert ks[i + 1] != ks[j + 1];
    }
  }

  /** The child found under a key is stored under that key. */
  lemma {:induction false} FindIn(kids: seq<(string, Record)>, key: string)
    requires Find(kids, key).Some?
    ensures (key, Find(kids, key).value) in kids
    decreases |kids|
  {
    if kids[0].0 != key {
      FindIn(kids[1..], key);
    }
  }

  /** Every entry after `children[key] = r` is an old entry or the new one. */
  lemma {:induction false} PutMembers(kids: seq<(string, Record)>, key: string, r: Record)
    ensures forall e | e in Put(kids, key, r) :: e in kids || e == (key, r)
    decreases |kids|
  {
    if kids != [] && kids[0].0 != key {
      PutMembers(kids[1..], key, r);
    }
  }

  lemma PutDistinct(kids: seq<(string, Record)>, key: string, r: Record)
    requires Distinct(Keys(kids))
    ensures Distinct(Keys(Put(kids, key, r)))
  {
    PutKeepsOrder(kids, key, r);
  }

  /** The record tree of a definition is well formed, at every level. */
  lemma {:induction false} BuildWellFormed(def: Def)
    ensures WellFormed(Build(def))
    decreases def, 1
  {
    AdoptWellFormed([], def.modules);
  }

  lemma {:induction false} AdoptWellFormed(kids: seq<(string, Record)>, mods: seq<(string, Def)>)
    requires Distinct(Keys(kids)) && forall e | e in kids :: WellFormed(e.1)
    ensures Distinct(Keys(Adopt(kids, mods))) && forall e | e in Adopt(kids, mods) :: WellFormed(e.1)
    decreases mods, 0
  {
    if mods != [] {
      var first := mods[0];
      assert first.1 < first;
      BuildWellFormed(first.1);
      PutDistinct(kids, first.0, Build(first.1));
      PutMembers(kids, first.0, Build(first.1));
      AdoptWellFormed(Put(kids, first.0, Build(first.1)), mods[1..]);
    }
  }

  // ---------------------------------------------------------------------
  // Tree shape after attaching a record

  /** The attached record is reachable by exactly its path. */
  lemma {:induction false} AttachPlaces(t: Record, parent: seq<string>, key: string, r: Record)
    requires Lookup(t, parent).Some?
    ensures Lookup(Attach(t, parent, key, r), parent + [key]) == Some(r)
    decreases |parent|
  {
    var path := parent + [key];
    if parent == [] {
      FindPut(t.children, key, r, key);
      assert path == [key];
    } else {
      var c := Find(t.children, parent[0]).value;
      FindPut(t.children, parent[0], Attach(c, parent[1..], key, r), parent[0]);
      assert path[0] == parent[0] && path[1..] == parent[1..] + [key];
      AttachPlaces(c, parent[1..], key, r);
    }
  }

  /** Attaching changes nothing reachable by a path that diverges from the
      attached record's path. */
  lemma {:induction false} AttachKeepsOthers(t: Record, parent: seq<string>, key: string, r: Record, other: seq<string>)
    requires Diverge(parent + [key], other)
    ensures Lookup(Attach(t, parent, key, r), other) == Lookup(t, other)
    decreases |parent|
  {
    var path := parent + [key];
    if parent == [] {
      assert path == [key];
      FindPut(t.children, key, r, other[0]);
    } else {
      assert path[0] == parent[0] && path[1..] == parent[1..] + [key];
      match Find(t.children, parent[0])
      case None =>
      case Some(c) =>
        FindPut(t.children, parent[0], Attach(c, parent[1..], key, r), other[0]);
        if other[0] == parent[0] {
          AttachKeepsOthers(c, parent[1..], key, r, other[1..]);
        }
    }
  }

  /** Attaching below a just-attached record is attaching that record with
      the extra child in place. */
  lemma {:induction false} AttachChild(t: Record, parent: seq<string>, key: string, x: Record, name: string, b: Record)
    requires Lookup(t, parent).Some?
    ensures Attach(Attach(t, parent, key, x), parent + [key], name, b)
         == Attach(t, parent, key, x.(children := Put(x.children, name, b)))
    decreases |parent|
  {
    var path := parent + [key];
    var x' := x.(children := Put(x.children, name, b));
    if parent == [] {
      assert path == [key];
      FindPut(t.children, key, x, key);
      PutPut(t.children, key, x, x');
    } else {
      assert path[0] == parent[0] && path[1..] == parent[1..] + [key];
      var c := Find(t.children, parent[0]).value;
      var a := Attach(c, parent[1..], key, x);
      FindPut(t.children, parent[0], a, parent[0]);
      AttachChild(c, parent[1..], key, x, name, b);
      PutPut(t.children, parent[0], a, Attach(a, parent[1..] + [key], name, b));
    }
  }

  /** The record `register` leaves at `path`: the new root for an empty path
      (the root case), otherwise attached under `path[:-1]`. */
  function At(t: Record, path: seq<string>, x: Record): (r: Record)
  {
    if path == [] then x else Attach(t, Init(path), LastKey(path), x)
  }

  lemma AtPlaces(t: Record, path: seq<string>, x: Record)
    requires path == [] || Lookup(t, Init(path)).Some?
    ensures Lookup(At(t, path, x), path) == Some(x)
  {
    if path != [] {
      assert Init(path) + [LastKey(path)] == path;
      AttachPlaces(t, Init(path), LastKey(path), x);
    }
  }

  lemma AtChild(t: Record, path: seq<string>, x: Record, name: string, b: Record)
    requires path == [] || Lookup(t, Init(path)).Some?
    ensures Attach(At(t, path, x), path, name, b) == At(t, path, x.(children := Put(x.children, name, b)))
  {
    if path != [] {
      assert Init(path) + [LastKey(path)] == path;
      AttachChild(t, Init(path), LastKey(path), x, name, b);
    }
  }

  // ---------------------------------------------------------------------
  // What register builds

  /** A first `register` makes the definition's whole record tree the root;
      a later one with a non-empty path whose parent exists places it under
      `path[last]` of that parent, overwriting any record there. */
  lemma {:induction false} RegisterBuilds(root: Option<Record>, path: seq<string>, def: Def)
    requires (root.None? && path == []) || (root.Some? && path != [] && Lookup(root.value, Init(path)).Some?)
    ensures Register(root, path, def)
         == Done(Some(if root.None? then Build(def) else Attach(root.value, Init(path), LastKey(path), Build(def))))
    decreases def, 1
  {
    var t := if root.None? then Fresh(def) else root.value;
    RegisterAllAt(t, path, Fresh(def), def.modules);
  }

  /** Registering `mods` below the record `x` at `path` gives `x` their
      record trees as children, in key order. */
  lemma {:induction false} RegisterAllAt(t: Record, path: seq<string>, x: Record, mods: seq<(string, Def)>)
    requires path == [] || Lookup(t, Init(path)).Some?
    ensures RegisterAll(Some(At(t, path, x)), path, mods)
         == Done(Some(At(t, path, x.(children := Adopt(x.children, mods)))))
    decreases mods, 0
  {
    if mods != [] {
      var name, child := mods[0].0, mods[0].1;
      assert child < mods[0];
      AtPlaces(t, path, x);
      assert Init(path + [name]) == path;
      assert LastKey(path + [name]) == name;
      RegisterBuilds(Some(At(t, path, x)), path + [name], child);
      AtChild(t, path, x, name, Build(child));
      RegisterAllAt(t, path, x.(children := Put(x.children, name, Build(child))), mods[1..]);
    }
  }

  /** A definition whose parent is missing is not registered: the walk throws
      and the tree is left as it was. */
  lemma RegisterMissingParent(root: Record, path: seq<string>, def: Def)
    requires Lookup(root, Init(path)).None?
    ensures Register(Some(root), path, def) == Threw(MissingModule, Some(root))
  {
  }

  lemma {:induction false} FindAdopt(kids: seq<(string, Record)>, mods: seq<(string, Def)>, key: string)
    ensures Find(Adopt(kids, mods), key)
         == if FindDef(mods, key).Some? then Some(Build(FindDef(mods, key).value)) else Find(kids, key)
    decreases |mods|
  {
    if mods != [] {
      FindAdopt(Put(kids, mods[0].0, Build(mods[0].1)), mods[1..], key);
      FindPut(kids, mods[0].0, Build(mods[0].1), key);
    }
  }

  /** The record tree mirrors the definition tree node for node: a path
      reaches a record exactly when it reaches a definition, and that record
      holds the definition and the definition's state. */
  lemma {:induction false} BuildMirrors(def: Def, path: seq<string>)
    ensures Lookup(Build(def), path) == if DefAt(def, path).Some? then Some(Build(DefAt(def, path).value)) else None
    ensures Lookup(Build(def), path).Some? ==>
              Lookup(Build(def), path).value.raw == DefAt(def, path).value
              && Lookup(Build(def), path).value.state == DefAt(def, path).value.state
    decreases |path|
  {
    if path != [] {
      FindAdopt([], def.modules, path[0]);
      match FindDef(def.modules, path[0])
      case None =>
      case Some(d) => BuildMirrors(d, path[1..]);
    }
  }

  // ---------------------------------------------------------------------
  // Namespaces

  lemma {:induction false} QualifierCons(root: Record, child: Record, path: seq<string>)
    requires path != [] && Find(root.children, path[0]) == Some(child)
    ensures Qualifier(root, path) == Segment(Some(child), path[0]) + Qualifier(child, path[1..])
    decreases |path|
  {
    if |path| == 1 {
      assert Init(path) == [] && path[1..] == [];
      assert Lookup(root, path) == Lookup(child, []);
    } else {
      assert Init(path)[0] == path[0];
      QualifierCons(root, child, Init(path));
      QualifierConsStep(root, child, path);
    }
  }

  lemma QualifierConsStep(root: Record, child: Record, path: seq<string>)
    requires |path| > 1 && Find(root.children, path[0]) == Some(child)
    requires Qualifier(root, Init(path)) == Segment(Some(child), path[0]) + Qualifier(child, Init(path)[1..])
    ensures Qualifier(root, path) == Segment(Some(child), path[0]) + Qualifier(child, path[1..])
  {
    var rest := path[1..];
    var seg, s := Segment(Some(child), path[0]), Segment(Lookup(root, path), LastKey(path));
    var qc := Qualifier(child, Init(rest));
    ShiftedTail(root, child, path);
    ConcatAssoc(seg, qc, s);
  }

  lemma ConcatAssoc(a: string, b: string, c: string)
    ensures (a + b) + c == a + (b + c)
  {
  }

  /** The last step of a path and of its tail reach the same record. */
  lemma ShiftedTail(root: Record, child: Record, path: seq<string>)
    requires |path| > 1 && Find(root.children, path[0]) == Some(child)
    ensures Init(path)[1..] == Init(path[1..])
    ensures Segment(Lookup(root, path), LastKey(path)) == Segment(Lookup(child, path[1..]), LastKey(path[1..]))
  {
  }

  /** Namespace composition: the fold yields the reference concatenation
      when every segment of the path names a module, and throws exactly when
      one does not. On the empty path it is "". */
  lemma {:induction false} NamespaceComposition(root: Record, path: seq<string>)
    ensures Lookup(root, path).Some? ==> Namespace(Some(root), path) == Ok(Qualifier(root, path))
    ensures Lookup(root, path).None? <==> Namespace(Some(root), path) == Err(MissingModule)
    decreases |path|
  {
    if path != [] {
      match Find(root.children, path[0])
      case None =>
      case Some(c) =>
        NamespaceComposition(c, path[1..]);
        if Lookup(root, path).Some? {
          QualifierCons(root, c, path);
        }
    }
  }

  /** The root's own `namespaced` flag is never consulted. */
  lemma RootFlagIgnored(root: Record, path: seq<string>, flag: bool)
    ensures Namespace(Some(root.(raw := root.raw.(namespaced := flag))), path) == Namespace(Some(root), path)
  {
  }
}
