/** The example store of src/store/index.js:30-115: a root with three
    mutations, an action and a getter, namespaced modules `a` and `b`, `c`
    inside `b`, and the plain modules `d` inside `c` and `e` inside `d`. */
module Fixture {
  import opened Outcomes
  import opened JsValues
  import opened ModuleTree
  import opened Installer
  import opened StoreSpec

  function Age(s: string): (r: Value)
  {
    Obj(map["age" := Str(s)])
  }

  /** A module definition literal without getters or actions. */
  function Module(namespaced: bool, state: Value, mutations: seq<(string, Fn)>, modules: seq<(string, Def)>): (r: Def)
  {
    Def(namespaced, state, [], mutations, [], modules)
  }

  function E(): (r: Def) { Module(false, Age("e100"), [], []) }
  function D(): (r: Def) { Module(false, Age("d100"), [], [("e", E())]) }
  function C(): (r: Def) { Module(true, Age("c100"), [("addNum", Fn("c.addNum"))], [("d", D())]) }
  function B(): (r: Def) { Module(true, Age("b100"), [("addNum", Fn("b.addNum"))], [("c", C())]) }
  function A(): (r: Def) { Module(true, Age("a100"), [("addNum", Fn("a.addNum"))], []) }

  function Options(): (r: Def)
  {
    Def(false,
        Obj(map["name" := Str("yyh123"), "num" := Num(22), "title" := Str("learning vuex!!!!!")]),
        [("title", Fn("title"))],
        [("addNum", Fn("addNum")), ("minusNum", Fn("minusNum")), ("changeName", Fn("changeName"))],
        [("changeName", Action(Fn("changeName"), ["changeName"]))],
        [("a", A()), ("b", B())])
  }

  /** The record tree of the example, child by child. */
  lemma ExampleTree()
    ensures Build(Options()).children == [("a", Build(A())), ("b", Build(B()))]
    ensures Build(A()).children == []
    ensures Build(B()).children == [("c", Build(C()))]
    ensures Build(C()).children == [("d", Build(D()))]
    ensures Build(D()).children == [("e", Build(E()))]
    ensures Build(E()).children == []
  {
    var mods := Options().modules;
    assert mods[1..][1..] == [];
    assert Adopt([], mods) == Adopt([("a", Build(A()))], mods[1..]);
    assert Adopt([("a", Build(A()))], mods[1..]) == Adopt([("a", Build(A())), ("b", Build(B()))], []);
    assert Adopt([], B().modules) == Adopt([("c", Build(C()))], []);
    assert Adopt([], C().modules) == Adopt([("d", Build(D()))], []);
    assert Adopt([], D().modules) == Adopt([("e", Build(E()))], []);
  }

  /** One step of the namespace fold through an existing child. */
  lemma NamespaceStep(node: Record, key: string, rest: seq<string>, ns: string)
    requires Find(node.children, key).Some?
    requires Namespace(Some(Find(node.children, key).value), rest) == Ok(ns)
    ensures Namespace(Some(node), [key] + rest)
         == Ok((if Find(node.children, key).value.raw.namespaced then key + "/" else "") + ns)
  {
    assert ([key] + rest)[0] == key && ([key] + rest)[1..] == rest;
  }

  /** Where each child of the example sits, and which modules are namespaced. */
  lemma ExampleChildren()
    ensures Find(Build(Options()).children, "a") == Some(Build(A()))
    ensures Find(Build(Options()).children, "b") == Some(Build(B()))
    ensures Find(Build(Options()).children, "c") == None
    ensures Find(Build(B()).children, "c") == Some(Build(C()))
    ensures Find(Build(C()).children, "d") == Some(Build(D()))
    ensures Find(Build(D()).children, "e") == Some(Build(E()))
    ensures Build(A()).raw.namespaced && Build(B()).raw.namespaced && Build(C()).raw.namespaced
    ensures !Build(D()).raw.namespaced && !Build(E()).raw.namespaced
  {
    ExampleTree();
  }

  /** Below `c`, neither `d` nor `e` adds to the namespace. */
  lemma NamespacesBelowC()
    ensures Namespace(Some(Build(C())), ["d"]) == Ok("")
    ensures Namespace(Some(Build(C())), ["d", "e"]) == Ok("")
  {
    ExampleChildren();
    var c, d := Build(C()), Build(D());
    assert ["d"] + [] == ["d"] && ["e"] + [] == ["e"] && ["d"] + ["e"] == ["d", "e"];
    assert "" + "" == "";
    NamespaceStep(d, "e", [], "");
    NamespaceStep(c, "d", [], "");
    NamespaceStep(c, "d", ["e"], "");
  }

  /** Below `b`, `c` adds "c/" and nothing below it adds more. */
  lemma NamespacesBelowB()
    ensures Namespace(Some(Build(B())), ["c"]) == Ok("c/")
    ensures Namespace(Some(Build(B())), ["c", "d"]) == Ok("c/")
    ensures Namespace(Some(Build(B())), ["c", "d", "e"]) == Ok("c/")
  {
    ExampleChildren();
    NamespacesBelowC();
    var b := Build(B());
    assert ["c"] + [] == ["c"] && ["c"] + ["d"] == ["c", "d"] && ["c"] + ["d", "e"] == ["c", "d", "e"];
    assert "c" + "/" == "c/" && "c/" + "" == "c/";
    NamespaceStep(b, "c", [], "");
    NamespaceStep(b, "c", ["d"], "");
    NamespaceStep(b, "c", ["d", "e"], "");
  }

  /** Namespaces of the example: only namespaced modules add their key, so
      `d` and `e` share the namespace of `c`; a path through a missing
      module throws. */
  lemma ExampleNamespaces()
    ensures Namespace(Some(Build(Options())), []) == Ok("")
    ensures Namespace(Some(Build(Options())), ["a"]) == Ok("a/")
    ensures Namespace(Some(Build(Options())), ["b"]) == Ok("b/")
    ensures Namespace(Some(Build(Options())), ["b", "c"]) == Ok("b/c/")
    ensures Namespace(Some(Build(Options())), ["b", "c", "d"]) == Ok("b/c/")
    ensures Namespace(Some(Build(Options())), ["b", "c", "d", "e"]) == Ok("b/c/")
    ensures Namespace(Some(Build(Options())), ["c"]) == Err(MissingModule)
  {
    ExampleChildren();
    NamespacesBelowB();
    var t := Build(Options());
    assert ["a"] + [] == ["a"] && ["b"] + [] == ["b"];
    assert ["b"] + ["c"] == ["b", "c"] && ["b"] + ["c", "d"] == ["b", "c", "d"] && ["b"] + ["c", "d", "e"] == ["b", "c", "d", "e"];
    assert "a" + "/" == "a/" && "b" + "/" == "b/" && "a/" + "" == "a/" && "b/" + "" == "b/" && "b/" + "c/" == "b/c/";
    NamespaceStep(t, "a", [], "");
    NamespaceStep(t, "b", [], "");
    NamespaceStep(t, "b", ["c"], "c/");
    NamespaceStep(t, "b", ["c", "d"], "c/");
    NamespaceStep(t, "b", ["c", "d", "e"], "c/");
    assert ["c"][1..] == [];
  }

  /** What installing a module without getters at a non-empty path does
      before it turns to the children: the graft, then the tables. */
  function AfterOwn(w: World, path: seq<string>, rec: Record, ns: string): (r: World)
    requires path != []
  {
    Graft(w, path, rec.state).val.(mutations := AddMutations(w.mutations, ns, path, rec.raw.mutations),
                                   actions := AddActions(w.actions, ns, rec.raw.actions))
  }

  /** Installing a module without getters below an object completes its
      own part, leaving its state at its path and an object at its parent. */
  lemma InstallPlain(w: World, path: seq<string>, rec: Record, ns: string)
    requires path != [] && Namespace(w.root, path) == Ok(ns)
    requires GetState(w.state, Init(path)).Ok? && GetState(w.state, Init(path)).value.Obj?
    requires rec.raw.getters == []
    ensures Install(w, path, rec) == InstallAll(AfterOwn(w, path, rec, ns), path, rec.children)
    ensures AfterOwn(w, path, rec, ns).root == w.root
    ensures GetState(AfterOwn(w, path, rec, ns).state, path) == Ok(rec.state)
    ensures GetState(AfterOwn(w, path, rec, ns).state, Init(path)).Ok?
    ensures GetState(AfterOwn(w, path, rec, ns).state, Init(path)).value.Obj?
  {
    GraftThrows(w, path, rec.state);
    GraftLands(w, path, rec.state);
    var w1 := Graft(w, path, rec.state).val;
    assert DefineGetters(w1.getters, ns, path, []) == Done(w1.getters);
  }

  lemma InstallOneChild(w: World, path: seq<string>, key: string, r: Record)
    ensures InstallAll(w, path, [(key, r)]) == Install(w, path + [key], r)
  {
    assert [(key, r)][1..] == [];
  }

  /** The chain `b`, `c`, `d`, `e` installs below any object root state,
      and leaves the state of `e` at its path; one lemma per level. */
  lemma InstallE(w: World)
    requires w.root == Some(Build(Options()))
    requires GetState(w.state, ["b", "c", "d"]).Ok? && GetState(w.state, ["b", "c", "d"]).value.Obj?
    ensures Install(w, ["b", "c", "d", "e"], Build(E())).Done?
    ensures GetState(Install(w, ["b", "c", "d", "e"], Build(E())).val.state, ["b", "c", "d", "e"]) == Ok(Age("e100"))
  {
    assert Namespace(w.root, ["b", "c", "d", "e"]) == Ok("b/c/") by { ExampleNamespaces(); }
    assert Build(E()).raw.getters == [];
    assert Init(["b", "c", "d", "e"]) == ["b", "c", "d"];
    InstallPlain(w, ["b", "c", "d", "e"], Build(E()), "b/c/");
  }

  /** Installing a module without getters whose state is an object and
      which has exactly one child is installing that child next. */
  lemma InstallParent(w: World, path: seq<string>, rec: Record, ns: string, key: string, child: Record) returns (w1: World)
    requires path != [] && Namespace(w.root, path) == Ok(ns)
    requires GetState(w.state, Init(path)).Ok? && GetState(w.state, Init(path)).value.Obj?
    requires rec.raw.getters == [] && rec.children == [(key, child)] && rec.state.Obj?
    ensures Install(w, path, rec) == Install(w1, path + [key], child)
    ensures w1.root == w.root && GetState(w1.state, path).Ok? && GetState(w1.state, path).value.Obj?
  {
    InstallPlain(w, path, rec, ns);
    w1 := AfterOwn(w, path, rec, ns);
    InstallOneChild(w1, path, key, child);
  }

  lemma InstallD(w: World)
    requires w.root == Some(Build(Options()))
    requires GetState(w.state, ["b", "c"]).Ok? && GetState(w.state, ["b", "c"]).value.Obj?
    ensures Install(w, ["b", "c", "d"], Build(D())).Done?
    ensures GetState(Install(w, ["b", "c", "d"], Build(D())).val.state, ["b", "c", "d", "e"]) == Ok(Age("e100"))
  {
    assert Namespace(w.root, ["b", "c", "d"]) == Ok("b/c/") by { ExampleNamespaces(); }
    assert Build(D()).children == [("e", Build(E()))] by { ExampleTree(); }
    assert Init(["b", "c", "d"]) == ["b", "c"] && ["b", "c", "d"] + ["e"] == ["b", "c", "d", "e"];
    var w1 := InstallParent(w, ["b", "c", "d"], Build(D()), "b/c/", "e", Build(E()));
    InstallE(w1);
  }

  lemma InstallC(w: World)
    requires w.root == Some(Build(Options()))
    requires GetState(w.state, ["b"]).Ok? && GetState(w.state, ["b"]).value.Obj?
    ensures Install(w, ["b", "c"], Build(C())).Done?
    ensures GetState(Install(w, ["b", "c"], Build(C())).val.state, ["b", "c", "d", "e"]) == Ok(Age("e100"))
  {
    assert Namespace(w.root, ["b", "c"]) == Ok("b/c/") by { ExampleNamespaces(); }
    assert Build(C()).children == [("d", Build(D()))] by { ExampleTree(); }
    assert Init(["b", "c"]) == ["b"] && ["b", "c"] + ["d"] == ["b", "c", "d"];
    var w1 := InstallParent(w, ["b", "c"], Build(C()), "b/c/", "d", Build(D()));
    InstallD(w1);
  }

  lemma InstallB(w: World)
    requires w.root == Some(Build(Options()))
    requires w.state.Obj?
    ensures Install(w, ["b"], Build(B())).Done?
    ensures GetState(Install(w, ["b"], Build(B())).val.state, ["b", "c", "d", "e"]) == Ok(Age("e100"))
  {
    assert Namespace(w.root, ["b"]) == Ok("b/") by { ExampleNamespaces(); }
    assert Build(B()).children == [("c", Build(C()))] by { ExampleTree(); }
    assert Init(["b"]) == [] && ["b"] + ["c"] == ["b", "c"];
    var w1 := InstallParent(w, ["b"], Build(B()), "b/", "c", Build(C()));
    InstallC(w1);
  }

  /** The root's own part of the example: the getter `title`, three
      mutations and an action, all without a namespace. */
  function RootInstalled(): (r: World)
  {
    var o := Options();
    World(Some(Build(o)), o.state, map["title" := GetterEntry([], Fn("title"))],
          AddMutations(map[], "", [], o.mutations), AddActions(map[], "", o.actions), [], false, [])
  }

  lemma BootStart()
    ensures Boot(Options()) == InstallAll(RootInstalled(), [], [("a", Build(A())), ("b", Build(B()))])
  {
    ExampleTree();
    var o := Options();
    assert o.getters[1..] == [] && "" + "title" == "title";
    assert DefineGetters(map[], "", [], o.getters) == Done(map["title" := GetterEntry([], Fn("title"))]);
  }

  /** The example store boots: every graft finds an object to go into and
      the only getter is defined once; the deepest module's state ends up
      at `b.c.d.e`. */
  lemma ExampleBoots()
    ensures Boot(Options()).Done?
    ensures GetState(Boot(Options()).val.state, ["b", "c", "d", "e"]) == Ok(Age("e100"))
  {
    BootStart();
    var w1 := RootInstalled();
    var wa := InstallA();
    assert [] + ["a"] == ["a"] && [] + ["b"] == ["b"];
    assert InstallAll(w1, [], [("a", Build(A())), ("b", Build(B()))]) == InstallAll(wa, [], [("b", Build(B()))]);
    InstallOneChild(wa, [], "b", Build(B()));
    InstallB(wa);
  }

  /** Module `a` installs on top of the root's own part. */
  lemma InstallA() returns (wa: World)
    ensures Install(RootInstalled(), ["a"], Build(A())) == Done(wa)
    ensures wa.root == Some(Build(Options())) && wa.state.Obj?
  {
    var w1 := RootInstalled();
    var a := Build(A());
    assert Namespace(Some(Build(Options())), ["a"]) == Ok("a/") by { ExampleNamespaces(); }
    assert a.children == [] && a.raw.getters == [] by { ExampleTree(); }
    assert Init(["a"]) == [];
    InstallPlain(w1, ["a"], a, "a/");
    wa := AfterOwn(w1, ["a"], a, "a/");
  }

  /** Where the example's definitions sit in the options tree. */
  lemma ExampleDefs()
    ensures DefAt(Options(), []) == Some(Options())
    ensures DefAt(Options(), ["a"]) == Some(A())
    ensures DefAt(Options(), ["b"]) == Some(B())
    ensures DefAt(Options(), ["b", "c"]) == Some(C())
  {
    var o := Options();
    assert o.modules[1..][1..] == [] && B().modules[1..] == [];
    assert FindDef(o.modules, "a") == Some(A());
    assert FindDef(o.modules, "b") == Some(B());
    assert FindDef(B().modules, "c") == Some(C());
    assert ["a"][1..] == [] && ["b"][1..] == [] && ["b", "c"][1..] == ["c"] && ["c"][1..] == [];
  }

  /** A mutation or getter of an example module, installed at boot. */
  lemma BootHandler(path: seq<string>, def: Def, ns: string)
    requires DefAt(Options(), path) == Some(def)
    requires Namespace(Some(Build(Options())), path) == Ok(ns)
    ensures Boot(Options()).Done?
    ensures Landed(Boot(Options()).val, ns, path, def)
  {
    ExampleBoots();
    BuildMirrors(Options(), path);
    NamespaceComposition(Build(Options()), path);
    BootInstallsAll(Options(), path);
  }

  /** The first mutation of an example module, installed at boot. */
  lemma BootFirstMutation(path: seq<string>, def: Def, ns: string)
    requires DefAt(Options(), path) == Some(def)
    requires Namespace(Some(Build(Options())), path) == Ok(ns)
    requires def.mutations != []
    ensures MutHandler(ns + def.mutations[0].0, path, def.mutations[0].1)
              in Handlers(Boot(Options()).val.mutations, ns + def.mutations[0].0)
  {
    BootHandler(path, def, ns);
  }

  /** After the example boots, the root's `addNum` is reachable under its
      plain name, with a handler for the root path, and the root getter
      `title` reads the root state. */
  lemma ExampleRootTables()
    ensures var w := Boot(Options()).val;
            && MutHandler("addNum", [], Fn("addNum")) in Handlers(w.mutations, "addNum")
            && "title" in w.getters && w.getters["title"] == GetterEntry([], Fn("title"))
  {
    assert DefAt(Options(), []) == Some(Options()) by { ExampleDefs(); }
    assert Namespace(Some(Build(Options())), []) == Ok("") by { ExampleNamespaces(); }
    assert "" + "addNum" == "addNum" && "" + "title" == "title";
    BootHandler([], Options(), "");
    assert Options().getters[0] == ("title", Fn("title"));
    assert Options().mutations[0] == ("addNum", Fn("addNum"));
  }

  /** Each namespaced module's `addNum` is reachable under its own
      qualified type, with a handler for that module's path. */
  lemma ExampleTypeA()
    ensures MutHandler("a/addNum", ["a"], Fn("a.addNum")) in Handlers(Boot(Options()).val.mutations, "a/addNum")
  {
    assert DefAt(Options(), ["a"]) == Some(A()) by { ExampleDefs(); }
    assert Namespace(Some(Build(Options())), ["a"]) == Ok("a/") by { ExampleNamespaces(); }
    assert A().mutations[0] == ("addNum", Fn("a.addNum"));
    assert "a/" + "addNum" == "a/addNum";
    BootFirstMutation(["a"], A(), "a/");
  }

  lemma ExampleTypeB()
    ensures MutHandler("b/addNum", ["b"], Fn("b.addNum")) in Handlers(Boot(Options()).val.mutations, "b/addNum")
  {
    assert DefAt(Options(), ["b"]) == Some(B()) by { ExampleDefs(); }
    assert Namespace(Some(Build(Options())), ["b"]) == Ok("b/") by { ExampleNamespaces(); }
    assert B().mutations[0] == ("addNum", Fn("b.addNum"));
    assert "b/" + "addNum" == "b/addNum";
    BootFirstMutation(["b"], B(), "b/");
  }

  /** `c` is nested in `b`, so its type carries both keys. */
  lemma ExampleTypeC()
    ensures MutHandler("b/c/addNum", ["b", "c"], Fn("c.addNum")) in Handlers(Boot(Options()).val.mutations, "b/c/addNum")
  {
    assert DefAt(Options(), ["b", "c"]) == Some(C()) by { ExampleDefs(); }
    assert Namespace(Some(Build(Options())), ["b", "c"]) == Ok("b/c/") by { ExampleNamespaces(); }
    assert C().mutations[0] == ("addNum", Fn("c.addNum"));
    assert "b/c/" + "addNum" == "b/c/addNum";
    BootFirstMutation(["b", "c"], C(), "b/c/");
  }

  /** The dynamic registration sketched after the example store: a module
      `m` with state `{age: "m100"}` registered on the booted store lands at
      `state.m`. */
  lemma ExampleRegisterM()
    ensures Boot(Options()).Done?
    ensures var w := RegisterModule(Boot(Options()).val, Name("m"), Module(false, Age("m100"), [], []));
            w.Done? && GetState(w.val.state, ["m"]) == Ok(Age("m100"))
  {
    ExampleBoots();
    var w := Boot(Options()).val;
    ObjectPathStep(w.state, ["b", "c", "d", "e"]);
    InstallGrows(World(Some(Build(Options())), Options().state, map[], map[], map[], [], false, []), [], Build(Options()));
    DynamicRegistration(w, "m", Module(false, Age("m100"), [], []));
  }

  /** After the example boots, `store.state.b.c.d.e` is module `e`'s state,
      `{age: "e100"}`. */
  lemma ExampleDeepState()
    ensures Boot(Options()).Done?
    ensures GetState(Boot(Options()).val.state, ["b", "c", "d", "e"]) == Ok(Age("e100"))
  {
    ExampleBoots();
    var path := ["b", "c", "d", "e"];
    assert path[1..] == ["c", "d", "e"] && path[1..][1..] == ["d", "e"] && path[1..][1..][1..] == ["e"];
    assert FindDef(Options().modules, "b") == Some(B());
    assert DefAt(Options(), path) == Some(E());
    BootStateAt(Options(), path);
  }
}
