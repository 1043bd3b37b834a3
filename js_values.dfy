/** The JavaScript values that make up the store's state tree, and the two
    path operations the engine performs on it: `getState`, which reads the
    slice at a path by repeated property access, and the write-back of a
    slice at a path that a mutation handler or a graft performs. */
module JsValues {
  import opened Outcomes

  /** A state value. Objects are maps from property names to values;
      numbers are integers. */
  datatype Value =
    | Undefined
    | Bool(b: bool)
    | Num(n: int)
    | Str(s: string)
    | Obj(fields: map<string, Value>)

  /** `v[key]`: reading a property of `undefined` throws, a missing property
      and any property of a primitive read as `undefined`. */
  function Prop(v: Value, key: string): (r: Result<Value>)
  {
    match v
    case Undefined => Err(ReadOfUndefined(key))
    case Obj(f) => Ok(if key in f then f[key] else Undefined)
    case _ => Ok(Undefined)
  }

  /** `path.reduce((s, k) => s[k], root)`: the slice of `root` at `path`. */
  function GetState(root: Value, path: seq<string>): (r: Result<Value>)
    decreases |path|
  {
    if path == [] then Ok(root)
    else
      match Prop(root, path[0])
      case Err(f) => Err(f)
      case Ok(next) => GetState(next, path[1..])
  }

  /** Continues a resolved walk by one more property read. */
  function ThenProp(r: Result<Value>, key: string): (res: Result<Value>)
  {
    match r
    case Err(f) => Err(f)
    case Ok(v) => Prop(v, key)
  }

  /** The tree `root` with the slice at `path` replaced by `x`. Every slice on
      a path that resolves to an object is itself an object holding the next
      key, which is the only case the engine writes in. */
  function SetAt(root: Value, path: seq<string>, x: Value): (r: Value)
    decreases |path|
  {
    if path == [] then x
    else if root.Obj? && path[0] in root.fields then
      Obj(root.fields[path[0] := SetAt(root.fields[path[0]], path[1..], x)])
    else root
  }

  /** True when the two paths differ at some position both of them have,
      so that neither is a prefix of the other. */
  predicate Diverge(p: seq<string>, q: seq<string>)
    decreases |p|
  {
    |p| > 0 && |q| > 0 && (p[0] != q[0] || Diverge(p[1..], q[1..]))
  }

  /** Resolving `path + [key]` is resolving `path` and then reading `key`:
      the left-to-right reduce of the source is a composable walk. */
  lemma {:induction false} GetStateSnoc(root: Value, path: seq<string>, key: string)
    ensures GetState(root, path + [key]) == ThenProp(GetState(root, path), key)
    decreases |path|
  {
    if path == [] {
      assert [] + [key] == [key];
      assert [key][1..] == [];
    } else {
      assert (path + [key])[0] == path[0];
      assert (path + [key])[1..] == path[1..] + [key];
      match Prop(root, path[0])
      case Err(f) =>
      case Ok(next) => GetStateSnoc(next, path[1..], key);
    }
  }

  /** A path that resolves to an object passes only through objects that
      hold each of its keys. */
  lemma {:induction false} ObjectPathStep(root: Value, path: seq<string>)
    requires path != []
    requires GetState(root, path).Ok? && GetState(root, path).value.Obj?
    ensures root.Obj? && path[0] in root.fields
    ensures GetState(root.fields[path[0]], path[1..]) == GetState(root, path)
  {
  }

  /** Writing a slice where the path resolves to an object makes the path
      resolve to exactly that slice (read after write). */
  lemma {:induction false} ReadAfterWrite(root: Value, path: seq<string>, x: Value)
    requires GetState(root, path).Ok? && GetState(root, path).value.Obj?
    ensures GetState(SetAt(root, path, x), path) == Ok(x)
    decreases |path|
  {
    if path != [] {
      ObjectPathStep(root, path);
      ReadAfterWrite(root.fields[path[0]], path[1..], x);
    }
  }

  /** Writing at `path` leaves every slice on a diverging path as it was. */
  lemma {:induction false} WriteKeepsOthers(root: Value, path: seq<string>, other: seq<string>, x: Value)
    requires GetState(root, path).Ok? && GetState(root, path).value.Obj?
    requires Diverge(path, other)
    ensures GetState(SetAt(root, path, x), other) == GetState(root, other)
    decreases |path|
  {
    ObjectPathStep(root, path);
    var k := path[0];
    var updated := SetAt(root.fields[k], path[1..], x);
    assert SetAt(root, path, x) == Obj(root.fields[k := updated]);
    if other[0] != k {
      assert Prop(SetAt(root, path, x), other[0]) == Prop(root, other[0]);
    } else {
      WriteKeepsOthers(root.fields[k], path[1..], other[1..], x);
      assert Prop(SetAt(root, path, x), other[0]) == Ok(updated);
    }
  }

  /** Writing at a path twice keeps only the second write. */
  lemma {:induction false} SetAtTwice(root: Value, path: seq<string>, x: Value, y: Value)
    ensures SetAt(SetAt(root, path, x), path, y) == SetAt(root, path, y)
    decreases |path|
  {
    if path != [] && root.Obj? && path[0] in root.fields {
      var k := path[0];
      var inner := SetAt(root.fields[k], path[1..], x);
      assert SetAt(root, path, x) == Obj(root.fields[k := inner]);
      SetAtTwice(root.fields[k], path[1..], x, y);
      assert root.fields[k := inner][k := SetAt(inner, path[1..], y)] == root.fields[k := SetAt(inner, path[1..], y)];
    }
  }

  /** Writing back the slice a path already resolves to changes nothing. */
  lemma {:induction false} SetAtSame(root: Value, path: seq<string>)
    requires GetState(root, path).Ok?
    ensures SetAt(root, path, GetState(root, path).value) == root
    decreases |path|
  {
    if path != [] && root.Obj? && path[0] in root.fields {
      SetAtSame(root.fields[path[0]], path[1..]);
      assert root.fields[path[0] := root.fields[path[0]]] == root.fields;
    }
  }

  /** Writing one property of an object slice is writing the slice with
      that property replaced. */
  lemma {:induction false} SetAtSnoc(root: Value, path: seq<string>, key: string, x: Value)
    requires GetState(root, path).Ok? && GetState(root, path).value.Obj?
    requires key in GetState(root, path).value.fields
    ensures SetAt(root, path + [key], x) == SetAt(root, path, Obj(GetState(root, path).value.fields[key := x]))
    decreases |path|
  {
    if path == [] {
      assert [] + [key] == [key];
      assert [key][1..] == [];
    } else {
      ObjectPathStep(root, path);
      assert (path + [key])[0] == path[0];
      assert (path + [key])[1..] == path[1..] + [key];
      SetAtSnoc(root.fields[path[0]], path[1..], key, x);
    }
  }

  /** Setting a property of the parent slice twice keeps only the second. */
  lemma Regraft(root: Value, path: seq<string>, a: Value, b: Value)
    requires path != []
    requires GetState(root, path[..|path| - 1]).Ok? && GetState(root, path[..|path| - 1]).value.Obj?
    ensures var parent := GetState(root, path[..|path| - 1]).value;
            var k := path[|path| - 1];
            SetAt(SetAt(root, path[..|path| - 1], Obj(parent.fields[k := a])), path, b)
              == SetAt(root, path[..|path| - 1], Obj(parent.fields[k := b]))
  {
    var init, k := path[..|path| - 1], path[|path| - 1];
    var parent := GetState(root, init).value;
    var x := Obj(parent.fields[k := a]);
    assert init + [k] == path;
    ReadAfterWrite(root, init, x);
    SetAtSnoc(SetAt(root, init, x), init, k, b);
    SetAtTwice(root, init, x, Obj(x.fields[k := b]));
    assert x.fields[k := b] == parent.fields[k := b];
  }
}
