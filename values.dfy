/** The form's value tree, addressed by key sequences, and scopes over it. */
module Values {
  import opened CoreTypes

  /** A value in the tree: a scalar (kept as its text) or an object of named children. */
  datatype Value = Scalar(text: string) | Obj(fields: map<string, Value>)

  /** A parsed field path: the keys from the root down. */
  type Path = seq<string>

  /** The value at a path, or None where the path leads nowhere (undefined). */
  function Get(v: Value, p: Path): (r: Option<Value>)
    decreases |p|
    ensures p == [] ==> r == Some(v)
    ensures p != [] && v.Scalar? ==> r.None?
    ensures p != [] && v.Obj? && p[0] !in v.fields ==> r.None?
  {
    if p == [] then Some(v)
    else match v
      case Scalar(_) => None
      case Obj(m) => if p[0] in m then Get(m[p[0]], p[1..]) else None
  }

  /** The children of a value, seen as an object (a scalar has none). */
  function Children(v: Value): map<string, Value>
  {
    match v
    case Scalar(_) => map[]
    case Obj(m) => m
  }

  /** Replaces the subtree at a path, creating objects along the way where the
      path does not exist yet (a scalar on the way is replaced by an object). */
  function Set(v: Value, p: Path, x: Value): (r: Value)
    decreases |p|
    ensures Get(r, p) == Some(x)
    ensures p != [] ==> r.Obj? && p[0] in r.fields
    ensures p != [] ==> forall k :: k in Children(v) && k != p[0] ==> k in r.fields && r.fields[k] == Children(v)[k]
    ensures p != [] ==> r.fields.Keys == Children(v).Keys + {p[0]}
  {
    if p == [] then x
    else
      var m := Children(v);
      var child := if p[0] in m then m[p[0]] else Obj(map[]);
      Obj(m[p[0] := Set(child, p[1..], x)])
  }

  /** Reading a path through an intermediate path. */
  lemma {:induction false} GetAppend(v: Value, p: Path, q: Path)
    ensures Get(v, p + q) == if Get(v, p).Some? then Get(Get(v, p).value, q) else None
    decreases |p|
  {
    if p == [] {
      assert p + q == q;
    } else {
      assert (p + q)[0] == p[0] && (p + q)[1..] == p[1..] + q;
      match v
      case Scalar(_) =>
      case Obj(m) =>
        if p[0] in m {
          GetAppend(m[p[0]], p[1..], q);
        }
    }
  }

  /** Setting one path leaves every path that is neither its ancestor nor its
      descendant as it was. */
  lemma {:induction false} GetSetOther(v: Value, p: Path, x: Value, q: Path)
    requires !(p <= q) && !(q <= p)
    ensures Get(Set(v, p, x), q) == Get(v, q)
    decreases |p|
  {
    var m := Children(v);
    var child := if p[0] in m then m[p[0]] else Obj(map[]);
    var r := Set(v, p, x);
    assert r.fields[p[0]] == Set(child, p[1..], x);
    if p[0] == q[0] {
      GetSetOther(child, p[1..], x, q[1..]);
      if p[0] !in m {
        assert Get(child, q[1..]) == None;
      }
    }
  }

  /** Reading below a freshly set path reads inside the value that was set. */
  lemma GetBelowSet(v: Value, p: Path, x: Value, q: Path)
    ensures Get(Set(v, p, x), p + q) == Get(x, q)
  {
    GetAppend(Set(v, p, x), p, q);
  }

  /** Setting a single key of an object replaces that key's entry only. */
  lemma SetKey(m: map<string, Value>, k: string, x: Value)
    ensures Set(Obj(m), [k], x) == Obj(m[k := x])
  {
    assert [k][1..] == [];
  }

  /** A scope: a view over the tree rooted at a path prefix. */
  datatype Scope = Scope(root: Path) {

    /** The absolute path of a path given relative to this scope. */
    function Absolute(p: Path): (a: Path)
      ensures root <= a && a[|root|..] == p
    {
      root + p
    }

    /** The scope of a sub-path of this scope. */
    function Child(sub: Path): (c: Scope)
      ensures forall p :: c.Absolute(p) == Absolute(sub + p)
    {
      Scope(root + sub)
    }

    /** What this scope reads at a relative path. */
    function Read(v: Value, p: Path): (r: Option<Value>)
      ensures r == if Get(v, root).Some? then Get(Get(v, root).value, p) else None
    {
      GetAppend(v, root, p);
      Get(v, Absolute(p))
    }
  }
}
