/**
 * The values handed to a Helm chart (manager/controllers/app/blueprint_controller.go): the arguments of a
 * module are copied, and the copy is overridden at dotted paths.  Maps are objects that can be shared and
 * changed in place, as they are in Go.
 */
module NestedMaps {
  import opened Prelude

  /** What a map holds, all the way down. */
  datatype Tree = Data(data: string) | Fields(fields: map<string, Tree>)

  type Path = seq<string>

  // ---------------------------------------------------------------------------------------------
  // Dotted keys
  // ---------------------------------------------------------------------------------------------

  /** The parts of a key between its dots; there is always at least one. */
  function Split(key: string): (path: Path)
    ensures |path| > 0 && forall i :: 0 <= i < |path| ==> '.' !in path[i]
  {
    if key == "" then [""] else
      var path := Split(key[1..]);
      if key[0] == '.' then [""] + path else [[key[0]] + path[0]] + path[1..]
  }

  ghost function Join(path: Path): string
    requires |path| > 0
  {
    if |path| == 1 then path[0] else path[0] + "." + Join(path[1..])
  }

  lemma {:induction false} JoinAfterDot(path: Path)
    requires |path| > 0
    ensures Join([""] + path) == "." + Join(path)
  {
    assert ([""] + path)[1..] == path;
  }

  lemma {:induction false} JoinAfterChar(c: char, path: Path)
    requires |path| > 0
    ensures Join([[c] + path[0]] + path[1..]) == [c] + Join(path)
  {
    var path' := [[c] + path[0]] + path[1..];
    assert path'[1..] == path[1..];
    if |path| > 1 {
      var rest := "." + Join(path[1..]);
      assert Join(path') == ([c] + path[0]) + "." + Join(path[1..]);
      assert ([c] + path[0]) + rest == [c] + (path[0] + rest);
      assert ([c] + path[0]) + "." + Join(path[1..]) == ([c] + path[0]) + rest;
      assert path[0] + "." + Join(path[1..]) == path[0] + rest;
    }
  }

  /** Splitting a key loses nothing. */
  lemma {:induction false} JoinSplit(key: string)
    ensures Join(Split(key)) == key
  {
    if key != "" {
      var path := Split(key[1..]);
      JoinSplit(key[1..]);
      JoinAfterDot(path);
      JoinAfterChar(key[0], path);
      hide Join;
      assert [key[0]] + key[1..] == key;
    }
  }

  // ---------------------------------------------------------------------------------------------
  // Setting a path, on trees
  // ---------------------------------------------------------------------------------------------

  ghost function Get(t: Tree, path: Path): Option<Tree> {
    if |path| == 0 then Some(t)
    else if t.Data? || path[0] !in t.fields then None
    else Get(t.fields[path[0]], path[1..])
  }

  /** None if the path runs into something that is not a map. */
  ghost function Set(t: Tree, path: Path, v: string): (r: Option<Tree>)
    requires t.Fields? && |path| > 0
    ensures r.Some? ==> r.value.Fields?
    decreases |path|
  {
    var k := path[0];
    if |path| == 1 then Some(Fields(t.fields[k := Data(v)]))
    else if k in t.fields && t.fields[k].Data? then None
    else
      var r := Set(Below(t, k), path[1..], v);
      if r.None? then None else Some(Fields(t.fields[k := r.value]))
  }

  /** The map that a field holds, or would be given. */
  ghost function Below(t: Tree, k: string): (r: Tree)
    requires t.Fields? && !(k in t.fields && t.fields[k].Data?)
    ensures r.Fields?
  {
    if k in t.fields then t.fields[k] else Fields(map[])
  }

  /** The callers ignore a failure. */
  ghost function Put(t: Tree, path: Path, v: string): (r: Tree)
    requires t.Fields? && |path| > 0
    ensures r.Fields?
  {
    var r := Set(t, path, v);
    if r.None? then t else r.value
  }

  /** Setting fails exactly if something on the way is not a map. */
  lemma {:induction false} SetFailsExactly(t: Tree, path: Path, v: string)
    requires t.Fields? && |path| > 0
    ensures Set(t, path, v).None? <==>
      exists n :: 0 < n < |path| && Get(t, path[..n]).Some? && Get(t, path[..n]).value.Data?
    decreases |path|
  {
    var k := path[0];
    if |path| > 1 {
      assert path[..1] == [k] && [k][1..] == [];
      if k in t.fields && t.fields[k].Data? {
        assert Get(t, path[..1]) == Some(t.fields[k]);
      } else {
        var rest := path[1..];
        SetFailsExactly(Below(t, k), rest, v);
        forall n | 0 < n < |path|
          ensures n > 1 ==> path[..n][1..] == rest[..n - 1] && path[..n][0] == k
          ensures n > 1 && k in t.fields ==> Get(t, path[..n]) == Get(Below(t, k), rest[..n - 1])
          ensures k !in t.fields ==> Get(t, path[..n]).None?
          ensures k !in t.fields && n > 1 ==> Get(Below(t, k), rest[..n - 1]).None?
        {
        }
        if Set(Below(t, k), rest, v).None? {
          var n :| 0 < n < |rest| && Get(Below(t, k), rest[..n]).Some? && Get(Below(t, k), rest[..n]).value.Data?;
          assert n + 1 < |path| && rest[..n + 1 - 1] == rest[..n];
          assert Get(t, path[..n + 1]).Some? && Get(t, path[..n + 1]).value.Data?;
        }
      }
    }
  }

  /** What is read from a map after a path has been set. */
  lemma {:induction false} GetAfterSet(t: Tree, path: Path, v: string, q: Path)
    requires t.Fields? && |path| > 0 && Set(t, path, v).Some?
    ensures q == path ==> Get(Set(t, path, v).value, q) == Some(Data(v))
    ensures path < q ==> Get(Set(t, path, v).value, q) == None
    ensures q < path ==> Get(Set(t, path, v).value, q).Some? && Get(Set(t, path, v).value, q).value.Fields?
    ensures !(path <= q) && !(q <= path) ==> Get(Set(t, path, v).value, q) == Get(t, q)
    decreases |path|
  {
    if |q| > 0 && q[0] == path[0] && |path| > 1 {
      var k := path[0];
      GetAfterSet(Below(t, k), path[1..], v, q[1..]);
      assert path == [k] + path[1..] && q == [k] + q[1..];
      if k !in t.fields && q[1..] != [] {
        assert Get(Fields(map[]), q[1..]) == None;
      }
    } else if |q| > 0 && q[0] == path[0] {
      assert q == path || path < q;
      if |q| == 1 {
        assert q[1..] == [];
      }
    }
  }

  /** A map can always be put at a path below an empty one. */
  lemma {:induction false} PutBelow(t: Tree, path: Path, v: string)
    requires t.Fields? && |path| > 1 && !(path[0] in t.fields && t.fields[path[0]].Data?)
    ensures Put(t, path, v) == Fields(t.fields[path[0] := Put(Below(t, path[0]), path[1..], v)])
  {
    if path[0] !in t.fields {
      EmptyTakesAll(path[1..], v);
    } else {
      assert t.fields[path[0] := t.fields[path[0]]] == t.fields;
    }
  }

  lemma {:induction false} EmptyTakesAll(path: Path, v: string)
    requires |path| > 0
    ensures Set(Fields(map[]), path, v).Some?
  {
    if |path| > 1 {
      EmptyTakesAll(path[1..], v);
    }
  }

  /** Two different paths can be put in either order, even if one is a prefix of the other. */
  lemma {:induction false} PutCommutes(t: Tree, p: Path, v: string, q: Path, w: string)
    requires t.Fields? && |p| > 0 && |q| > 0 && p != q
    ensures Put(Put(t, p, v), q, w) == Put(Put(t, q, w), p, v)
    decreases |p|
  {
    var k := p[0];
    if k != q[0] {
      PutApart(t, p, v, q, w);
    } else if |q| == 1 {
      assert |p| > 1;
      PutPrefixLast(t, q, w, p, v);
    } else if |p| == 1 {
      PutPrefixLast(t, p, v, q, w);
    } else if !(k in t.fields && t.fields[k].Data?) {
      var c := Below(t, k);
      assert p == [k] + p[1..] && q == [k] + q[1..];
      PutCommutes(c, p[1..], v, q[1..], w);
      PutBelow(t, p, v);
      PutBelow(t, q, w);
      PutBelow(Put(t, p, v), q, w);
      PutBelow(Put(t, q, w), p, v);
      assert Put(Put(t, p, v), q, w).fields == Put(Put(t, q, w), p, v).fields;
    }
  }

  /** A single field overrides whatever was put below it. */
  lemma {:induction false} PutPrefixLast(t: Tree, p: Path, v: string, q: Path, w: string)
    requires t.Fields? && |p| == 1 && |q| > 1 && p[0] == q[0]
    ensures Put(Put(t, p, v), q, w) == Put(Put(t, q, w), p, v) == Put(t, p, v)
  {
    var k := p[0];
    if !(k in t.fields && t.fields[k].Data?) {
      PutBelow(t, q, w);
    }
    assert Put(Put(t, q, w), p, v).fields == Put(t, p, v).fields;
  }

  lemma {:induction false} PutAtHead(t: Tree, p: Path, v: string)
    requires t.Fields? && |p| > 0
    ensures forall k :: k != p[0] ==> (k in Put(t, p, v).fields <==> k in t.fields)
    ensures forall k :: k != p[0] && k in t.fields ==> Put(t, p, v).fields[k] == t.fields[k]
  {
  }

  lemma {:induction false} PutSameField(t: Tree, t': Tree, p: Path, v: string)
    requires t.Fields? && t'.Fields? && |p| > 0
    requires p[0] in t.fields <==> p[0] in t'.fields
    requires p[0] in t.fields ==> t.fields[p[0]] == t'.fields[p[0]]
    ensures p[0] in Put(t, p, v).fields && p[0] in Put(t', p, v).fields
    ensures Put(t, p, v).fields[p[0]] == Put(t', p, v).fields[p[0]]
  {
    if |p| > 1 && p[0] !in t.fields {
      EmptyTakesAll(p[1..], v);
    }
  }

  lemma {:induction false} PutApart(t: Tree, p: Path, v: string, q: Path, w: string)
    requires t.Fields? && |p| > 0 && |q| > 0 && p[0] != q[0]
    ensures Put(Put(t, p, v), q, w) == Put(Put(t, q, w), p, v)
  {
    hide Put;
    var (tp, tq) := (Put(t, p, v), Put(t, q, w));
    var (l, r) := (Put(tp, q, w), Put(tq, p, v));
    PutAtHead(t, p, v);
    PutAtHead(t, q, w);
    PutAtHead(tp, q, w);
    PutAtHead(tq, p, v);
    PutSameField(t, tp, q, w);
    PutSameField(t, tq, p, v);
    assert l.fields == r.fields;
  }

  // ---------------------------------------------------------------------------------------------
  // Setting many paths, in any order
  // ---------------------------------------------------------------------------------------------

  /** The paths in `order`, put one after the other. */
  ghost function PutAll(t: Tree, order: seq<string>, values: map<string, string>): (r: Tree)
    requires t.Fields? && forall i :: 0 <= i < |order| ==> order[i] in values
    ensures r.Fields?
  {
    if |order| == 0 then t
    else
      var k := order[|order| - 1];
      Put(PutAll(t, order[..|order| - 1], values), Split(k), values[k])
  }

  ghost predicate Enumerates(order: seq<string>, keys: set<string>) {
    && (forall k :: k in order <==> k in keys)
    && forall i, j :: 0 <= i < j < |order| ==> order[i] != order[j]
  }

  lemma {:induction false} SwapLast(t: Tree, front: seq<string>, x: string, y: string, values: map<string, string>)
    requires t.Fields? && x in values && y in values && forall j :: 0 <= j < |front| ==> front[j] in values
    requires x != y
    ensures PutAll(t, front + [x, y], values) == PutAll(t, front + [y, x], values)
  {
    hide Put, Split;
    assert (front + [x, y])[..|front| + 1] == front + [x] && (front + [x])[..|front|] == front;
    assert (front + [y, x])[..|front| + 1] == front + [y] && (front + [y])[..|front|] == front;
    JoinSplit(x);
    JoinSplit(y);
    PutCommutes(PutAll(t, front, values), Split(x), values[x], Split(y), values[y]);
  }

  /** A key can be put last instead of where it stands. */
  lemma {:induction false} PutLast(t: Tree, a: seq<string>, x: string, b: seq<string>, values: map<string, string>)
    requires t.Fields? && x in values && forall k :: k in a || k in b ==> k in values
    requires x !in b
    ensures PutAll(t, a + [x] + b, values) == PutAll(t, a + b + [x], values)
    decreases |b|
  {
    hide Put, Split;
    if |b| == 0 {
      assert a + [x] + b == a + b + [x];
    } else {
      var n := |b| - 1;
      var (b', y) := (b[..n], b[n]);
      assert b == b' + [y];
      PutLast(t, a, x, b', values);
      assert (a + [x] + b)[..|a| + |b|] == a + [x] + b';
      assert (a + b' + [x, y])[..|a| + |b|] == a + b' + [x];
      SwapLast(t, a + b', x, y, values);
      assert a + b' + [y, x] == a + b + [x];
    }
  }

  /** The order in which the keys of a map are put makes no difference. */
  lemma {:induction false} OrderIsIrrelevant(
    t: Tree, a: seq<string>, b: seq<string>, values: map<string, string>, keys: set<string>)
    requires t.Fields? && keys <= values.Keys && Enumerates(a, keys) && Enumerates(b, keys)
    ensures PutAll(t, a, values) == PutAll(t, b, values)
    decreases |a|
  {
    if |a| == 0 {
      Emptied(b, a, keys);
    } else {
      var n := |a| - 1;
      var k := a[n];
      assert k in b;
      var i :| 0 <= i < |b| && b[i] == k;
      var b' := b[..i] + b[i + 1..];
      assert b == b[..i] + [k] + b[i + 1..] && (b' + [k])[..|b'|] == b';
      PutLast(t, b[..i], k, b[i + 1..], values);
      WithoutLast(a, keys);
      Without(b, keys, i);
      OrderIsIrrelevant(t, a[..n], b', values, keys - {k});
    }
  }

  lemma {:induction false} Emptied(b: seq<string>, a: seq<string>, keys: set<string>)
    requires Enumerates(a, keys) && Enumerates(b, keys)
    ensures |b| > 0 ==> |a| > 0
  {
    if |b| > 0 {
      assert b[0] in b;
      assert b[0] in a;
    }
  }

  lemma {:induction false} Without(b: seq<string>, keys: set<string>, i: nat)
    requires Enumerates(b, keys) && i < |b|
    ensures Enumerates(b[..i] + b[i + 1..], keys - {b[i]})
  {
    var b' := b[..i] + b[i + 1..];
    forall k
      ensures k in b' <==> k in keys - {b[i]}
    {
      if k in keys - {b[i]} {
        var j :| 0 <= j < |b| && b[j] == k;
        assert b'[if j < i then j else j - 1] == k;
      }
      if k in b' {
        var j :| 0 <= j < |b'| && b'[j] == k;
        assert k == b[if j < i then j else j + 1];
      }
    }
  }

  lemma {:induction false} WithoutLast(a: seq<string>, keys: set<string>)
    requires Enumerates(a, keys) && |a| > 0
    ensures Enumerates(a[..|a| - 1], keys - {a[|a| - 1]})
  {
    var n := |a| - 1;
    Without(a, keys, n);
    assert a[..n] + a[n + 1..] == a[..n];
  }

  // ---------------------------------------------------------------------------------------------
  // Maps in memory
  // ---------------------------------------------------------------------------------------------

  datatype Value = Plain(data: string) | Nested(inner: MapObject)

  /** A map, with what it holds and where it is held. */
  class MapObject {
    var entries: map<string, Value>
    ghost var contents: Tree
    ghost var owner: MapObject?
    ghost var field: string

    constructor ()
      ensures entries == map[] && contents == Fields(map[]) && owner == null
    {
      entries, contents, owner := map[], Fields(map[]), null;
    }
  }

  /** What a value holds, where the map `at` is about to hold `future`. */
  ghost function Seen(v: Value, at: MapObject, future: Tree): Tree
    reads if v.Nested? then {v.inner} else {}
  {
    match v
    case Plain(data) => Data(data)
    case Nested(o) => if o == at then future else o.contents
  }

  ghost predicate Mirrors(o: MapObject, objects: set<MapObject>, at: MapObject, future: Tree)
    requires o in objects
    reads objects
  {
    && o.contents.Fields? && o.contents.fields.Keys == o.entries.Keys
    && forall k :: k in o.entries ==>
         && (o.entries[k].Nested? ==> o.entries[k].inner in objects)
         && o.contents.fields[k] == Seen(o.entries[k], at, future)
  }

  /** No map is held by two others, or twice by one. */
  ghost predicate Owns(o: MapObject, objects: set<MapObject>)
    requires o in objects
    reads objects
  {
    forall k :: k in o.entries && o.entries[k].Nested? ==>
      var c := o.entries[k].inner;
      c in objects && c != o && c.owner == o && c.field == k
  }

  ghost predicate Forest(objects: set<MapObject>, root: MapObject, at: MapObject, future: Tree)
    reads objects
  {
    && root in objects && at in objects && root.owner == null
    && (forall o :: o in objects ==> Mirrors(o, objects, at, future))
    && (forall o :: o in objects ==> Owns(o, objects))
  }

  /** A map that can be changed without changing another. */
  ghost predicate Separate(objects: set<MapObject>, root: MapObject)
    reads objects
  {
    root in objects && Forest(objects, root, root, root.contents)
  }

  /** A map that need not be separate, but is finite. */
  ghost predicate Finite(objects: set<MapObject>, root: MapObject)
    reads objects
  {
    root in objects && forall o :: o in objects ==> Mirrors(o, objects, root, root.contents)
  }

  /** No map holds the root, so what the root is about to hold is nothing to the others. */
  lemma {:induction false} RootIsFree(objects: set<MapObject>, root: MapObject, future: Tree)
    requires Separate(objects, root)
    ensures Forest(objects, root, root, future)
  {
    forall o | o in objects
      ensures Mirrors(o, objects, root, future)
    {
      assert Mirrors(o, objects, root, root.contents) && Owns(o, objects);
    }
  }

  /** What `o` is about to hold is what it holds. */
  lemma {:induction false} Settled(objects: set<MapObject>, root: MapObject, o: MapObject)
    requires Forest(objects, root, o, o.contents)
    ensures Separate(objects, root)
  {
    forall c | c in objects
      ensures Mirrors(c, objects, root, root.contents)
    {
      assert Mirrors(c, objects, o, o.contents);
    }
  }

  /** Two forests side by side; the second hangs from nothing. */
  lemma {:induction false} Together(
    objects: set<MapObject>, root: MapObject, o: MapObject, future: Tree, more: set<MapObject>, c: MapObject)
    requires Forest(objects, root, o, future) && objects !! more && c in more
    requires forall d :: d in more ==> Mirrors(d, more, c, c.contents) && Owns(d, more)
    ensures Forest(objects + more, root, o, future)
  {
    var all := objects + more;
    forall d | d in all
      ensures Mirrors(d, all, o, future) && Owns(d, all)
    {
      if d in objects {
        assert Mirrors(d, objects, o, future) && Owns(d, objects);
      } else {
        assert Mirrors(d, more, c, c.contents) && Owns(d, more);
      }
    }
  }

  /** Stores a value in the map that is about to change. */
  method Store(
    o: MapObject, k: string, v: Value, ghost t: Tree, ghost objects: set<MapObject>, ghost root: MapObject,
    ghost future: Tree)
    requires o in objects && o.contents.Fields? && Forest(objects, root, o, future)
    requires v.Plain? ==> t == Data(v.data)
    requires v.Nested? ==>
      v.inner in objects && v.inner != o && v.inner.owner == o && v.inner.field == k && t == v.inner.contents
    modifies o`entries, o`contents
    ensures o.entries == old(o.entries)[k := v] && o.contents == Fields(old(o.contents.fields)[k := t])
    ensures Forest(objects, root, o, future)
  {
    assert forall c :: c in objects ==> old(Mirrors(c, objects, o, future)) && old(Owns(c, objects));
    o.entries := o.entries[k := v];
    o.contents := Fields(o.contents.fields[k := t]);
    forall c | c in objects
      ensures Mirrors(c, objects, o, future) && Owns(c, objects)
    {
      assert old(Mirrors(c, objects, o, future)) && old(Owns(c, objects));
    }
  }

  /** Stores a value that is not a map, as the last step of a change to `root`. */
  method StorePlain(o: MapObject, k: string, data: string, ghost objects: set<MapObject>, ghost root: MapObject)
    requires o in objects && o.contents.Fields?
    requires Forest(objects, root, o, Fields(o.contents.fields[k := Data(data)]))
    modifies o`entries, o`contents
    ensures o.entries == old(o.entries)[k := Plain(data)]
    ensures o.contents == Fields(old(o.contents.fields)[k := Data(data)])
    ensures Separate(objects, root)
  {
    hide Forest;
    Store(o, k, Plain(data), Data(data), objects, root, Fields(o.contents.fields[k := Data(data)]));
    Settled(objects, root, o);
  }

  /** Stores the root of another forest. */
  method StoreNested(cp: MapObject, k: string, c: MapObject, ghost copies: set<MapObject>, ghost cs: set<MapObject>)
    requires Separate(copies, cp) && Separate(cs, c) && copies !! cs && cp.contents.Fields?
    modifies cp`entries, cp`contents, c`owner, c`field
    ensures cp.entries == old(cp.entries)[k := Nested(c)]
    ensures cp.contents == Fields(old(cp.contents.fields)[k := c.contents])
    ensures Separate(copies + cs, cp)
  {
    ghost var future := Fields(cp.contents.fields[k := c.contents]);
    RootIsFree(copies, cp, future);
    Together(copies, cp, cp, future, cs, c);
    Adopt(cp, k, c, copies + cs, cp, future);
    Store(cp, k, Nested(c), c.contents, copies + cs, cp, future);
    Settled(copies + cs, cp, cp);
  }

  /** Gives an owner to a map that nothing holds. */
  ghost method Adopt(o: MapObject, k: string, c: MapObject, objects: set<MapObject>, root: MapObject, future: Tree)
    requires Forest(objects, root, o, future) && c in objects && c.owner == null && c != o && c != root
    modifies c`owner, c`field
    ensures c.owner == o && c.field == k && Forest(objects, root, o, future)
  {
    assert forall d :: d in objects ==> old(Mirrors(d, objects, o, future)) && old(Owns(d, objects));
    c.owner, c.field := o, k;
    forall d | d in objects
      ensures Mirrors(d, objects, o, future) && Owns(d, objects)
    {
      assert old(Mirrors(d, objects, o, future)) && old(Owns(d, objects));
    }
  }

  /** Copies one field. */
  method CopyField(cp: MapObject, k: string, m: MapObject, ghost objects: set<MapObject>, ghost copies: set<MapObject>)
    returns (ghost copies': set<MapObject>)
    requires Finite(objects, m) && k in m.entries && cp !in objects
    requires Separate(copies, cp) && cp.contents.Fields?
    modifies cp`entries, cp`contents
    ensures copies <= copies' && fresh(copies' - copies) && Separate(copies', cp)
    ensures old(m.contents).Fields? && k in old(m.contents).fields
    ensures cp.contents == Fields(old(cp.contents.fields)[k := old(m.contents).fields[k]])
    decreases m.contents, 0
  {
    hide Forest, Owns, Separate, Mirrors, Finite;
    copies' := copies;
    match m.entries[k] {
      case Nested(vm) =>
        FiniteBelow(objects, m, k);
        var c, cs := CopyMap(vm, objects);
        StoreNested(cp, k, c, copies, cs);
        copies' := copies + cs;
      case Plain(data) =>
        PlainBelow(objects, m, k);
        RootIsFree(copies, cp, Fields(cp.contents.fields[k := Data(data)]));
        StorePlain(cp, k, data, copies, cp);
    }
  }

  /** A deep copy, which shares no map with the original. */
  method CopyMap(m: MapObject, ghost objects: set<MapObject>) returns (cp: MapObject, ghost copies: set<MapObject>)
    requires Finite(objects, m)
    ensures cp in copies && fresh(copies) && Separate(copies, cp)
    ensures cp.contents == m.contents
    decreases m.contents, 1
  {
    cp := new MapObject();
    copies := {cp};
    assert Mirrors(m, objects, m, m.contents);
    ghost var all := m.contents.fields;
    var entries := m.entries;
    assert all.Keys == entries.Keys;
    var todo := entries.Keys;
    while todo != {}
      invariant todo <= entries.Keys && cp in copies && fresh(copies) && Separate(copies, cp)
      invariant cp.contents == Part(all, entries.Keys - todo)
      decreases |todo|
    {
      hide Forest, Owns, Separate, Mirrors, Finite;
      var k :| k in todo;
      OneMoreField(all, entries.Keys, todo, k);
      copies := CopyField(cp, k, m, objects, copies);
      todo := todo - {k};
    }
    assert cp.contents.fields == all;
  }

  ghost function Part(fields: map<string, Tree>, keys: set<string>): (t: Tree)
    ensures t.Fields?
  {
    Fields(map k | k in fields && k in keys :: fields[k])
  }

  lemma {:induction false} OneMoreField(fields: map<string, Tree>, keys: set<string>, todo: set<string>, k: string)
    requires k in todo && todo <= keys && k in fields
    ensures Part(fields, keys - (todo - {k})) == Fields(Part(fields, keys - todo).fields[k := fields[k]])
  {
    assert Part(fields, keys - (todo - {k})).fields == Part(fields, keys - todo).fields[k := fields[k]];
  }

  lemma {:induction false} PlainBelow(objects: set<MapObject>, m: MapObject, k: string)
    requires Finite(objects, m) && k in m.entries && m.entries[k].Plain?
    ensures m.contents.Fields? && k in m.contents.fields && m.contents.fields[k] == Data(m.entries[k].data)
  {
    assert Mirrors(m, objects, m, m.contents);
  }

  lemma {:induction false} FiniteBelow(objects: set<MapObject>, m: MapObject, k: string)
    requires Finite(objects, m) && k in m.entries && m.entries[k].Nested?
    ensures Finite(objects, m.entries[k].inner)
    ensures m.contents.Fields? && k in m.contents.fields && m.entries[k].inner.contents == m.contents.fields[k]
  {
    assert Mirrors(m, objects, m, m.contents);
    var c := m.entries[k].inner;
    forall o | o in objects
      ensures Mirrors(o, objects, c, c.contents)
    {
      assert Mirrors(o, objects, m, m.contents);
    }
  }

  lemma {:induction false} SetBelow(t: Tree, path: Path, v: string)
    requires t.Fields? && |path| > 1 && !(path[0] in t.fields && t.fields[path[0]].Data?)
    ensures Set(t, path, v).Some? <==> Set(Below(t, path[0]), path[1..], v).Some?
  {
  }

  /** A map off the path sees what `o` now holds, and does not hold `next`. */
  lemma {:induction false} OthersMirror(
    c: MapObject, objects: set<MapObject>, o: MapObject, next: MapObject, future: Tree)
    requires c in objects && o in objects && next in objects && c != o && next.owner == o
    requires Mirrors(c, objects, o, o.contents) && Owns(c, objects)
    ensures Mirrors(c, objects, next, future)
  {
  }

  /** A change to `o` is a change to `next` below it. */
  ghost method PassOn(o: MapObject, k: string, next: MapObject, objects: set<MapObject>, root: MapObject, future: Tree)
    requires o in objects && o.contents.Fields? && k in o.entries && o.entries[k] == Nested(next)
    requires Forest(objects, root, o, Fields(o.contents.fields[k := future]))
    modifies o`contents
    ensures o.contents == Fields(old(o.contents.fields)[k := future])
    ensures next in objects && next != root && next != o && Forest(objects, root, next, future)
  {
    var above := Fields(o.contents.fields[k := future]);
    assert Mirrors(o, objects, o, above) && Owns(o, objects);
    assert forall c :: c in objects ==> old(Mirrors(c, objects, o, above)) && old(Owns(c, objects));
    o.contents := above;
    forall c | c in objects
      ensures Mirrors(c, objects, next, future) && Owns(c, objects)
    {
      assert old(Mirrors(c, objects, o, above)) && old(Owns(c, objects));
      if c != o {
        OthersMirror(c, objects, o, next, future);
      }
    }
  }

  /** Entering a map that is there. */
  ghost method Enter(o: MapObject, path: Path, v: string, objects: set<MapObject>, root: MapObject)
    requires |path| > 1 && o in objects && o.contents.Fields?
    requires Forest(objects, root, o, Put(o.contents, path, v))
    requires path[0] in o.entries && o.entries[path[0]].Nested?
    modifies o`contents
    ensures
      var next := o.entries[path[0]].inner;
      && next in objects && next != root && next != o && next.contents.Fields?
      && Forest(objects, root, next, Put(next.contents, path[1..], v))
      && o.contents == old(Put(o.contents, path, v))
      && (Set(next.contents, path[1..], v).Some? <==> old(Set(o.contents, path, v)).Some?)
  {
    var k := path[0];
    var next := o.entries[k].inner;
    assert Mirrors(o, objects, o, Put(o.contents, path, v)) && Owns(o, objects);
    assert Mirrors(next, objects, o, Put(o.contents, path, v));
    PutBelow(o.contents, path, v);
    SetBelow(o.contents, path, v);
    hide Forest, Put, Set;
    PassOn(o, k, next, objects, root, Put(next.contents, path[1..], v));
  }

  /** Making a map where there is none. */
  method MakeMap(
    o: MapObject, k: string, ghost path: Path, ghost v: string, ghost objects: set<MapObject>, ghost root: MapObject)
    returns (next: MapObject)
    requires |path| > 1 && o in objects && o.contents.Fields? && path[0] == k
    requires Forest(objects, root, o, Put(o.contents, path, v))
    requires k !in o.entries
    modifies o`entries, o`contents
    ensures fresh(next) && o.contents.Fields?
    ensures k in o.entries && o.entries[k] == Nested(next)
    ensures Forest(objects + {next}, root, o, Put(o.contents, path, v))
    ensures Put(o.contents, path, v) == old(Put(o.contents, path, v))
    ensures Set(o.contents, path, v).Some? && old(Set(o.contents, path, v)).Some?
  {
    next := new MapObject();
    ghost var future := Put(o.contents, path, v);
    EmptyIsThere(objects, root, o, path, v);
    hide Put, Set;
    Together(objects, root, o, future, {next}, next);
    hide Forest;
    Adopt(o, k, next, objects + {next}, root, future);
    Store(o, k, Nested(next), next.contents, objects + {next}, root, future);
  }

  lemma {:induction false} EmptyIsThere(objects: set<MapObject>, root: MapObject, o: MapObject, path: Path, v: string)
    requires |path| > 1 && o in objects && o.contents.Fields? && path[0] !in o.entries
    requires Forest(objects, root, o, Put(o.contents, path, v))
    ensures
      var t := Fields(o.contents.fields[path[0] := Fields(map[])]);
      && Put(t, path, v) == Put(o.contents, path, v)
      && Set(t, path, v).Some? && Set(o.contents, path, v).Some?
  {
    assert Mirrors(o, objects, o, Put(o.contents, path, v));
    EmptyTakesAll(path[1..], v);
    var t := Fields(o.contents.fields[path[0] := Fields(map[])]);
    PutBelow(t, path, v);
    PutBelow(o.contents, path, v);
    assert Put(t, path, v).fields == Put(o.contents, path, v).fields;
  }

  /** Sets a dotted path in place.  On failure nothing has changed. */
  method SetMapField(obj: MapObject, key: string, v: string, ghost objects: set<MapObject>)
    returns (ok: bool, ghost objects': set<MapObject>)
    requires Separate(objects, obj) && obj.contents.Fields?
    modifies objects
    ensures objects <= objects' && fresh(objects' - objects) && Separate(objects', obj)
    ensures obj.contents == Put(old(obj.contents), Split(key), v)
    ensures ok <==> Set(old(obj.contents), Split(key), v).Some?
    ensures !ok ==> objects' == objects && forall o :: o in objects ==> o.entries == old(o.entries)
  {
    hide Mirrors, Owns, Forest, Put, Set, Split;
    var path := Split(key);
    var cur := obj;
    ghost var will := Set(obj.contents, path, v).Some?;
    ghost var goal := Put(obj.contents, path, v);
    objects' := objects;
    RootIsFree(objects, obj, goal);
    PutFails(obj.contents, path, v);
    assert path[0..] == path;
    for n := 0 to |path| - 1
      invariant objects <= objects' && fresh(objects' - objects)
      invariant cur in objects' && obj in objects && cur.contents.Fields?
      invariant Forest(objects', obj, cur, Put(cur.contents, path[n..], v))
      invariant Set(cur.contents, path[n..], v).Some? <==> will
      invariant if cur == obj then n == 0 && obj.contents == old(obj.contents) else obj.contents == goal
      invariant !will ==> objects' == objects && forall o :: o in objects ==> o.entries == old(o.entries)
    {
      var k := path[n];
      var rest := path[n..];
      assert rest[1..] == path[n + 1..];
      if k !in cur.entries {
        var next := MakeMap(cur, k, rest, v, objects', obj);
        objects' := objects' + {next};
        Enter(cur, rest, v, objects', obj);
        cur := next;
      } else if cur.entries[k].Plain? {
        PlainBlocks(cur, rest, v, objects', obj);
        return false, objects';
      } else {
        Enter(cur, rest, v, objects', obj);
        cur := cur.entries[k].inner;
      }
    }
    SetLast(cur.contents, path[|path| - 1], v);
    assert path[|path| - 1..] == [path[|path| - 1]];
    StorePlain(cur, path[|path| - 1], v, objects', obj);
    return true, objects';
  }

  lemma {:induction false} SetLast(t: Tree, k: string, v: string)
    requires t.Fields?
    ensures Set(t, [k], v).Some? && Put(t, [k], v) == Fields(t.fields[k := Data(v)])
  {
  }

  lemma {:induction false} PlainBlocks(o: MapObject, path: Path, v: string, objects: set<MapObject>, root: MapObject)
    requires |path| > 1 && o in objects && o.contents.Fields?
    requires Forest(objects, root, o, Put(o.contents, path, v))
    requires path[0] in o.entries && o.entries[path[0]].Plain?
    ensures Set(o.contents, path, v).None? && Separate(objects, root)
  {
    assert Mirrors(o, objects, o, Put(o.contents, path, v));
    assert Put(o.contents, path, v) == o.contents;
    forall c | c in objects
      ensures Mirrors(c, objects, root, root.contents)
    {
      assert Mirrors(c, objects, o, o.contents);
    }
  }

  lemma {:induction false} PutFails(t: Tree, path: Path, v: string)
    requires t.Fields? && |path| > 0
    ensures Set(t, path, v).None? ==> Put(t, path, v) == t
  {
  }

  lemma {:induction false} OneMoreKey(done: seq<string>, keys: set<string>, todo: set<string>, k: string)
    requires k in todo && todo <= keys && Enumerates(done, keys - todo)
    ensures Enumerates(done + [k], keys - (todo - {k}))
  {
  }

  lemma {:induction false} PutAllSnoc(t: Tree, order: seq<string>, k: string, values: map<string, string>)
    requires t.Fields? && k in values && forall i :: 0 <= i < |order| ==> order[i] in values
    ensures PutAll(t, order + [k], values) == Put(PutAll(t, order, values), Split(k), values[k])
  {
    assert (order + [k])[..|order|] == order;
  }

  /** The values of a chart: a copy of the arguments, overridden in whatever order the keys come; the arguments stay. */
  method ChartValues(args: MapObject, values: map<string, string>, ghost objects: set<MapObject>)
    returns (result: MapObject, ghost copies: set<MapObject>)
    requires Finite(objects, args)
    ensures fresh(copies) && Separate(copies, result) && args.contents.Fields?
    ensures forall order :: Enumerates(order, values.Keys) ==> result.contents == PutAll(args.contents, order, values)
  {
    result, copies := CopyMap(args, objects);
    var todo := values.Keys;
    ghost var t := args.contents;
    assert Mirrors(args, objects, args, t);
    ghost var done: seq<string> := [];
    while todo != {}
      invariant todo <= values.Keys && Enumerates(done, values.Keys - todo)
      invariant forall i :: 0 <= i < |done| ==> done[i] in values
      invariant result in copies && fresh(copies) && Separate(copies, result)
      invariant t.Fields? && result.contents == PutAll(t, done, values)
      decreases |todo|
    {
      hide Forest, Mirrors, Owns, Put, PutAll, Separate, Finite, Enumerates;
      var k :| k in todo;
      PutAllSnoc(t, done, k, values);
      OneMoreKey(done, values.Keys, todo, k);
      var ok;
      ok, copies := SetMapField(result, k, values[k], copies);
      done := done + [k];
      todo := todo - {k};
    }
    hide Forest, Mirrors, Owns, Put, PutAll, Separate, Finite;
    assert values.Keys - todo == values.Keys;
    forall order | Enumerates(order, values.Keys)
      ensures result.contents == PutAll(t, order, values)
    {
      OrderIsIrrelevant(t, done, order, values, values.Keys);
    }
  }
}
