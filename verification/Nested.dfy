/** `setPath` of lib/event.go: building a nested map from values at paths. */
module Nested {
  import opened Values
  import opened Paths
  import opened Sorting

  type Fields = map<string, Json>

  /** The map after `setPath(orig, path, value)`. */
  function SetPath(orig: Fields, path: Path, value: Json): Fields
    decreases |path|
  {
    if |path| == 0 then orig
    else if |path| == 1 then orig[path[0] := value]
    else if path[0] !in orig then orig[path[0] := Obj(SetPath(map[], path[1..], value))]
    else match orig[path[0]]
      case Obj(sub) => orig[path[0] := Obj(SetPath(sub, path[1..], value))]
      case _ => orig
  }

  /** The value at a path. */
  function At(fields: Fields, path: Path): Option<Json>
    requires |path| > 0
    decreases |path|
  {
    if path[0] !in fields then None
    else if |path| == 1 then Some(fields[path[0]])
    else match fields[path[0]]
      case Obj(sub) => At(sub, path[1..])
      case _ => None
  }

  /** No value that is not a map is in the way of the path. */
  predicate Settable(fields: Fields, path: Path)
    decreases |path|
  {
    |path| <= 1 || path[0] !in fields ||
    match fields[path[0]]
    case Obj(sub) => Settable(sub, path[1..])
    case _ => false
  }

  /** Neither path is the beginning of the other. */
  predicate Apart(p: Path, q: Path)
    decreases |p|
  {
    p != [] && q != [] && (p[0] != q[0] || Apart(p[1..], q[1..]))
  }

  lemma {:induction false} ApartOrPrefix(p: Path, q: Path)
    ensures Apart(p, q) <==> !(p <= q) && !(q <= p)
    ensures Apart(p, q) == Apart(q, p)
    decreases |p|
  {
    if p != [] && q != [] {
      ApartOrPrefix(p[1..], q[1..]);
      assert p == [p[0]] + p[1..] && q == [q[0]] + q[1..];
      assert p[0] == q[0] ==> (p <= q <==> p[1..] <= q[1..]) && (q <= p <==> q[1..] <= p[1..]);
    }
  }

  /** The path reads back the value, unless something is in the way; then nothing changes. */
  lemma {:induction false} SetPathAt(fields: Fields, path: Path, value: Json)
    requires |path| > 0
    ensures Settable(fields, path) ==> At(SetPath(fields, path, value), path) == Some(value)
    ensures !Settable(fields, path) ==> SetPath(fields, path, value) == fields
    decreases |path|
  {
    if |path| > 1 {
      if path[0] !in fields {
        SetPathAt(map[], path[1..], value);
      } else if fields[path[0]].Obj? {
        SetPathAt(fields[path[0]].fields, path[1..], value);
      }
    }
  }

  /** Every path apart from it reads what it read before. */
  lemma {:induction false} SetPathElsewhere(fields: Fields, path: Path, value: Json, q: Path)
    requires Apart(path, q)
    ensures At(SetPath(fields, path, value), q) == At(fields, q)
    decreases |path|
  {
    if path[0] == q[0] {
      if path[0] !in fields {
        SetPathElsewhere(map[], path[1..], value, q[1..]);
      } else if fields[path[0]].Obj? {
        SetPathElsewhere(fields[path[0]].fields, path[1..], value, q[1..]);
      }
    }
  }

  /** On the way to the path there are maps, or what was there before. */
  lemma {:induction false} SetPathOnTheWay(fields: Fields, path: Path, value: Json, q: Path)
    requires 0 < |q| < |path| && q <= path
    ensures var r := At(SetPath(fields, path, value), q);
            r.Some? && !r.value.Obj? ==> At(fields, q) == r
    decreases |path|
  {
    if |q| > 1 {
      if path[0] !in fields {
        SetPathOnTheWay(map[], path[1..], value, q[1..]);
      } else if fields[path[0]].Obj? {
        SetPathOnTheWay(fields[path[0]].fields, path[1..], value, q[1..]);
      }
    }
  }

  /** Setting two paths that are apart commutes. */
  lemma {:induction false} SetPathCommutes(fields: Fields, p: Path, v: Json, q: Path, w: Json)
    requires Apart(p, q)
    ensures SetPath(SetPath(fields, p, v), q, w) == SetPath(SetPath(fields, q, w), p, v)
    decreases |p|
  {
    if p[0] != q[0] {
      SetPathCommutesApart(fields, p, v, q, w);
    } else if p[0] !in fields || fields[p[0]].Obj? {
      var sub := if p[0] in fields then fields[p[0]].fields else map[];
      SetPathCommutes(sub, p[1..], v, q[1..], w);
      SetPathTwice(fields, sub, p, v, q, w);
      SetPathTwice(fields, sub, q, w, p, v);
    }
  }

  lemma SetPathCommutesApart(fields: Fields, p: Path, v: Json, q: Path, w: Json)
    requires |p| > 0 && |q| > 0 && p[0] != q[0]
    ensures SetPath(SetPath(fields, p, v), q, w) == SetPath(SetPath(fields, q, w), p, v)
  {
    SetPathIsLocal(fields, p, v);
    SetPathIsLocal(SetPath(fields, q, w), p, v);
    SetPathIsLocal(fields, q, w);
    SetPathIsLocal(SetPath(fields, p, v), q, w);
  }

  /** Two paths below the same entry, one set after the other. */
  lemma SetPathTwice(fields: Fields, sub: Fields, p: Path, v: Json, q: Path, w: Json)
    requires |p| > 1 && |q| > 1 && p[0] == q[0]
    requires if p[0] in fields then fields[p[0]] == Obj(sub) else sub == map[]
    ensures SetPath(SetPath(fields, p, v), q, w) == fields[p[0] := Obj(SetPath(SetPath(sub, p[1..], v), q[1..], w))]
  {
    SetPathIsLocal(fields, p, v);
    SetPathIsLocal(SetPath(fields, p, v), q, w);
  }

  /** The entry `setPath` writes at the head of the path, from the entry that was there. */
  function Entry(was: Option<Json>, path: Path, value: Json): Option<Json>
    requires |path| > 0
  {
    if |path| == 1 then Some(value)
    else match was
      case None => Some(Obj(SetPath(map[], path[1..], value)))
      case Some(Obj(sub)) => Some(Obj(SetPath(sub, path[1..], value)))
      case _ => was
  }

  function Get(fields: Fields, k: string): Option<Json> {
    if k in fields then Some(fields[k]) else None
  }

  lemma SetPathIsLocal(fields: Fields, path: Path, value: Json)
    requires |path| > 0
    ensures Entry(Get(fields, path[0]), path, value).Some?
    ensures SetPath(fields, path, value) == fields[path[0] := Entry(Get(fields, path[0]), path, value).value]
  {
  }

  lemma {:induction false} OnlyMapsOnTheWay(fields: Fields, path: Path)
    requires |path| > 0
    requires forall q :: 0 < |q| < |path| && q <= path && At(fields, q).Some? ==> At(fields, q).value.Obj?
    ensures Settable(fields, path)
    decreases |path|
  {
    if |path| > 1 && path[0] in fields {
      assert path[..1] <= path && At(fields, path[..1]) == Some(fields[path[0]]);
      var sub := fields[path[0]].fields;
      forall q | 0 < |q| < |path| - 1 && q <= path[1..] && At(sub, q).Some? ensures At(sub, q).value.Obj? {
        var q' := [path[0]] + q;
        assert q'[1..] == q && q' <= path;
        assert At(fields, q') == At(sub, q);
      }
      OnlyMapsOnTheWay(sub, path[1..]);
    }
  }

  /** Setting paths one after the other, from an empty map. */
  function SetAll(paths: seq<Path>, values: map<Path, Json>): Fields
    requires forall p :: p in paths ==> p in values
  {
    if |paths| == 0 then map[]
    else
      var last := paths[|paths| - 1];
      SetPath(SetAll(paths[..|paths| - 1], values), last, values[last])
  }

  /** No path is empty, and none is the beginning of another. */
  ghost predicate PrefixFree(paths: seq<Path>) {
    && (forall p :: p in paths ==> |p| > 0)
    && (forall p, q :: p in paths && q in paths && p != q ==> Apart(p, q))
  }

  /** q leads to one of the paths, or beyond one. */
  ghost predicate Related(paths: seq<Path>, q: Path) {
    exists p :: p in paths && !Apart(p, q)
  }

  /** Nothing else is in the map: what is read on the way to a path is a map, and away from all paths
      there is nothing. */
  lemma {:induction false} SetAllOnly(paths: seq<Path>, values: map<Path, Json>, q: Path)
    requires PrefixFree(paths) && forall p :: p in paths ==> p in values
    requires |q| > 0 && At(SetAll(paths, values), q).Some?
    ensures Related(paths, q)
    ensures (forall p :: p in paths ==> !(p <= q)) ==> At(SetAll(paths, values), q).value.Obj?
  {
    var init, last := paths[..|paths| - 1], paths[|paths| - 1];
    var before := SetAll(init, values);
    ApartOrPrefix(last, q);
    forall p | p in init ensures p in paths {}
    if Apart(last, q) {
      SetPathElsewhere(before, last, values[last], q);
      SetAllOnly(init, values, q);
      var p :| p in init && !Apart(p, q);
      assert p in paths;
    } else {
      assert last in paths;
      if q < last {
        SetPathOnTheWay(before, last, values[last], q);
        if At(before, q).Some? { SetAllOnly(init, values, q); }
      }
    }
  }

  /** Every path reads its value. */
  lemma {:induction false} SetAllAt(paths: seq<Path>, values: map<Path, Json>, path: Path)
    requires PrefixFree(paths) && forall p :: p in paths ==> p in values
    requires path in paths
    ensures At(SetAll(paths, values), path) == Some(values[path])
  {
    var init, last := paths[..|paths| - 1], paths[|paths| - 1];
    var before := SetAll(init, values);
    if path == last {
      forall q | 0 < |q| < |path| && q <= path && At(before, q).Some? ensures At(before, q).value.Obj? {
        forall p | p in init ensures !(p <= q) {
          assert p in paths;
          ApartOrPrefix(p, path);
        }
        SetAllOnly(init, values, q);
      }
      OnlyMapsOnTheWay(before, path);
      SetPathAt(before, path, values[path]);
    } else {
      SetPathElsewhere(before, last, values[last], path);
      SetAllAt(init, values, path);
    }
  }

  lemma {:induction false} SetLast(paths: seq<Path>, values: map<Path, Json>, i: nat)
    requires PrefixFree(paths) && (forall p :: p in paths ==> p in values) && i < |paths|
    ensures SetAll(paths, values) == SetPath(SetAll(Without(paths, i), values), paths[i], values[paths[i]])
  {
    var n := |paths| - 1;
    var init, x, y := paths[..n], paths[i], paths[n];
    if i == n {
      assert Without(paths, i) == init;
    } else {
      SetLast(init, values, i);
      var rest := Without(init, i);
      assert Without(paths, i) == rest + [y];
      assert (rest + [y])[..|rest|] == rest;
      assert x in paths && y in paths;
      if x != y { SetPathCommutes(SetAll(rest, values), x, values[x], y, values[y]); }
    }
  }

  /** The order in which the paths are set does not matter. */
  lemma {:induction false} SetAllOrderIrrelevant(ps: seq<Path>, qs: seq<Path>, values: map<Path, Json>)
    requires PrefixFree(ps) && (forall p :: p in ps ==> p in values)
    requires multiset(ps) == multiset(qs)
    ensures forall q :: q in qs ==> q in values
    ensures SetAll(ps, values) == SetAll(qs, values)
  {
    SameMultiset(ps, qs);
    if |ps| > 0 {
      var i := MatchLast(ps, qs);
      SetLast(qs, values, i);
      SetAllOrderIrrelevant(ps[..|ps| - 1], Without(qs, i), values);
    }
  }

  /** Reading on from what is read at the first part of a path. */
  lemma {:induction false} AtThrough(fields: Fields, p: Path, q: Path)
    requires 0 < |p| < |q| && p <= q
    ensures At(fields, q) == match At(fields, p) case Some(Obj(sub)) => At(sub, q[|p|..]) case _ => None
    decreases |p|
  {
    if |p| > 1 {
      if p[0] in fields && fields[p[0]].Obj? {
        AtThrough(fields[p[0]].fields, p[1..], q[1..]);
        assert q[1..][|p[1..]|..] == q[|p|..];
      }
    }
  }

  /** Setting what is there already changes nothing. */
  lemma {:induction false} SetSame(fields: Fields, path: Path, value: Json)
    requires |path| > 0 && At(fields, path) == Some(value)
    ensures SetPath(fields, path, value) == fields
    decreases |path|
  {
    if |path| > 1 { SetSame(fields[path[0]].fields, path[1..], value); }
  }

  /** What is read neither at a set path nor below one is a map. */
  lemma {:induction false} AwayIsMap(paths: seq<Path>, values: map<Path, Json>, q: Path)
    requires forall p :: p in paths ==> |p| > 0 && p in values && !(p <= q)
    requires |q| > 0 && At(SetAll(paths, values), q).Some?
    ensures At(SetAll(paths, values), q).value.Obj?
  {
    var init, last := paths[..|paths| - 1], paths[|paths| - 1];
    var before := SetAll(init, values);
    assert last in paths;
    ApartOrPrefix(last, q);
    if Apart(last, q) {
      SetPathElsewhere(before, last, values[last], q);
      AwayIsMap(init, values, q);
    } else {
      SetPathOnTheWay(before, last, values[last], q);
      if At(before, q).Some? { AwayIsMap(init, values, q); }
    }
  }

  /** Where one path is the beginning of another, its value is a map that holds the other's value. */
  ghost predicate Compatible(paths: seq<Path>, values: map<Path, Json>)
    requires forall p :: p in paths ==> p in values
  {
    forall p, q :: p in paths && q in paths && p < q ==> Holds(values, p, q)
  }

  predicate Holds(values: map<Path, Json>, p: Path, q: Path)
    requires p in values && q in values && p < q
  {
    values[p].Obj? && At(values[p].fields, q[|p|..]) == Some(values[q])
  }

  ghost predicate AllRead(paths: seq<Path>, values: map<Path, Json>, fields: Fields)
    requires forall p :: p in paths ==> p in values && |p| > 0
  {
    forall p :: p in paths ==> At(fields, p) == Some(values[p])
  }

  /** Where no value is a map, that is: no path is the beginning of another one. */
  lemma ScalarsCompatible(paths: seq<Path>, values: map<Path, Json>)
    requires forall p :: p in paths ==> p in values && |p| > 0 && !values[p].Obj?
    ensures Compatible(paths, values) <==> PrefixFree(paths)
  {
    forall p, q | p in paths && q in paths && p != q ensures Apart(p, q) <==> !(p < q) && !(q < p) {
      ApartOrPrefix(p, q);
    }
    forall p, q | p in paths && q in paths && p < q ensures !Holds(values, p, q) {}
  }

  /** All values are read back exactly if they are compatible, whatever the order. */
  lemma AllReadIffCompatible(paths: seq<Path>, values: map<Path, Json>)
    requires forall p :: p in paths ==> p in values && |p| > 0
    ensures AllRead(paths, values, SetAll(paths, values)) <==> Compatible(paths, values)
  {
    var fields := SetAll(paths, values);
    if AllRead(paths, values, fields) {
      forall p, q | p in paths && q in paths && p < q ensures Holds(values, p, q) { AtThrough(fields, p, q); }
    }
    if Compatible(paths, values) { CompatibleIsRead(paths, values); }
  }

  lemma {:induction false} CompatibleIsRead(paths: seq<Path>, values: map<Path, Json>)
    requires (forall p :: p in paths ==> p in values && |p| > 0) && Compatible(paths, values)
    ensures AllRead(paths, values, SetAll(paths, values))
  {
    if |paths| > 0 {
      var init, last := paths[..|paths| - 1], paths[|paths| - 1];
      var before := SetAll(init, values);
      forall p | p in init ensures p in paths {}
      assert last in paths;
      CompatibleIsRead(init, values);
      if q :| q in init && q <= last {
        assert At(before, q) == Some(values[q]);
        if q < last {
          assert Holds(values, q, last);
          AtThrough(before, q, last);
        } else {
          assert q == last;
        }
        SetSame(before, last, values[last]);
      } else {
        NewIsRead(init, values, last);
      }
      forall p | p in paths ensures p in init || p == last {}
    }
  }

  /** A further path that none of the others begins can be set, and takes none of their values away. */
  lemma NewIsRead(init: seq<Path>, values: map<Path, Json>, last: Path)
    requires last in values && |last| > 0
    requires forall p :: p in init ==> p in values && |p| > 0 && !(p <= last) && (last < p ==> Holds(values, last, p))
    requires AllRead(init, values, SetAll(init, values))
    ensures AllRead(init + [last], values, SetPath(SetAll(init, values), last, values[last]))
  {
    var before := SetAll(init, values);
    forall r | 0 < |r| < |last| && r <= last && At(before, r).Some? ensures At(before, r).value.Obj? {
      AwayIsMap(init, values, r);
    }
    OnlyMapsOnTheWay(before, last);
    SetPathAt(before, last, values[last]);
    var after := SetPath(before, last, values[last]);
    forall p | p in init ensures At(after, p) == Some(values[p]) {
      ApartOrPrefix(last, p);
      if Apart(last, p) { SetPathElsewhere(before, last, values[last], p); } else { AtThrough(after, last, p); }
    }
  }
}
