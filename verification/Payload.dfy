/** `setVarOnPath` of lib/worker.go, on values. */
module Payload {
  import opened Values
  import opened Paths
  import opened Decimal

  /** Library calls on floats and JSON text; their results do not matter here. */
  datatype Library = Library(
    parseFloat: string -> (real, bool),
    formatFloat: real -> string,
    truncate: real -> int,
    isJson: string -> bool)

  /** What Go returns: the new element, or an element beside an error or a recovered panic. */
  datatype Outcome = Set(tree: Json) | Failed(tree: Json)

  function FromGo(element: Json, ok: bool): Outcome {
    if ok then Set(element) else Failed(element)
  }

  function ParseBool(s: string): (bool, bool) {
    if s in {"1", "t", "T", "TRUE", "true", "True"} then (true, true)
    else (false, s in {"0", "f", "F", "FALSE", "false", "False"})
  }

  predicate Scalar(e: Json) {
    e.Str? || e.Int? || e.Bool? || e.Float?
  }

  /** An empty path: the value in the kind of the element it replaces. */
  function Convert(lib: Library, element: Json, value: Json): Outcome {
    match value
    case Str(v) => (
      match element
      case Str(_) => Set(value)
      case Int(_) => FromGo(Int(Atoi(v).0), Atoi(v).1)
      case Bool(_) => FromGo(Bool(ParseBool(v).0), ParseBool(v).1)
      case Float(_) => FromGo(Float(lib.parseFloat(v).0), lib.parseFloat(v).1)
      case Null => Failed(value)
      case _ => if lib.isJson(v) then Failed(Null) else Failed(value)  // reflect's Set panics
    )
    case Int(v) => (
      match element
      case Str(_) => Set(Str(Itoa(v)))
      case Int(_) => Set(value)
      case Bool(_) => Set(Bool(v >= 1))
      case Float(_) => Set(Float(v as real))
      case _ => Failed(value)
    )
    case Bool(v) => (
      match element
      case Str(_) => Set(Str(if v then "true" else "false"))
      case Int(_) => Set(Int(if v then 1 else 0))
      case Bool(_) => Set(value)
      case Float(_) => Set(Float(if v then 1.0 else 0.0))
      case _ => Failed(value)
    )
    case Float(v) => (
      match element
      case Str(_) => Set(Str(lib.formatFloat(v)))
      case Int(_) => Set(Int(lib.truncate(v)))
      case Bool(_) => Set(Bool(v >= 1.0))
      case Float(_) => Set(value)
      case _ => Failed(value)
    )
    case _ => Failed(value)
  }

  /** A value written into an element of another kind comes back when that is written into one of its own kind. */
  lemma ConversionsRoundTrip(lib: Library, v: int, b: bool, s: string, i: int, f: real, o: bool)
    requires MIN_INT <= v <= MAX_INT
    ensures Convert(lib, Int(i), Convert(lib, Str(s), Int(v)).tree) == Set(Int(v))
    ensures Convert(lib, Bool(o), Convert(lib, Str(s), Bool(b)).tree) == Set(Bool(b))
    ensures Convert(lib, Bool(o), Convert(lib, Int(i), Bool(b)).tree) == Set(Bool(b))
    ensures Convert(lib, Bool(o), Convert(lib, Float(f), Bool(b)).tree) == Set(Bool(b))
  {
    AtoiUndoesItoa(v);
  }

  /** A place one level down in a map or a list. */
  datatype Step = Key(key: string) | Index(index: nat)
  type Place = seq<Step>

  predicate HasStep(element: Json, step: Step) {
    match step
    case Key(key) => element.Obj? && key in element.fields
    case Index(index) => element.List? && index < |element.items|
  }

  function Child(element: Json, step: Step): Json
    requires HasStep(element, step)
  {
    match step case Key(key) => element.fields[key] case Index(index) => element.items[index]
  }

  function Put(element: Json, step: Step, child: Json): Json
    requires HasStep(element, step)
  {
    match step
    case Key(key) => Obj(element.fields[key := child])
    case Index(index) => List(element.items[index := child])
  }

  /** The place a part of a path names: a key of a map, or an index of a list. A missing key, an index
      out of range and a nil element are recovered panics. */
  function Select(element: Json, part: string): (step: Option<Step>)
    ensures step.Some? ==> HasStep(element, step.value)
  {
    match element
    case Obj(fields) => if part in fields then Some(Key(part)) else None
    case List(items) =>
      var (index, ok) := Atoi(part);
      if ok && 0 <= index < |items| then Some(Index(index)) else None
    case _ => None
  }

  /** `setVarOnPath(element, path, value)`. */
  function SetVar(lib: Library, element: Json, path: Path, value: Json): Outcome
    decreases |path|
  {
    if |path| == 0 then Convert(lib, element, value)
    else match Select(element, path[0])
      case None => Failed(element)
      case Some(step) =>
        var r := SetVar(lib, Child(element, step), path[1..], value);
        if r.Set? then Set(Put(element, step, r.tree)) else Failed(element)
  }

  /** The place a path names in a tree, free of the spelling of list indexes. */
  function Resolve(tree: Json, path: Path): Option<Place>
    decreases |path|
  {
    if |path| == 0 then Some([])
    else match Select(tree, path[0])
      case None => None
      case Some(step) =>
        var rest := Resolve(Child(tree, step), path[1..]);
        if rest.Some? then Some([step] + rest.value) else None
  }

  /** The node at a place. */
  function NodeAt(tree: Json, place: Place): Option<Json>
    decreases |place|
  {
    if |place| == 0 then Some(tree)
    else if HasStep(tree, place[0]) then NodeAt(Child(tree, place[0]), place[1..])
    else None
  }

  lemma PutFacts(tree: Json, s: Step, x: Json)
    requires HasStep(tree, s)
    ensures forall t :: HasStep(Put(tree, s, x), t) == HasStep(tree, t)
    ensures forall t :: HasStep(tree, t) ==> Child(Put(tree, s, x), t) == if t == s then x else Child(tree, t)
    ensures forall part :: Select(Put(tree, s, x), part) == Select(tree, part)
  {
  }

  lemma PutTwice(tree: Json, s: Step, x: Json, t: Step, y: Json)
    requires HasStep(tree, s) && HasStep(tree, t)
    ensures HasStep(Put(tree, s, x), t) && HasStep(Put(tree, t, y), s)
    ensures s == t ==> Put(Put(tree, s, x), t, y) == Put(tree, t, y)
    ensures s != t ==> Put(Put(tree, s, x), t, y) == Put(Put(tree, t, y), s, x)
    ensures s == t && Put(tree, s, x) == Put(tree, t, y) ==> x == y
  {
    PutFacts(tree, s, x);
    PutFacts(tree, t, y);
    if s.Index? && t.Index? {
      if s == t { assert tree.items[s.index := x][t.index := y] == tree.items[t.index := y]; }
      else { assert tree.items[s.index := x][t.index := y] == tree.items[t.index := y][s.index := x]; }
    }
    if s == t && Put(tree, s, x) == Put(tree, t, y) {
      assert Child(Put(tree, s, x), s) == x && Child(Put(tree, t, y), s) == y;
    }
  }

  /** Same kind of node. */
  predicate SameKind(a: Json, b: Json) {
    a.Null? == b.Null? && a.Str? == b.Str? && a.Int? == b.Int? && a.Bool? == b.Bool? && a.Float? == b.Float?
    && a.List? == b.List? && a.Obj? == b.Obj?
  }

  /** Same nodes at the same places: key sets, list lengths and the kind of every node agree. */
  ghost predicate SameShape(a: Json, b: Json)
    decreases a
  {
    && SameKind(a, b)
    && (forall s :: HasStep(a, s) == HasStep(b, s))
    && (forall s :: HasStep(a, s) && HasStep(b, s) ==> SameShape(Child(a, s), Child(b, s)))
  }

  lemma {:induction false} SameShapeReflexive(a: Json)
    ensures SameShape(a, a)
    decreases a
  {
    forall s | HasStep(a, s) ensures SameShape(Child(a, s), Child(a, s)) { SameShapeReflexive(Child(a, s)); }
  }

  lemma {:induction false} SameShapeTransitive(a: Json, b: Json, c: Json)
    requires SameShape(a, b) && SameShape(b, c)
    ensures SameShape(a, c)
    decreases a
  {
    forall s | HasStep(a, s) ensures SameShape(Child(a, s), Child(c, s)) {
      SameShapeTransitive(Child(a, s), Child(b, s), Child(c, s));
    }
  }

  /** When an update succeeds, and what is then at its place. */
  lemma {:induction false} SetVarResolves(lib: Library, tree: Json, path: Path, value: Json)
    ensures SetVar(lib, tree, path, value).Set? <==>
      Resolve(tree, path).Some? && NodeAt(tree, Resolve(tree, path).value).Some?
      && Convert(lib, NodeAt(tree, Resolve(tree, path).value).value, value).Set?
    ensures SetVar(lib, tree, path, value).Set? ==>
      var place := Resolve(tree, path).value;
      NodeAt(SetVar(lib, tree, path, value).tree, place) == Some(Convert(lib, NodeAt(tree, place).value, value).tree)
    decreases |path|
  {
    if |path| > 0 && Select(tree, path[0]).Some? {
      SetVarResolves(lib, Child(tree, Select(tree, path[0]).value), path[1..], value);
    }
  }

  /** An update changes no node's kind, no key set and no list length. */
  lemma {:induction false} SetVarKeepsShape(lib: Library, tree: Json, path: Path, value: Json)
    requires SetVar(lib, tree, path, value).Set?
    ensures SameShape(tree, SetVar(lib, tree, path, value).tree)
    decreases |path|
  {
    if |path| > 0 {
      var step := Select(tree, path[0]).value;
      SameShapeReflexive(tree);
      SetVarKeepsShape(lib, Child(tree, step), path[1..], value);
      PutFacts(tree, step, SetVar(lib, Child(tree, step), path[1..], value).tree);
    }
  }

  /** Neither place is inside the other. */
  predicate Apart(p: Place, q: Place)
    decreases |p|
  {
    p != [] && q != [] && (p[0] != q[0] || Apart(p[1..], q[1..]))
  }

  /** An update leaves every place apart from its own as it was. */
  lemma {:induction false} SetVarElsewhere(lib: Library, tree: Json, path: Path, value: Json, place: Place)
    requires SetVar(lib, tree, path, value).Set? && Resolve(tree, path).Some?
    requires Apart(Resolve(tree, path).value, place)
    ensures NodeAt(SetVar(lib, tree, path, value).tree, place) == NodeAt(tree, place)
    decreases |path|
  {
    var step := Select(tree, path[0]).value;
    PutFacts(tree, step, SetVar(lib, Child(tree, step), path[1..], value).tree);
    if place[0] == step {
      SetVarElsewhere(lib, Child(tree, step), path[1..], value, place[1..]);
    }
  }

  /** Trees of one shape have the same places, with nodes of one shape. */
  lemma {:induction false} SameShapeResolves(a: Json, b: Json, path: Path)
    requires SameShape(a, b)
    ensures Resolve(a, path) == Resolve(b, path)
    ensures Resolve(a, path).Some? ==>
      var place := Resolve(a, path).value;
      NodeAt(a, place).Some? && NodeAt(b, place).Some? && SameShape(NodeAt(a, place).value, NodeAt(b, place).value)
    decreases |path|
  {
    if |path| > 0 {
      SameShapeSelects(a, b, path[0]);
      if Select(a, path[0]).Some? {
        var step := Select(a, path[0]).value;
        SameShapeResolves(Child(a, step), Child(b, step), path[1..]);
      }
    }
  }

  lemma SameShapeSelects(a: Json, b: Json, part: string)
    requires SameShape(a, b)
    ensures Select(a, part) == Select(b, part)
  {
    assert HasStep(a, Key(part)) == HasStep(b, Key(part));
    var (index, ok) := Atoi(part);
    if index >= 0 { assert HasStep(a, Index(index)) == HasStep(b, Index(index)); }
  }

  /** Places of leaves are equal or apart. */
  lemma {:induction false} LeavesAreApart(tree: Json, p: Place, q: Place)
    requires NodeAt(tree, p).Some? && Scalar(NodeAt(tree, p).value)
    requires NodeAt(tree, q).Some? && Scalar(NodeAt(tree, q).value)
    ensures p == q || Apart(p, q)
    decreases |p|
  {
    if p != [] && q != [] && p[0] == q[0] {
      LeavesAreApart(Child(tree, p[0]), p[1..], q[1..]);
      assert p == [p[0]] + p[1..] && q == [q[0]] + q[1..];
    }
  }

  /** A successful update one level down. */
  lemma SetVarStep(lib: Library, tree: Json, path: Path, value: Json) returns (step: Step)
    requires SetVar(lib, tree, path, value).Set? && |path| > 0
    ensures HasStep(tree, step) && Select(tree, path[0]) == Some(step)
    ensures SetVar(lib, Child(tree, step), path[1..], value).Set?
    ensures SetVar(lib, tree, path, value).tree
       == Put(tree, step, SetVar(lib, Child(tree, step), path[1..], value).tree)
    ensures Resolve(tree, path).Some? && |Resolve(tree, path).value| > 0
    ensures Resolve(tree, path).value[0] == step
    ensures Resolve(Child(tree, step), path[1..]) == Some(Resolve(tree, path).value[1..])
  {
    SetVarResolves(lib, tree, path, value);
    step := Select(tree, path[0]).value;
  }

  /** Updates at places that are apart commute. */
  lemma {:induction false} SetVarCommutes(lib: Library, tree: Json, p: Path, v: Json, q: Path, w: Json)
    requires SetVar(lib, tree, p, v).Set? && SetVar(lib, tree, q, w).Set?
    requires Resolve(tree, p).Some? && Resolve(tree, q).Some? && Apart(Resolve(tree, p).value, Resolve(tree, q).value)
    ensures SetVar(lib, SetVar(lib, tree, p, v).tree, q, w).Set?
    ensures SetVar(lib, SetVar(lib, tree, p, v).tree, q, w) == SetVar(lib, SetVar(lib, tree, q, w).tree, p, v)
    decreases |p|
  {
    var s := SetVarStep(lib, tree, p, v);
    var t := SetVarStep(lib, tree, q, w);
    var x, y := SetVar(lib, Child(tree, s), p[1..], v).tree, SetVar(lib, Child(tree, t), q[1..], w).tree;
    PutFacts(tree, s, x);
    PutFacts(tree, t, y);
    if s == t {
      SetVarCommutes(lib, Child(tree, s), p[1..], v, q[1..], w);
      var z := SetVar(lib, x, q[1..], w).tree;
      PutTwice(tree, s, x, s, z);
      PutTwice(tree, s, y, s, z);
    } else {
      PutTwice(tree, s, x, t, y);
    }
  }

  /** A second update of the same leaf replaces the first. */
  lemma {:induction false} SetVarReplaces(lib: Library, tree: Json, p: Path, v: Json, q: Path, w: Json)
    requires SetVar(lib, tree, p, v).Set? && SetVar(lib, tree, q, w).Set?
    requires Resolve(tree, p) == Resolve(tree, q)
    ensures SetVar(lib, SetVar(lib, tree, p, v).tree, q, w) == SetVar(lib, tree, q, w)
    decreases |p|
  {
    if |p| > 0 {
      var s := SetVarStep(lib, tree, p, v);
      assert |q| > 0;
      var t := SetVarStep(lib, tree, q, w);
      var x := SetVar(lib, Child(tree, s), p[1..], v).tree;
      PutFacts(tree, s, x);
      SetVarReplaces(lib, Child(tree, s), p[1..], v, q[1..], w);
      PutTwice(tree, s, x, s, SetVar(lib, x, q[1..], w).tree);
    } else if |q| > 0 {
      var t := SetVarStep(lib, tree, q, w);
    }
  }

  /** The leaf a successful update writes. */
  function Leaf(lib: Library, tree: Json, path: Path, value: Json): Json
    requires Resolve(tree, path).Some? && NodeAt(tree, Resolve(tree, path).value).Some?
  {
    Convert(lib, NodeAt(tree, Resolve(tree, path).value).value, value).tree
  }

  /** Updates of one place give one tree exactly if they write one leaf. */
  lemma SameLeaf(lib: Library, tree: Json, p: Path, v: Json, q: Path, w: Json)
    requires SetVar(lib, tree, p, v).Set? && SetVar(lib, tree, q, w).Set?
    requires Resolve(tree, p) == Resolve(tree, q)
    ensures Resolve(tree, p).Some? && NodeAt(tree, Resolve(tree, p).value).Some?
    ensures SetVar(lib, tree, p, v) == SetVar(lib, tree, q, w) <==> Leaf(lib, tree, p, v) == Leaf(lib, tree, q, w)
  {
    SetVarResolves(lib, tree, p, v);
    SetVarResolves(lib, tree, q, w);
    if Leaf(lib, tree, p, v) == Leaf(lib, tree, q, w) { SameLeafSameTree(lib, tree, p, v, q, w); }
  }

  lemma {:induction false} SameLeafSameTree(lib: Library, tree: Json, p: Path, v: Json, q: Path, w: Json)
    requires SetVar(lib, tree, p, v).Set? && SetVar(lib, tree, q, w).Set?
    requires Resolve(tree, p) == Resolve(tree, q)
    requires Resolve(tree, p).Some? && NodeAt(tree, Resolve(tree, p).value).Some?
    requires Leaf(lib, tree, p, v) == Leaf(lib, tree, q, w)
    ensures SetVar(lib, tree, p, v) == SetVar(lib, tree, q, w)
    decreases |p|
  {
    if |p| > 0 {
      var s := SetVarStep(lib, tree, p, v);
      var t := SetVarStep(lib, tree, q, w);
      SameLeafSameTree(lib, Child(tree, s), p[1..], v, q[1..], w);
    } else if |q| > 0 {
      var t := SetVarStep(lib, tree, q, w);
    }
  }

  /** What a failed conversion leaves is the element again: the number or bool a failed parse gives is
      the one already there, or the refused value equals the element. */
  predicate LeavesElement(lib: Library, element: Json, value: Json) {
    match value
    case Str(v) => (
      match element
      case Int(i) => i == Atoi(v).0
      case Bool(b) => !b
      case Float(f) => f == lib.parseFloat(v).0
      case _ => false
    )
    case Null => element == value
    case List(_) => element == value
    case Obj(_) => element == value
    case _ => false
  }

  /** A failed update below the element, by error or recovered panic, changes nothing; one of the element
      itself replaces it, unless what it leaves is the same. */
  lemma FailureChangesNothing(lib: Library, tree: Json, path: Path, value: Json)
    requires SetVar(lib, tree, path, value).Failed?
    ensures SetVar(lib, tree, path, value).tree == tree <==> path != [] || LeavesElement(lib, tree, value)
  {
  }

  /** Two updates that succeed commute, or the later one decides. */
  lemma BothSet(lib: Library, tree: Json, a: Path, v: Json, b: Path, w: Json)
    requires SetVar(lib, tree, a, v).Set? && SetVar(lib, tree, b, w).Set?
    ensures var va, wb := SetVar(lib, tree, a, v).tree, SetVar(lib, tree, b, w).tree;
            if Resolve(tree, a) == Resolve(tree, b)
            then SetVar(lib, va, b, w) == Set(wb) && SetVar(lib, wb, a, v) == Set(va)
            else SetVar(lib, va, b, w) == SetVar(lib, wb, a, v)
  {
    SetVarResolves(lib, tree, a, v);
    SetVarResolves(lib, tree, b, w);
    var x, y := Resolve(tree, a).value, Resolve(tree, b).value;
    LeavesAreApart(tree, x, y);
    if x == y {
      SetVarReplaces(lib, tree, a, v, b, w);
      SetVarReplaces(lib, tree, b, w, a, v);
    } else {
      SetVarCommutes(lib, tree, a, v, b, w);
    }
  }

  /** Whether a parameter can be set, and where, depends on the shape of the tree only. */
  lemma StillSet(lib: Library, tree: Json, tree': Json, path: Path, value: Json)
    requires SameShape(tree, tree')
    ensures SetVar(lib, tree', path, value).Set? == SetVar(lib, tree, path, value).Set?
    ensures Resolve(tree', path) == Resolve(tree, path)
  {
    SetVarResolves(lib, tree, path, value);
    SetVarResolves(lib, tree', path, value);
    SameShapeResolves(tree, tree', path);
  }

  lemma LeafOnShape(lib: Library, tree: Json, tree': Json, path: Path, value: Json)
    requires SameShape(tree, tree') && SetVar(lib, tree, path, value).Set?
    ensures Resolve(tree, path).Some? && NodeAt(tree, Resolve(tree, path).value).Some?
    ensures Resolve(tree', path).Some? && NodeAt(tree', Resolve(tree', path).value).Some?
    ensures Leaf(lib, tree', path, value) == Leaf(lib, tree, path, value)
  {
    SetVarResolves(lib, tree, path, value);
    SameShapeResolves(tree, tree', path);
  }

  lemma SameTreeOnShape(lib: Library, tree: Json, tree': Json, a: Path, v: Json, b: Path, w: Json)
    requires SameShape(tree, tree') && Resolve(tree, a) == Resolve(tree, b) && Resolve(tree', a) == Resolve(tree', b)
    requires SetVar(lib, tree, a, v).Set? && SetVar(lib, tree, b, w).Set?
    requires SetVar(lib, tree', a, v).Set? && SetVar(lib, tree', b, w).Set?
    ensures SetVar(lib, tree, a, v) == SetVar(lib, tree, b, w) <==> SetVar(lib, tree', a, v) == SetVar(lib, tree', b, w)
  {
    SameLeaf(lib, tree, a, v, b, w);
    SameLeaf(lib, tree', a, v, b, w);
    LeafOnShape(lib, tree, tree', a, v);
    LeafOnShape(lib, tree, tree', b, w);
  }

  /** A scalar put into an element of its own kind is written as it is. */
  lemma OwnKindIsWritten(lib: Library, element: Json, value: Json)
    requires Scalar(element) && SameKind(element, value)
    ensures Convert(lib, element, value) == Set(value)
  {
  }

  /** What is written into an element of another kind: a number is true from 1 on; a bool is 1 or 0 as a number
      and "true" or "false" as a text; an int is the same real; a text is read as Go's `strconv` reads it. */
  lemma OtherKindsAreWritten(lib: Library, s: string, i: int, b: bool, f: real, w: string, j: int, c: bool, g: real)
    ensures Convert(lib, Bool(c), Int(i)).tree.b <==> i > 0
    ensures Convert(lib, Bool(c), Float(f)).tree.b <==> f >= 1.0
    ensures Convert(lib, Float(g), Int(i)) == Set(Float(i as real))
    ensures Convert(lib, Float(g), Bool(b)) == Set(Float(if b then 1.0 else 0.0))
    ensures Convert(lib, Int(j), Bool(b)) == Set(Int(if b then 1 else 0))
    ensures Convert(lib, Int(j), Float(f)) == Set(Int(lib.truncate(f)))
    ensures Convert(lib, Str(w), Bool(b)) == Set(Str(if b then "true" else "false"))
    ensures Convert(lib, Str(w), Float(f)) == Set(Str(lib.formatFloat(f)))
    ensures MIN_INT <= i <= MAX_INT ==>
      Convert(lib, Str(w), Int(i)).Set? && Convert(lib, Str(w), Int(i)).tree.Str?
      && Atoi(Convert(lib, Str(w), Int(i)).tree.s) == (i, true)
    ensures Atoi(s) == (i, true) ==> Convert(lib, Int(j), Str(s)) == Set(Int(i))
    ensures lib.parseFloat(s) == (f, true) ==> Convert(lib, Float(g), Str(s)) == Set(Float(f))
    ensures s in {"1", "t", "T", "TRUE", "true", "True"} ==> Convert(lib, Bool(c), Str(s)) == Set(Bool(true))
    ensures s in {"0", "f", "F", "FALSE", "false", "False"} ==> Convert(lib, Bool(c), Str(s)) == Set(Bool(false))
  {
    if MIN_INT <= i <= MAX_INT { AtoiUndoesItoa(i); }
  }

  /** A text that can be read as a scalar of this kind. */
  predicate IsReadable(lib: Library, element: Json, text: string) {
    match element
    case Str(_) => true
    case Int(_) => Atoi(text).1
    case Float(_) => lib.parseFloat(text).1
    case Bool(_) =>
      text in {"1", "t", "T", "TRUE", "true", "True", "0", "f", "F", "FALSE", "false", "False"}
    case _ => false
  }

  /** An update can be made exactly between scalars, from a text only if it can be read; the kind stays. */
  lemma ConvertsIff(lib: Library, element: Json, value: Json)
    ensures Convert(lib, element, value).Set? <==>
      Scalar(element) && Scalar(value) && (value.Str? ==> IsReadable(lib, element, value.s))
    ensures Convert(lib, element, value).Set? ==> SameKind(element, Convert(lib, element, value).tree)
  {
  }

  /** What a refused update of the whole input leaves there: a scalar of the same kind if only the text could not
      be read; else the value itself, but nil where a container should take the JSON of its text. */
  lemma RefusedLeaves(lib: Library, element: Json, value: Json)
    requires Convert(lib, element, value).Failed?
    ensures var left := Convert(lib, element, value).tree;
            && (Scalar(element) && Scalar(value) ==>
                 && SameKind(left, element)
                 && (left.Bool? ==> !left.b)
                 && (left.Int? ==> left.i == 0 || left.i == MAX_INT || left.i == MIN_INT))
            && (!Scalar(element) || !Scalar(value) ==>
                 if (element.List? || element.Obj?) && value.Str? && lib.isJson(value.s) then left == Null
                 else left == value)
  {
  }

  /** After a successful update the value itself is at the place, if it has the kind of what was there. */
  lemma ValueIsWritten(lib: Library, tree: Json, path: Path, value: Json)
    requires SetVar(lib, tree, path, value).Set?
    ensures Resolve(tree, path).Some? && NodeAt(tree, Resolve(tree, path).value).Some?
    ensures var place := Resolve(tree, path).value;
            SameKind(NodeAt(tree, place).value, value) ==>
              NodeAt(SetVar(lib, tree, path, value).tree, place) == Some(value)
  {
    SetVarResolves(lib, tree, path, value);
    var element := NodeAt(tree, Resolve(tree, path).value).value;
    ConvertsIff(lib, element, value);
    if SameKind(element, value) { OwnKindIsWritten(lib, element, value); }
  }

  /** A path goes on below the field its first part names, and a field that is not there is an error. */
  lemma SetVarInField(lib: Library, fields: map<string, Json>, name: string, rest: Path, value: Json)
    ensures name !in fields ==> SetVar(lib, Obj(fields), [name] + rest, value) == Failed(Obj(fields))
    ensures name in fields ==>
      SetVar(lib, Obj(fields), [name] + rest, value)
      == match SetVar(lib, fields[name], rest, value)
         case Set(below) => Set(Obj(fields[name := below]))
         case Failed(_) => Failed(Obj(fields))
  {
    assert ([name] + rest)[1..] == rest;
  }

  /** Or below the item whose index it spells; a text that spells no index of the list is an error. */
  lemma SetVarInItem(lib: Library, items: seq<Json>, part: string, rest: Path, value: Json)
    ensures !(Atoi(part).1 && 0 <= Atoi(part).0 < |items|) ==>
      SetVar(lib, List(items), [part] + rest, value) == Failed(List(items))
    ensures forall i :: Atoi(part) == (i, true) && 0 <= i < |items| ==>
      SetVar(lib, List(items), [part] + rest, value)
      == match SetVar(lib, items[i], rest, value)
         case Set(below) => Set(List(items[i := below]))
         case Failed(_) => Failed(List(items))
  {
    assert ([part] + rest)[1..] == rest;
  }

  /** Places are read the same way. */
  lemma NodeAtIs(fields: map<string, Json>, items: seq<Json>, name: string, i: nat, rest: Place)
    ensures NodeAt(Obj(fields), [Key(name)] + rest) == if name in fields then NodeAt(fields[name], rest) else None
    ensures NodeAt(List(items), [Index(i)] + rest) == if i < |items| then NodeAt(items[i], rest) else None
  {
    assert ([Key(name)] + rest)[1..] == rest && ([Index(i)] + rest)[1..] == rest;
  }
}
