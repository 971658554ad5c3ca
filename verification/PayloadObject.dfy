/** `setVarOnPath` on the maps and slices it changes in place, and the loop of `setPayloadParameter`. */
module PayloadObject {
  import opened Values
  import opened Paths
  import opened Decimal
  import opened Payload
  import opened SetPayload
  import opened Orders

  /** A Go `interface{}`: nil or a scalar, or a reference to a map or a slice. */
  datatype Value = Leaf(value: Json) | Ref(node: Container)

  /** A Go map or slice. Decoded JSON shares no container. */
  class Container {
    const isMap: bool
    var fields: map<string, Value>
    var items: seq<Value>
    ghost var tree: Json
    ghost var Repr: set<Container>

    predicate Has(step: Step)
      reads this
    {
      match step case Key(key) => isMap && key in fields case Index(index) => !isMap && index < |items|
    }

    function Slot(step: Step): Value
      requires Has(step)
      reads this
    {
      match step case Key(key) => fields[key] case Index(index) => items[index]
    }

    /** The containers below form a tree, and `tree` is the value they show. */
    ghost predicate Valid()
      reads this, Repr
      decreases Repr, 1
    {
      ValidBut(None)
    }

    /** The same while the container in one slot shows something new. */
    ghost predicate ValidBut(hole: Option<Step>)
      reads this, Repr
      decreases Repr, 0
    {
      && this in Repr
      && (if isMap then tree.Obj? && tree.fields.Keys == fields.Keys else tree.List? && |tree.items| == |items|)
      && (forall s :: Has(s) ==> HasStep(tree, s))
      && (forall s :: Has(s) && Slot(s).Leaf? ==> IsLeaf(Slot(s).value) && Child(tree, s) == Slot(s).value)
      && (forall s :: Has(s) && Slot(s).Ref? ==>
           var c := Slot(s).node;
           && c in Repr && c in c.Repr && c.Repr <= Repr && this !in c.Repr && c.Valid()
           && (Some(s) != hole ==> Child(tree, s) == c.tree))
      && (forall s, t :: Has(s) && Has(t) && s != t && Slot(s).Ref? && Slot(t).Ref? ==>
           Slot(s).node.Repr !! Slot(t).node.Repr)
    }

    /** `SetMapIndex` or `Index(i).Set`, with a leaf or the container that is there. */
    method Assign(step: Step, v: Value)
      requires Has(step) && ValidBut(Some(step)) && (if v.Leaf? then IsLeaf(v.value) else v == Slot(step))
      modifies this`fields, this`items, this`tree
      ensures Valid() && tree == Put(old(tree), step, TreeOf(v))
    {
      PutFacts(tree, step, TreeOf(v));
      tree := Put(tree, step, TreeOf(v));
      match step {
        case Key(key) => fields := fields[key := v];
        case Index(index) => items := items[index := v];
      }
      assert Slot(step) == v;
      assert forall s :: Has(s) == old(Has(s));
      assert forall s :: Has(s) && s != step ==> Slot(s) == old(Slot(s));
      assert ValidBut(None);
    }
  }

  predicate IsLeaf(v: Json) {
    !v.Obj? && !v.List?
  }

  ghost function TreeOf(v: Value): Json
    reads if v.Ref? then {v.node} else {}
  {
    if v.Ref? then v.node.tree else v.value
  }

  ghost function Footprint(v: Value): set<Container>
    reads if v.Ref? then {v.node} else {}
  {
    if v.Ref? then v.node.Repr else {}
  }

  ghost predicate Good(v: Value)
    reads if v.Ref? then {v.node} + v.node.Repr else {}
  {
    if v.Ref? then v.node.Valid() else IsLeaf(v.value)
  }

  /** The kind of a value; what a container holds does not matter to a conversion. */
  function KindOf(v: Value): Json {
    if v.Leaf? then v.value else if v.node.isMap then Obj(map[]) else List([])
  }

  lemma ConvertByKind(lib: Library, element: Value, value: Value)
    requires Good(element) && Good(value)
    ensures value.Leaf? ==> Convert(lib, TreeOf(element), TreeOf(value)) == Convert(lib, KindOf(element), value.value)
    ensures value.Leaf? ==> IsLeaf(Convert(lib, TreeOf(element), TreeOf(value)).tree)
    ensures value.Ref? ==> Convert(lib, TreeOf(element), TreeOf(value)) == Failed(TreeOf(value))
  {
    assert element.Ref? ==> element.node.ValidBut(None);
    assert value.Ref? ==> value.node.ValidBut(None);
  }

  /** The slot a part of a path names. */
  method SelectSlot(c: Container, part: string) returns (step: Option<Step>)
    requires c.Valid()
    ensures step == Select(c.tree, part)
    ensures step.Some? ==> c.Has(step.value)
  {
    assert c.ValidBut(None);
    if c.isMap {
      return if part in c.fields then Some(Key(part)) else None;
    }
    var (index, ok) := Atoi(part);
    if !ok || index < 0 || index >= |c.items| { return None; }
    return Some(Index(index));
  }

  /** `setVarOnPath`: the result and the containers below it show exactly the updated value, and
      nothing outside the element is touched. */
  method SetVarOnPath(lib: Library, element: Value, path: Path, value: Value) returns (result: Value, ok: bool)
    requires Good(element) && Good(value) && Footprint(element) !! Footprint(value)
    modifies if path == [] then {} else Footprint(element)
    ensures Good(result) && FromGo(TreeOf(result), ok) == SetVar(lib, old(TreeOf(element)), path, old(TreeOf(value)))
    ensures if path == [] then result.Leaf? || result == value else result == element
    ensures ok && path == [] ==> result.Leaf?
    ensures Good(element) && Footprint(element) == old(Footprint(element))
    ensures !ok ==> TreeOf(element) == old(TreeOf(element))
    decreases |path|
  {
    if |path| == 0 {
      ConvertByKind(lib, element, value);
      if value.Ref? { return value, false; }
      var r := Convert(lib, KindOf(element), value.value);
      return Leaf(r.tree), r.Set?;
    }
    if element.Leaf? { return element, false; }
    var c := element.node;
    var step := SelectSlot(c, path[0]);
    if step.None? { return element, false; }
    assert c.ValidBut(None);
    var sub := c.Slot(step.value);
    assert Good(sub) && TreeOf(sub) == Child(c.tree, step.value);
    var r, set' := SetVarOnPath(lib, sub, path[1..], value);
    forall s | c.Has(s) && c.Slot(s).Ref? && Some(s) != step
      ensures c.Slot(s).node.Valid() && Child(c.tree, s) == c.Slot(s).node.tree
    {
      assert Footprint(sub) !! c.Slot(s).node.Repr;
    }
    assert c.ValidBut(step);
    if !set' {
      assert c.ValidBut(None);
      return element, false;
    }
    c.Assign(step.value, r);
    return element, true;
  }

  /** The part of `messages.Command` that holds the payload. */
  class Message {
    var input: Value

    constructor (input: Value)
      ensures this.input == input
    {
      this.input := input;
    }
  }

  type Variables = map<string, Value>

  ghost function Trees(parameter: Variables): Parameters
    reads *
  {
    map name | name in parameter :: TreeOf(parameter[name])
  }

  ghost function Containers(parameter: Variables): set<Container>
    reads *
  {
    set name, c | name in parameter && c in Footprint(parameter[name]) :: c
  }

  /** Parameters still to be set, with the values they show: trees that share nothing with each other
      or the input. */
  ghost predicate Pending(input: Value, parameter: Variables, rest: set<string>, trees: Parameters)
    reads *
  {
    && rest <= parameter.Keys && rest <= trees.Keys && Good(input)
    && (forall name :: name in rest ==>
         && Good(parameter[name]) && Footprint(parameter[name]) !! Footprint(input)
         && TreeOf(parameter[name]) == trees[name])
    && (forall m, n :: m in rest && n in rest && m != n ==> Footprint(parameter[m]) !! Footprint(parameter[n]))
  }

  /** One parameter: without a name it replaces the input. */
  method SetParameter(lib: Library, msg: Message, name: string, value: Value) returns (ok: bool)
    requires Good(msg.input) && Good(value) && Footprint(msg.input) !! Footprint(value)
    modifies msg, Footprint(msg.input)
    ensures Good(msg.input)
    ensures FromGo(TreeOf(msg.input), ok) == Apply(lib, old(TreeOf(msg.input)), name, old(TreeOf(value)))
    ensures Footprint(msg.input) <= old(Footprint(msg.input)) + old(Footprint(value))
  {
    if name == "" {
      msg.input, ok := SetVarOnPath(lib, msg.input, [], value);
    } else {
      var _, set' := SetVarOnPath(lib, msg.input, Split(name), value);
      ok := set';
    }
  }

  /** One round of the loop. */
  method SetNext(lib: Library, msg: Message, parameter: Variables, rest: set<string>, name: string,
                 ghost trees: Parameters)
    returns (ok: bool)
    requires name in rest && Pending(msg.input, parameter, rest, trees)
    modifies msg, Footprint(msg.input)
    ensures Pending(msg.input, parameter, rest - {name}, trees)
    ensures FromGo(TreeOf(msg.input), ok) == Apply(lib, old(TreeOf(msg.input)), name, trees[name])
    ensures Footprint(msg.input) <= old(Footprint(msg.input)) + old(Footprint(parameter[name]))
    ensures forall n :: n in rest - {name} ==> Footprint(parameter[n]) == old(Footprint(parameter[n]))
  {
    ghost var before := Footprint(msg.input);
    forall n | n in rest - {name} ensures ContainersAreOwned(parameter[n]) { OwnsItself(parameter[n]); }
    ok := SetParameter(lib, msg, name, parameter[name]);
    forall n | n in rest - {name}
      ensures Good(parameter[n]) && TreeOf(parameter[n]) == trees[n]
      ensures Footprint(parameter[n]) == old(Footprint(parameter[n]))
    {
      assert old(Footprint(parameter[n])) !! before;
    }
  }

  ghost predicate ContainersAreOwned(v: Value)
    reads if v.Ref? then {v.node} else {}
  {
    v.Ref? ==> v.node in v.node.Repr
  }

  lemma OwnsItself(v: Value)
    requires Good(v)
    ensures ContainersAreOwned(v)
  {
    if v.Ref? { assert v.node.ValidBut(None); }
  }

  /** `setPayloadParameter`: the parameters are set one after the other, in the order the Go map gives them,
      and the error is that of the last one. */
  method SetPayloadParameter(lib: Library, msg: Message, parameter: Variables)
    returns (ok: bool, ghost order: seq<string>)
    requires Pending(msg.input, parameter, parameter.Keys, Trees(parameter))
    modifies msg, Footprint(msg.input), Containers(parameter)
    ensures Good(msg.input) && Lists(order, parameter.Keys)
    ensures FromGo(TreeOf(msg.input), ok) == ApplyAll(lib, old(TreeOf(msg.input)), order, old(Trees(parameter)))
  {
    ghost var trees, tree := Trees(parameter), TreeOf(msg.input);
    assert trees.Keys == parameter.Keys;
    ghost var all := Footprint(msg.input) + Containers(parameter);
    var rest := parameter.Keys;
    ok, order := true, [];
    while rest != {}
      invariant multiset(order) + multiset(rest) == multiset(parameter.Keys)
      invariant Pending(msg.input, parameter, rest, trees)
      invariant Footprint(msg.input) <= all && forall name :: name in rest ==> Footprint(parameter[name]) <= all
      invariant FromGo(TreeOf(msg.input), ok) == ApplyAll(lib, tree, order, trees)
    {
      var name :| name in rest;
      ok := SetNext(lib, msg, parameter, rest, name, trees);
      ApplyOneMore(lib, tree, order, name, trees);
      assert rest == (rest - {name}) + {name};
      order, rest := order + [name], rest - {name};
    }
  }
}
