/** `setPath` of lib/event.go on the Go maps it fills in place. */
module NestedObject {
  import opened Values
  import opened Paths
  import Nested

  /** An answered value that is no map, or a reference to a map. */
  datatype Value = Leaf(value: Json) | Ref(node: MapNode)

  class MapNode {
    var fields: map<string, Value>
    ghost var tree: Nested.Fields
    ghost var Repr: set<MapNode>

    constructor ()
      ensures Valid() && tree == map[] && fresh(Repr)
    {
      fields, tree, Repr := map[], map[], {this};
    }

    /** The maps below form a tree, and `tree` is the value they show. */
    ghost predicate Valid()
      reads this, Repr
      decreases Repr, 1
    {
      ValidBut("", false)
    }

    /** The same while, with `open`, the map in one field shows something new. */
    ghost predicate ValidBut(name: string, open: bool)
      reads this, Repr
      decreases Repr, 0
    {
      && this in Repr && tree.Keys == fields.Keys
      && (forall k :: k in fields && fields[k].Leaf? && !(open && k == name) ==>
           !fields[k].value.Obj? && tree[k] == fields[k].value)
      && (forall k :: k in fields && fields[k].Ref? && !(open && k == name) ==>
           var c := fields[k].node;
           c in Repr && c in c.Repr && c.Repr <= Repr && this !in c.Repr && c.Valid() && tree[k] == Obj(c.tree))
      && (forall k, l :: k in fields && l in fields && k != l && fields[k].Ref? && fields[l].Ref? ==>
           (open && (k == name || l == name)) || fields[k].node.Repr !! fields[l].node.Repr)
    }

    /** `orig[name] = v`. */
    method Put(name: string, v: Value)
      requires ValidBut(name, true) && Good(v) && this !in Footprint(v)
      requires forall k :: k in fields && k != name && fields[k].Ref? ==> fields[k].node.Repr !! Footprint(v)
      modifies this
      ensures Valid() && tree == old(tree)[name := TreeOf(v)] && Repr == old(Repr) + Footprint(v)
    {
      if v.Ref? { assert v.node.ValidBut("", false); }
      fields := fields[name := v];
      tree := tree[name := TreeOf(v)];
      Repr := Repr + Footprint(v);
      assert ValidBut("", false);
    }
  }

  ghost function TreeOf(v: Value): Json
    reads if v.Ref? then {v.node} else {}
  {
    if v.Ref? then Obj(v.node.tree) else v.value
  }

  ghost function Footprint(v: Value): set<MapNode>
    reads if v.Ref? then {v.node} else {}
  {
    if v.Ref? then v.node.Repr else {}
  }

  ghost predicate Good(v: Value)
    reads if v.Ref? then {v.node} + v.node.Repr else {}
  {
    if v.Ref? then v.node.Valid() else !v.value.Obj?
  }

  /** `setPath`: afterwards the maps show exactly the value that setting the path gives; a value in the
      way that is no map leaves them as they were. */
  method SetPath(orig: MapNode, path: Path, value: Value)
    requires orig.Valid() && Good(value) && Footprint(value) !! orig.Repr
    modifies orig.Repr
    ensures orig.Valid() && orig.tree == Nested.SetPath(old(orig.tree), path, old(TreeOf(value)))
    ensures old(orig.Repr) <= orig.Repr && fresh(orig.Repr - old(orig.Repr) - old(Footprint(value)))
    ensures Footprint(value) == old(Footprint(value))
    decreases |path|
  {
    assert orig.ValidBut("", false);
    if value.Ref? { assert value.node.ValidBut("", false); }
    if |path| == 0 { return; }
    var first := path[0];
    if |path| == 1 {
      orig.Put(first, value);
    } else if first !in orig.fields {
      var sub := new MapNode();
      SetPath(sub, path[1..], value);
      assert orig.ValidBut(first, true);
      orig.Put(first, Ref(sub));
    } else if orig.fields[first].Ref? {
      var sub := orig.fields[first].node;
      SetPath(sub, path[1..], value);
      assert orig.ValidBut(first, true);
      orig.Put(first, Ref(sub));
    }
  }
}
