/** `setPayloadParameter` of lib/command.go: what it leaves in the input, and the error it returns. */
module SetPayload {
  import opened Values
  import opened Paths
  import opened Decimal
  import opened Sorting
  import opened Orders
  import opened Payload

  type Parameters = map<string, Json>

  /** A parameter without a name is set on the whole input. */
  function PathOf(name: string): Path {
    if name == "" then [] else Split(name)
  }

  /** One round of the loop: the input and the error after it. Without a name the round replaces the
      input by whatever `setVarOnPath` returns; with a name it changes the input in place. */
  function Apply(lib: Library, tree: Json, name: string, value: Json): Outcome {
    SetVar(lib, tree, PathOf(name), value)
  }

  function Round(lib: Library, parameters: Parameters): (Outcome, string) -> Outcome {
    (o: Outcome, name: string) => if name in parameters then Apply(lib, o.tree, name, parameters[name]) else o
  }

  /** The loop, with its parameters in the order the Go map gives them. The error is that of the last one. */
  function ApplyAll(lib: Library, tree: Json, order: seq<string>, parameters: Parameters): Outcome {
    Fold(Round(lib, parameters), Set(tree), order)
  }

  lemma ApplyOneMore(lib: Library, tree: Json, order: seq<string>, name: string, parameters: Parameters)
    requires name in parameters
    ensures ApplyAll(lib, tree, order + [name], parameters)
         == Apply(lib, ApplyAll(lib, tree, order, parameters).tree, name, parameters[name])
  {
    assert (order + [name])[..|order|] == order;
  }

  lemma NamedKeepsShape(lib: Library, tree: Json, name: string, value: Json)
    requires name != ""
    ensures SameShape(tree, Apply(lib, tree, name, value).tree)
  {
    PathKeepsShape(lib, tree, PathOf(name), value);
  }

  /** What the parameter without a name makes of the input depends on the kind of the input only. */
  lemma UnnamedOnShape(lib: Library, tree: Json, tree': Json, value: Json)
    requires SameShape(tree, tree')
    ensures SetVar(lib, tree', [], value) == SetVar(lib, tree, [], value)
  {
  }

  /** Which of two updates comes first matters to the input. Two that go below it clash if both can be set,
      at one place, to different values; one that goes below it clashes with one of the whole input if it
      changes what that leaves. */
  predicate Clash(lib: Library, tree: Json, a: Path, v: Json, b: Path, w: Json) {
    if a == [] then Disturbs(lib, tree, a, v, b, w)
    else if b == [] then Disturbs(lib, tree, b, w, a, v)
    else Overwrites(lib, tree, a, v, b, w)
  }

  predicate Overwrites(lib: Library, tree: Json, a: Path, v: Json, b: Path, w: Json) {
    && SetVar(lib, tree, a, v).Set? && SetVar(lib, tree, b, w).Set?
    && Resolve(tree, a) == Resolve(tree, b) && SetVar(lib, tree, a, v) != SetVar(lib, tree, b, w)
  }

  /** The second update changes what the first one leaves. */
  predicate Disturbs(lib: Library, tree: Json, a: Path, v: Json, b: Path, w: Json) {
    var left := SetVar(lib, tree, a, v).tree;
    SetVar(lib, left, b, w).tree != left
  }

  /** Both orders leave the same input. */
  predicate InEitherOrder(lib: Library, tree: Json, a: Path, v: Json, b: Path, w: Json) {
    SetVar(lib, SetVar(lib, tree, a, v).tree, b, w).tree == SetVar(lib, SetVar(lib, tree, b, w).tree, a, v).tree
  }

  /** Two updates, at most one of the whole input, commute exactly if they do not clash. */
  lemma CommuteIffNoClash(lib: Library, tree: Json, a: Path, v: Json, b: Path, w: Json)
    requires a != [] || b != []
    ensures InEitherOrder(lib, tree, a, v, b, w) <==> !Clash(lib, tree, a, v, b, w)
  {
    if a == [] {
      UnnamedIff(lib, tree, a, v, b, w);
    } else if b == [] {
      UnnamedIff(lib, tree, b, w, a, v);
      Mirrored(lib, tree, a, v, b, w);
    } else {
      PathsCommute(lib, tree, a, v, b, w);
    }
  }

  lemma Mirrored(lib: Library, tree: Json, a: Path, v: Json, b: Path, w: Json)
    requires a != [] && b == []
    ensures InEitherOrder(lib, tree, a, v, b, w) == InEitherOrder(lib, tree, b, w, a, v)
    ensures Clash(lib, tree, a, v, b, w) == Clash(lib, tree, b, w, a, v)
  {
  }

  lemma UnnamedIff(lib: Library, tree: Json, a: Path, v: Json, b: Path, w: Json)
    requires a == [] && b != []
    ensures InEitherOrder(lib, tree, a, v, b, w) <==> !Clash(lib, tree, a, v, b, w)
  {
    PathKeepsShape(lib, tree, b, w);
    UnnamedOnShape(lib, tree, SetVar(lib, tree, b, w).tree, v);
  }

  lemma PathsCommute(lib: Library, tree: Json, a: Path, v: Json, b: Path, w: Json)
    requires a != [] && b != []
    ensures InEitherOrder(lib, tree, a, v, b, w) <==> !Clash(lib, tree, a, v, b, w)
  {
    if SetVar(lib, tree, a, v).Failed? {
      FailedCommutes(lib, tree, a, v, b, w);
    } else if SetVar(lib, tree, b, w).Failed? {
      FailedCommutes(lib, tree, b, w, a, v);
    } else {
      BothSet(lib, tree, a, v, b, w);
    }
  }

  lemma FailedCommutes(lib: Library, tree: Json, a: Path, v: Json, b: Path, w: Json)
    requires a != [] && b != [] && SetVar(lib, tree, a, v).Failed?
    ensures SetVar(lib, SetVar(lib, tree, a, v).tree, b, w).tree == SetVar(lib, SetVar(lib, tree, b, w).tree, a, v).tree
  {
    var after := SetVar(lib, tree, b, w).tree;
    FailureChangesNothing(lib, tree, a, v);
    PathKeepsShape(lib, tree, b, w);
    StillSet(lib, tree, after, a, v);
    FailureChangesNothing(lib, after, a, v);
  }

  lemma PathKeepsShape(lib: Library, tree: Json, path: Path, value: Json)
    requires path != []
    ensures SameShape(tree, SetVar(lib, tree, path, value).tree)
  {
    SameShapeReflexive(tree);
    if SetVar(lib, tree, path, value).Set? {
      SetVarKeepsShape(lib, tree, path, value);
    } else {
      FailureChangesNothing(lib, tree, path, value);
    }
  }

  /** A named parameter that cannot be set leaves the input as it was. */
  lemma FailedIsIdle(lib: Library, tree: Json, name: string, value: Json)
    requires name != ""
    ensures Apply(lib, tree, name, value).Failed? ==> Apply(lib, tree, name, value).tree == tree
  {
    if Apply(lib, tree, name, value).Failed? { FailureChangesNothing(lib, tree, PathOf(name), value); }
  }

  /** No two parameters clash. A parameter without a name wipes out all before it, so beside one only
      clashes with it count. */
  ghost predicate NoClash(lib: Library, tree: Json, parameters: Parameters) {
    forall p, q {:trigger Clash(lib, tree, PathOf(p), parameters[p], PathOf(q), parameters[q])} ::
      p in parameters && q in parameters && p != q && ("" in parameters ==> p == "") ==>
        !Clash(lib, tree, PathOf(p), parameters[p], PathOf(q), parameters[q])
  }

  /** Whether setting the parameter succeeds when it comes last: a named one then meets what the one
      without a name has left. */
  predicate SetsLast(lib: Library, tree: Json, parameters: Parameters, last: string)
    requires last in parameters
  {
    var before := if last != "" && "" in parameters then Apply(lib, tree, "", parameters[""]).tree else tree;
    Apply(lib, before, last, parameters[last]).Set?
  }

  /** Coming last, every parameter fails, or none does. */
  ghost predicate SameError(lib: Library, tree: Json, parameters: Parameters) {
    forall p, q :: p in parameters && q in parameters ==>
      SetsLast(lib, tree, parameters, p) == SetsLast(lib, tree, parameters, q)
  }

  /** The tree that sets the shape of the input after some rounds: the given one, or what the parameter
      without a name has left. */
  function Base(lib: Library, tree: Json, order: seq<string>, parameters: Parameters): Json
    requires "" in order ==> "" in parameters
  {
    if "" in order then Apply(lib, tree, "", parameters[""]).tree else tree
  }

  lemma {:induction false} ApplyAllKeepsShape(lib: Library, tree: Json, order: seq<string>, parameters: Parameters)
    requires (forall name :: name in order ==> name in parameters) && Once(order)
    ensures SameShape(Base(lib, tree, order, parameters), ApplyAll(lib, tree, order, parameters).tree)
  {
    if |order| == 0 {
      SameShapeReflexive(tree);
    } else {
      var n := |order| - 1;
      var init, last := order[..n], order[n];
      assert order == init + [last];
      ApplyAllKeepsShape(lib, tree, init, parameters);
      var before := ApplyAll(lib, tree, init, parameters).tree;
      if last == "" {
        UnnamedOnShape(lib, tree, before, parameters[last]);
        SameShapeReflexive(Apply(lib, tree, last, parameters[last]).tree);
      } else {
        NamedKeepsShape(lib, before, last, parameters[last]);
        SameShapeTransitive(Base(lib, tree, init, parameters), before, Apply(lib, before, last, parameters[last]).tree);
      }
    }
  }

  /** Clashing depends on the shape of the tree only. */
  lemma ClashOnShape(lib: Library, tree: Json, tree': Json, a: Path, v: Json, b: Path, w: Json)
    requires SameShape(tree, tree')
    ensures Clash(lib, tree', a, v, b, w) == Clash(lib, tree, a, v, b, w)
  {
    UnnamedOnShape(lib, tree, tree', v);
    UnnamedOnShape(lib, tree, tree', w);
    OverwritesOnShape(lib, tree, tree', a, v, b, w);
  }

  lemma OverwritesOnShape(lib: Library, tree: Json, tree': Json, a: Path, v: Json, b: Path, w: Json)
    requires SameShape(tree, tree')
    ensures Overwrites(lib, tree', a, v, b, w) == Overwrites(lib, tree, a, v, b, w)
  {
    StillSet(lib, tree, tree', a, v);
    StillSet(lib, tree, tree', b, w);
    if SetVar(lib, tree, a, v).Set? && SetVar(lib, tree, b, w).Set? && Resolve(tree, a) == Resolve(tree, b) {
      SameTreeOnShape(lib, tree, tree', a, v, b, w);
    }
  }

  /** The rounds on the input alone. */
  function Input(lib: Library, parameters: Parameters): (Json, string) -> Json {
    (tree: Json, name: string) => if name in parameters then Apply(lib, tree, name, parameters[name]).tree else tree
  }

  lemma {:induction false} InputIsFold(lib: Library, tree: Json, order: seq<string>, parameters: Parameters)
    ensures ApplyAll(lib, tree, order, parameters).tree == Fold(Input(lib, parameters), tree, order)
  {
    if |order| > 0 { InputIsFold(lib, tree, order[..|order| - 1], parameters); }
  }

  lemma NamedRounds(lib: Library, tree: Json, parameters: Parameters)
    requires NoClash(lib, tree, parameters) && "" !in parameters
    ensures Keep(Input(lib, parameters), t => SameShape(tree, t), parameters.Keys)
    ensures Commute(Input(lib, parameters), t => SameShape(tree, t), parameters.Keys)
  {
    forall t, p | SameShape(tree, t) && p in parameters ensures SameShape(tree, Input(lib, parameters)(t, p)) {
      NamedKeepsShape(lib, t, p, parameters[p]);
      SameShapeTransitive(tree, t, Apply(lib, t, p, parameters[p]).tree);
    }
    forall t, p, q | SameShape(tree, t) && p in parameters && q in parameters && p != q
      ensures Apply(lib, Apply(lib, t, p, parameters[p]).tree, q, parameters[q]).tree
           == Apply(lib, Apply(lib, t, q, parameters[q]).tree, p, parameters[p]).tree
    {
      ClashOnShape(lib, tree, t, PathOf(p), parameters[p], PathOf(q), parameters[q]);
      CommuteIffNoClash(lib, t, PathOf(p), parameters[p], PathOf(q), parameters[q]);
    }
  }

  lemma NamedInAnyOrder(lib: Library, tree: Json, a: seq<string>, b: seq<string>, parameters: Parameters)
    requires NoClash(lib, tree, parameters) && "" !in parameters
    requires Lists(a, parameters.Keys) && Lists(b, parameters.Keys)
    ensures ApplyAll(lib, tree, a, parameters).tree == ApplyAll(lib, tree, b, parameters).tree
  {
    NamedRounds(lib, tree, parameters);
    ListsOnce(b, parameters.Keys);
    SameShapeReflexive(tree);
    InputIsFold(lib, tree, a, parameters);
    InputIsFold(lib, tree, b, parameters);
    FoldInAnyOrder(Input(lib, parameters), t => SameShape(tree, t), parameters.Keys, tree, a, b);
  }

  /** Once the parameter without a name is set, parameters that do not clash with it change nothing. */
  lemma {:induction false} UnnamedStays(lib: Library, tree: Json, order: seq<string>, parameters: Parameters)
    requires (forall name :: name in order ==> name in parameters) && Once(order) && "" in order
    requires NoClash(lib, tree, parameters)
    ensures ApplyAll(lib, tree, order, parameters).tree == Apply(lib, tree, "", parameters[""]).tree
  {
    var n := |order| - 1;
    var init, last := order[..n], order[n];
    assert order == init + [last];
    if last == "" {
      ApplyAllKeepsShape(lib, tree, init, parameters);
      UnnamedOnShape(lib, tree, ApplyAll(lib, tree, init, parameters).tree, parameters[""]);
    } else {
      UnnamedStays(lib, tree, init, parameters);
      assert !Clash(lib, tree, PathOf(""), parameters[""], PathOf(last), parameters[last]);
    }
  }

  /** Every order of the Go map leaves the same input. */
  ghost predicate SameInputAlways(lib: Library, tree: Json, parameters: Parameters) {
    forall a, b :: Lists(a, parameters.Keys) && Lists(b, parameters.Keys) ==>
      ApplyAll(lib, tree, a, parameters).tree == ApplyAll(lib, tree, b, parameters).tree
  }

  /** In every order there is an error, or in none. */
  ghost predicate SameErrorAlways(lib: Library, tree: Json, parameters: Parameters) {
    forall a, b :: Lists(a, parameters.Keys) && Lists(b, parameters.Keys) ==>
      ApplyAll(lib, tree, a, parameters).Set? == ApplyAll(lib, tree, b, parameters).Set?
  }

  ghost predicate SameOutcomeAlways(lib: Library, tree: Json, parameters: Parameters) {
    forall a, b :: Lists(a, parameters.Keys) && Lists(b, parameters.Keys) ==>
      ApplyAll(lib, tree, a, parameters) == ApplyAll(lib, tree, b, parameters)
  }

  /** The input after the loop is independent of the map order exactly if no two parameters clash. */
  lemma InputIrrelevantIff(lib: Library, tree: Json, parameters: Parameters)
    ensures SameInputAlways(lib, tree, parameters) <==> NoClash(lib, tree, parameters)
  {
    if NoClash(lib, tree, parameters) {
      forall a, b | Lists(a, parameters.Keys) && Lists(b, parameters.Keys)
        ensures ApplyAll(lib, tree, a, parameters).tree == ApplyAll(lib, tree, b, parameters).tree
      {
        ListsOnce(a, parameters.Keys);
        ListsOnce(b, parameters.Keys);
        if "" in parameters {
          UnnamedStays(lib, tree, a, parameters);
          UnnamedStays(lib, tree, b, parameters);
        } else {
          NamedInAnyOrder(lib, tree, a, b, parameters);
        }
      }
    } else {
      var p, q :| p in parameters && q in parameters && p != q && ("" in parameters ==> p == "")
                  && Clash(lib, tree, PathOf(p), parameters[p], PathOf(q), parameters[q]);
      var rest, a, b := OrdersOfTwo(lib, tree, parameters, p, q);
      ApplyTwoMore(lib, tree, rest, p, q, parameters);
      ApplyTwoMore(lib, tree, rest, q, p, parameters);
      var before := ApplyAll(lib, tree, rest, parameters).tree;
      ClashOnShape(lib, tree, before, PathOf(p), parameters[p], PathOf(q), parameters[q]);
      CommuteIffNoClash(lib, before, PathOf(p), parameters[p], PathOf(q), parameters[q]);
    }
  }

  /** Two orders that differ in which of two parameters comes last; no other one is without a name. */
  lemma OrdersOfTwo(lib: Library, tree: Json, parameters: Parameters, p: string, q: string)
    returns (rest: seq<string>, a: seq<string>, b: seq<string>)
    requires p in parameters && q in parameters && p != q && ("" in parameters ==> p == "")
    ensures SameShape(tree, ApplyAll(lib, tree, rest, parameters).tree)
    ensures Lists(a, parameters.Keys) && Lists(b, parameters.Keys)
    ensures a == rest + [p] + [q] && b == rest + [q] + [p]
  {
    var others := parameters.Keys - {p, q};
    rest := Listed(others);
    ListsOnce(rest, others);
    assert multiset(parameters.Keys) == multiset(others) + multiset{p, q};
    a, b := rest + [p] + [q], rest + [q] + [p];
    ApplyAllKeepsShape(lib, tree, rest, parameters);
  }

  lemma ApplyTwoMore(lib: Library, tree: Json, rest: seq<string>, p: string, q: string, parameters: Parameters)
    requires p in parameters && q in parameters
    ensures ApplyAll(lib, tree, rest + [p] + [q], parameters)
         == Apply(lib, Apply(lib, ApplyAll(lib, tree, rest, parameters).tree, p, parameters[p]).tree, q, parameters[q])
  {
    ApplyOneMore(lib, tree, rest, p, parameters);
    ApplyOneMore(lib, tree, rest + [p], q, parameters);
  }

  /** The error of the loop is that of its last parameter. */
  lemma ErrorOfOrder(lib: Library, tree: Json, order: seq<string>, parameters: Parameters)
    requires Lists(order, parameters.Keys) && |order| > 0
    ensures order[|order| - 1] in parameters
    ensures ApplyAll(lib, tree, order, parameters).Set? == SetsLast(lib, tree, parameters, order[|order| - 1])
  {
    ListsOnce(order, parameters.Keys);
    var n := |order| - 1;
    var init, last := order[..n], order[n];
    assert order == init + [last];
    ApplyAllKeepsShape(lib, tree, init, parameters);
    var before := ApplyAll(lib, tree, init, parameters).tree;
    if last == "" {
      UnnamedOnShape(lib, tree, before, parameters[last]);
    } else {
      StillSet(lib, Base(lib, tree, init, parameters), before, PathOf(last), parameters[last]);
    }
  }

  /** Whether the loop returns an error is independent of the map order exactly if, coming last, every
      parameter fails, or none does. */
  lemma ErrorIrrelevantIff(lib: Library, tree: Json, parameters: Parameters)
    ensures SameErrorAlways(lib, tree, parameters) <==> SameError(lib, tree, parameters)
  {
    if SameError(lib, tree, parameters) {
      forall a, b | Lists(a, parameters.Keys) && Lists(b, parameters.Keys)
        ensures ApplyAll(lib, tree, a, parameters).Set? == ApplyAll(lib, tree, b, parameters).Set?
      {
        SameMultiset(a, b);
        if |a| > 0 {
          ErrorOfOrder(lib, tree, a, parameters);
          ErrorOfOrder(lib, tree, b, parameters);
        }
      }
    } else {
      var p, q :| p in parameters && q in parameters
                  && SetsLast(lib, tree, parameters, p) != SetsLast(lib, tree, parameters, q);
      var a := OrderEndingWith(parameters, p);
      var b := OrderEndingWith(parameters, q);
      ErrorOfOrder(lib, tree, a, parameters);
      ErrorOfOrder(lib, tree, b, parameters);
    }
  }

  lemma OrderEndingWith(parameters: Parameters, last: string) returns (order: seq<string>)
    requires last in parameters
    ensures Lists(order, parameters.Keys) && |order| > 0 && order[|order| - 1] == last
  {
    var others := parameters.Keys - {last};
    var rest := Listed(others);
    order := rest + [last];
    assert parameters.Keys == others + {last};
  }

  /** Neither the input nor the error of `setPayloadParameter` depends on the order of the Go map, exactly if
      no two parameters clash and, coming last, all of them fail or none does. */
  lemma OrderIrrelevantIff(lib: Library, tree: Json, parameters: Parameters)
    ensures SameOutcomeAlways(lib, tree, parameters)
       <==> NoClash(lib, tree, parameters) && SameError(lib, tree, parameters)
  {
    InputIrrelevantIff(lib, tree, parameters);
    ErrorIrrelevantIff(lib, tree, parameters);
    InputAndError(lib, tree, parameters);
  }

  lemma InputAndError(lib: Library, tree: Json, parameters: Parameters)
    ensures SameOutcomeAlways(lib, tree, parameters)
       <==> SameInputAlways(lib, tree, parameters) && SameErrorAlways(lib, tree, parameters)
  {
    if SameInputAlways(lib, tree, parameters) && SameErrorAlways(lib, tree, parameters) {
      forall a, b | Lists(a, parameters.Keys) && Lists(b, parameters.Keys)
        ensures ApplyAll(lib, tree, a, parameters) == ApplyAll(lib, tree, b, parameters)
      {
        SameOutcome(ApplyAll(lib, tree, a, parameters), ApplyAll(lib, tree, b, parameters));
      }
    }
  }

  lemma SameOutcome(a: Outcome, b: Outcome)
    requires a.tree == b.tree && a.Set? == b.Set?
    ensures a == b
  {
  }

  /** Named parameters only: no two of them clash, and on the given input all can be set or none can. */
  lemma NamedOrder(lib: Library, tree: Json, parameters: Parameters)
    requires "" !in parameters
    ensures SameError(lib, tree, parameters) <==>
      forall p, q :: p in parameters && q in parameters ==>
        Apply(lib, tree, p, parameters[p]).Set? == Apply(lib, tree, q, parameters[q]).Set?
  {
    forall p | p in parameters
      ensures SetsLast(lib, tree, parameters, p) == Apply(lib, tree, p, parameters[p]).Set? {}
  }

  /** Beside a parameter without a name the order is irrelevant exactly if that one cannot be set, and
      none of the others can be set on what it leaves: setting it makes the input a scalar, on which every
      other one fails. */
  lemma UnnamedOrder(lib: Library, tree: Json, parameters: Parameters, named: string)
    requires "" in parameters && named in parameters && named != ""
    ensures NoClash(lib, tree, parameters) && SameError(lib, tree, parameters) <==>
      forall p :: p in parameters ==> !SetsLast(lib, tree, parameters, p)
  {
    var left := Apply(lib, tree, "", parameters[""]);
    if left.Set? {
      assert SetsLast(lib, tree, parameters, "") && !SetsLast(lib, tree, parameters, named);
    } else if forall p :: p in parameters ==> !SetsLast(lib, tree, parameters, p) {
      forall q | q in parameters && q != ""
        ensures !Clash(lib, tree, PathOf(""), parameters[""], PathOf(q), parameters[q])
      {
        assert !SetsLast(lib, tree, parameters, q);
        FailedIsIdle(lib, left.tree, q, parameters[q]);
      }
    } else {
      assert !SetsLast(lib, tree, parameters, "");
    }
  }

  /** The order decides whether there is an error: "a" can be set and "b" cannot, so the task is run if "a"
      comes last and refused if "b" does, although the two do not clash. */
  lemma OrderDecidesError(lib: Library)
    ensures var tree, parameters := Obj(map["a" := Int(0)]), map["a" := Int(1), "b" := Int(1)];
            && NoClash(lib, tree, parameters)
            && Lists(["a", "b"], parameters.Keys) && Lists(["b", "a"], parameters.Keys)
            && ApplyAll(lib, tree, ["a", "b"], parameters) == Failed(Obj(map["a" := Int(1)]))
            && ApplyAll(lib, tree, ["b", "a"], parameters) == Set(Obj(map["a" := Int(1)]))
  {
    var tree, parameters := Obj(map["a" := Int(0)]), map["a" := Int(1), "b" := Int(1)];
    assert parameters.Keys == {"a", "b"};
    SetsA(lib, Int(0));
    SetsA(lib, Int(1));
    NoneClash(lib, tree, parameters);
    ApplyTwo(lib, tree, "a", "b", parameters);
    ApplyTwo(lib, tree, "b", "a", parameters);
  }

  lemma ApplyTwo(lib: Library, tree: Json, p: string, q: string, parameters: Parameters)
    requires parameters.Keys == {p, q} && p != q
    ensures Lists([p, q], parameters.Keys)
    ensures ApplyAll(lib, tree, [p, q], parameters)
         == Apply(lib, Apply(lib, tree, p, parameters[p]).tree, q, parameters[q])
  {
    assert multiset([p, q]) == multiset({p, q});
    ApplyTwoMore(lib, tree, [], p, q, parameters);
    assert [] + [p] + [q] == [p, q];
  }

  lemma NoneClash(lib: Library, tree: Json, parameters: Parameters)
    requires parameters.Keys == {"a", "b"} && SetVar(lib, tree, Split("b"), parameters["b"]).Failed?
    ensures NoClash(lib, tree, parameters)
  {
    forall p, q | p in parameters && q in parameters && p != q
      ensures !Clash(lib, tree, PathOf(p), parameters[p], PathOf(q), parameters[q])
    {
      assert PathOf(p) == Split(p) && PathOf(q) == Split(q) && (p == "b" || q == "b");
      assert !Overwrites(lib, tree, Split(p), parameters[p], Split(q), parameters[q]);
    }
  }

  lemma SetsA(lib: Library, i: Json)
    requires i.Int?
    ensures Apply(lib, Obj(map["a" := i]), "a", Int(1)) == Set(Obj(map["a" := Int(1)]))
    ensures Apply(lib, Obj(map["a" := i]), "b", Int(1)) == Failed(Obj(map["a" := i]))
    ensures Split("b") != [] && SetVar(lib, Obj(map["a" := i]), Split("b"), Int(1)).Failed?
  {
    var tree := Obj(map["a" := i]);
    SplitPart("a", "");
    SplitPart("b", "");
    assert ["a"][1..] == [];
    assert Select(tree, "a") == Some(Key("a")) && Child(tree, Key("a")) == i;
    assert SetVar(lib, i, [], Int(1)) == Set(Int(1));
    assert Put(tree, Key("a"), Int(1)) == Obj(map["a" := Int(1)]);
    assert Select(tree, "b") == None;
  }

  /** A parameter without a name that cannot be set still replaces the whole input. When it does not is
      said by `FailureChangesNothing`. */
  lemma UnnamedFailureReplaces(lib: Library)
    ensures Apply(lib, Obj(map["a" := Int(0)]), "", Int(1)) == Failed(Int(1))
    ensures !LeavesElement(lib, Obj(map["a" := Int(0)]), Int(1))
  {
  }

  /** Paths of which neither is the beginning of the other may clash: a list index has more than one
      spelling, so the order of "a.1" and "a.01" decides. */
  lemma SpellingsClash(lib: Library)
    ensures Clash(lib, Obj(map["a" := List([Int(0), Int(0)])]), Split("a.1"), Int(5), Split("a.01"), Int(6))
  {
    assert Atoi("1") == (1, true);
    LeadingZero("1");
    assert "0" + "1" == "01";
    assert Atoi("01") == (1, true);
    SplitInTwo("a.1", "a", "1");
    SplitInTwo("a.01", "a", "01");
    SetElement(lib, "1", Int(5));
    SetElement(lib, "01", Int(6));
    assert [Int(0), Int(5)][1] != [Int(0), Int(6)][1];
    assert map["a" := List([Int(0), Int(5)])]["a"] != map["a" := List([Int(0), Int(6)])]["a"];
  }

  lemma SplitInTwo(name: string, first: string, second: string)
    requires name == first + "." + second && '.' !in first && '.' !in second
    ensures Split(name) == [first, second]
  {
    SplitPart(first, second);
    SplitPart(second, "");
  }

  lemma SetElement(lib: Library, index: string, value: Json)
    requires value.Int? && Atoi(index) == (1, true)
    ensures var tree := Obj(map["a" := List([Int(0), Int(0)])]);
            && SetVar(lib, tree, ["a", index], value) == Set(Obj(map["a" := List([Int(0), value])]))
            && Resolve(tree, ["a", index]) == Some([Key("a"), Index(1)])
  {
    var list := List([Int(0), Int(0)]);
    var tree := Obj(map["a" := list]);
    assert ["a", index][1..] == [index] && [index][1..] == [];
    assert SetVar(lib, Int(0), [], value) == Set(value);
    assert Select(list, index) == Some(Index(1));
    assert Put(list, Index(1), value) == List([Int(0), value]);
    assert SetVar(lib, list, [index], value) == Set(List([Int(0), value]));
    assert Put(tree, Key("a"), List([Int(0), value])) == Obj(map["a" := List([Int(0), value])]);
    assert Resolve(list, [index]) == Some([Index(1)] + []);
    assert [Key("a")] + ([Index(1)] + []) == [Key("a"), Index(1)];
  }
}
