/** Loops over the keys of a Go map, whose order is open. */
module Orders {
  import opened Sorting

  /** The state after one step for every name of the order. */
  function Fold<S>(step: (S, string) -> S, s: S, order: seq<string>): S {
    if |order| == 0 then s else step(Fold(step, s, order[..|order| - 1]), order[|order| - 1])
  }

  /** Each name at most once. */
  ghost predicate Once(order: seq<string>) {
    forall i, j :: 0 <= i < j < |order| ==> order[i] != order[j]
  }

  /** An order lists every name once. */
  ghost predicate Lists(order: seq<string>, names: set<string>) {
    multiset(order) == multiset(names)
  }

  lemma ListsOnce(order: seq<string>, names: set<string>)
    requires Lists(order, names)
    ensures Once(order) && forall name :: name in order <==> name in names
  {
    forall name ensures name in order <==> name in names { assert name in order <==> name in multiset(order); }
    forall i, j | 0 <= i < j < |order| ensures order[i] != order[j] {
      assert order == order[..j] + order[j..];
      assert order[i] in multiset(order[..j]) by { assert order[..j][i] == order[i]; }
      assert order[j] in multiset(order[j..]) by { assert order[j..][0] == order[j]; }
      assert multiset(order)[order[i]] <= 1;
    }
  }

  lemma {:induction false} Listed(names: set<string>) returns (order: seq<string>)
    ensures Lists(order, names)
  {
    if names == {} {
      order := [];
    } else {
      var name :| name in names;
      var rest := Listed(names - {name});
      order := rest + [name];
      assert names == (names - {name}) + {name};
    }
  }

  /** Steps for different names commute, on every state the invariant allows. */
  ghost predicate Commute<S(!new)>(step: (S, string) -> S, inv: S -> bool, names: set<string>) {
    forall s, p, q :: inv(s) && p in names && q in names && p != q ==> step(step(s, p), q) == step(step(s, q), p)
  }

  ghost predicate Keep<S(!new)>(step: (S, string) -> S, inv: S -> bool, names: set<string>) {
    forall s, p :: inv(s) && p in names ==> inv(step(s, p))
  }

  lemma {:induction false} FoldKeeps<S(!new)>(step: (S, string) -> S, inv: S -> bool, names: set<string>, s: S,
                                              order: seq<string>)
    requires Keep(step, inv, names) && inv(s) && forall name :: name in order ==> name in names
    ensures inv(Fold(step, s, order))
  {
    if |order| > 0 { FoldKeeps(step, inv, names, s, order[..|order| - 1]); }
  }

  lemma FoldOneMore<S>(step: (S, string) -> S, s: S, order: seq<string>, name: string)
    ensures Fold(step, s, order + [name]) == step(Fold(step, s, order), name)
  {
    assert (order + [name])[..|order|] == order;
  }

  lemma WithoutInit(order: seq<string>, i: nat) returns (rest: seq<string>)
    requires i < |order| - 1
    ensures rest == Without(order[..|order| - 1], i) && Without(order, i) == rest + [order[|order| - 1]]
    ensures forall name :: name in rest ==> name in order
  {
    rest := Without(order[..|order| - 1], i);
  }

  /** A step that commutes with the later ones can be taken last. */
  lemma {:induction false} FoldLast<S(!new)>(step: (S, string) -> S, inv: S -> bool, names: set<string>, s: S,
                                             order: seq<string>, i: nat)
    requires Keep(step, inv, names) && Commute(step, inv, names) && inv(s)
    requires Once(order) && (forall name :: name in order ==> name in names) && i < |order|
    ensures Fold(step, s, order) == step(Fold(step, s, Without(order, i)), order[i])
  {
    var n := |order| - 1;
    var init := order[..n];
    if i == n {
      assert Without(order, i) == init;
    } else {
      FoldLast(step, inv, names, s, init, i);
      var rest := WithoutInit(order, i);
      FoldKeeps(step, inv, names, s, rest);
      FoldOneMore(step, s, rest, order[n]);
      assert inv(Fold(step, s, rest)) && order[i] in names && order[n] in names && order[i] != order[n];
    }
  }

  lemma {:induction false} FoldInAnyOrder<S(!new)>(step: (S, string) -> S, inv: S -> bool, names: set<string>, s: S,
                                                   a: seq<string>, b: seq<string>)
    requires Keep(step, inv, names) && Commute(step, inv, names) && inv(s)
    requires Once(b) && (forall name :: name in b ==> name in names) && multiset(a) == multiset(b)
    ensures Fold(step, s, a) == Fold(step, s, b)
  {
    SameMultiset(a, b);
    if |a| > 0 {
      var i := MatchLast(a, b);
      FoldLast(step, inv, names, s, b, i);
      FoldInAnyOrder(step, inv, names, s, a[..|a| - 1], Without(b, i));
    }
  }
}
