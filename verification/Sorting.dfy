/** Go's `sort` package at its contract, and the order of strings. */
module Sorting {

  ghost predicate TotalPreorder<T(!new)>(le: (T, T) -> bool) {
    && (forall a, b :: le(a, b) || le(b, a))
    && (forall a, b, c :: le(a, b) && le(b, c) ==> le(a, c))
  }

  ghost predicate SortedBy<T(!new)>(le: (T, T) -> bool, s: seq<T>) {
    forall i, j :: 0 <= i < j < |s| ==> le(s[i], s[j])
  }

  lemma Inserted<T(!new)>(le: (T, T) -> bool, r: seq<T>, k: nat, x: T)
    requires TotalPreorder(le) && SortedBy(le, r) && k <= |r|
    requires forall j :: 0 <= j < k ==> le(r[j], x)
    requires k < |r| ==> !le(r[k], x)
    ensures SortedBy(le, r[..k] + [x] + r[k..])
  {
    var s := r[..k] + [x] + r[k..];
    forall i, j | 0 <= i < j < |s| ensures le(s[i], s[j]) {
      if i == k {
        assert s[j] == r[j - 1];
        assert le(x, r[k]);
        assert j - 1 > k ==> le(r[k], r[j - 1]);
      }
    }
  }

  lemma InsertedElements<T(!new)>(r: seq<T>, k: nat, x: T)
    requires k <= |r|
    ensures multiset(r[..k] + [x] + r[k..]) == multiset(r) + multiset{x}
  {
    assert r == r[..k] + r[k..];
  }

  lemma PrefixElements<T(!new)>(s: seq<T>, i: nat)
    requires i < |s|
    ensures multiset(s[..i + 1]) == multiset(s[..i]) + multiset{s[i]}
  {
    assert s[..i + 1] == s[..i] + [s[i]];
  }

  /** `sort.Slice`: the elements in order. Where elements tie, callers may not rely on any order. */
  method SortSlice<T(!new)>(s: seq<T>, le: (T, T) -> bool) returns (r: seq<T>)
    requires TotalPreorder(le)
    ensures multiset(r) == multiset(s) && SortedBy(le, r)
  {
    r := [];
    for i := 0 to |s|
      invariant multiset(r) == multiset(s[..i]) && SortedBy(le, r)
    {
      var k := Position(r, s[i], le);
      Inserted(le, r, k, s[i]);
      InsertedElements(r, k, s[i]);
      PrefixElements(s, i);
      r := r[..k] + [s[i]] + r[k..];
    }
    assert s[..|s|] == s;
  }

  method Position<T(!new)>(r: seq<T>, x: T, le: (T, T) -> bool) returns (k: nat)
    ensures k <= |r| && (forall j :: 0 <= j < k ==> le(r[j], x)) && (k < |r| ==> !le(r[k], x))
  {
    k := 0;
    while k < |r| && le(r[k], x)
      invariant k <= |r| && forall j :: 0 <= j < k ==> le(r[j], x)
    {
      k := k + 1;
    }
  }

  function Without<T>(s: seq<T>, i: nat): seq<T>
    requires i < |s|
  {
    s[..i] + s[i + 1..]
  }

  /** The last element of one list somewhere in a permutation of it. */
  lemma MatchLast<T>(a: seq<T>, b: seq<T>) returns (i: nat)
    requires multiset(a) == multiset(b) && |a| > 0
    ensures i < |b| && b[i] == a[|a| - 1]
    ensures multiset(a[..|a| - 1]) == multiset(Without(b, i))
  {
    var n := |a| - 1;
    assert a == a[..n] + [a[n]];
    assert a[n] in multiset(b);
    i :| 0 <= i < |b| && b[i] == a[n];
    assert b == b[..i] + [b[i]] + b[i + 1..];
    assert multiset(b) == multiset(b[..i]) + multiset{b[i]} + multiset(b[i + 1..]);
    assert multiset(Without(b, i)) == multiset(b[..i]) + multiset(b[i + 1..]);
    assert multiset(Without(b, i)) == multiset(b) - multiset{b[i]};
    assert multiset(a) == multiset(a[..n]) + multiset{a[n]};
    assert multiset(a[..n]) == multiset(a) - multiset{a[n]};
  }

  lemma SameMultiset<T>(a: seq<T>, b: seq<T>)
    requires multiset(a) == multiset(b)
    ensures |a| == |b| && forall x :: x in a <==> x in b
  {
    assert |a| == |multiset(a)| == |multiset(b)| == |b|;
    forall x ensures x in a <==> x in b { assert x in multiset(a) <==> x in multiset(b); }
  }

  /** Lexicographic order of strings. */
  predicate StringLe(a: string, b: string) {
    a == "" || (b != "" && (a[0] < b[0] || (a[0] == b[0] && StringLe(a[1..], b[1..]))))
  }

  lemma {:induction false} StringLeTotal(a: string, b: string)
    ensures StringLe(a, b) || StringLe(b, a)
    ensures StringLe(a, b) && StringLe(b, a) ==> a == b
  {
    if a != "" && b != "" && a[0] == b[0] {
      StringLeTotal(a[1..], b[1..]);
      assert a == [a[0]] + a[1..] && b == [b[0]] + b[1..];
    }
  }

  lemma {:induction false} StringLeTransitive(a: string, b: string, c: string)
    requires StringLe(a, b) && StringLe(b, c)
    ensures StringLe(a, c)
  {
    if a != "" && a[0] == b[0] == c[0] { StringLeTransitive(a[1..], b[1..], c[1..]); }
  }

  lemma StringLeIsTotalPreorder()
    ensures TotalPreorder(StringLe)
  {
    forall a, b ensures StringLe(a, b) || StringLe(b, a) { StringLeTotal(a, b); }
    forall a, b, c | StringLe(a, b) && StringLe(b, c) ensures StringLe(a, c) { StringLeTransitive(a, b, c); }
  }
}
