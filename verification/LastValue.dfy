/** The last-value request of an event service, lib/event.go. */
module LastValue {
  import opened Values
  import opened Paths
  import opened Nested
  import Sorting
  import Timescale

  /** The part of a content variable that `getContentPaths` reads. */
  datatype ContentVariable = ContentVariable(name: string, isList: bool, subs: seq<ContentVariable>)

  /** Empty names and lists are skipped, with everything below them. */
  predicate Skipped(v: ContentVariable) {
    v.name == "" || v.isList
  }

  /** `getContentPaths`: the dotted paths of the leaves. */
  function ContentPaths(current: Path, v: ContentVariable): seq<string>
    decreases v, 1
  {
    if Skipped(v) then []
    else if |v.subs| == 0 then [Join(current + [v.name])]
    else AllContentPaths(current + [v.name], v.subs)
  }

  function AllContentPaths(current: Path, vs: seq<ContentVariable>): seq<string>
    decreases vs, 0
  {
    if |vs| == 0 then [] else ContentPaths(current, vs[0]) + AllContentPaths(current, vs[1..])
  }

  /** The requested leaves of an output tree, as lists of names. */
  function Leaves(current: Path, v: ContentVariable): seq<Path>
    decreases v, 1
  {
    if Skipped(v) then []
    else if |v.subs| == 0 then [current + [v.name]]
    else AllLeaves(current + [v.name], v.subs)
  }

  function AllLeaves(current: Path, vs: seq<ContentVariable>): seq<Path>
    decreases vs, 0
  {
    if |vs| == 0 then [] else Leaves(current, vs[0]) + AllLeaves(current, vs[1..])
  }

  /** Names hold no dot and siblings have distinct names, as far as the variables are not skipped. */
  ghost predicate Distinguishable(vs: seq<ContentVariable>)
    decreases vs
  {
    && (forall i :: 0 <= i < |vs| && !Skipped(vs[i]) ==> '.' !in vs[i].name && Distinguishable(vs[i].subs))
    && (forall i, j :: 0 <= i < j < |vs| && !Skipped(vs[i]) && !Skipped(vs[j]) ==> vs[i].name != vs[j].name)
  }

  lemma {:induction false} PathsJoinLeaves(current: Path, vs: seq<ContentVariable>)
    ensures |AllContentPaths(current, vs)| == |AllLeaves(current, vs)|
    ensures forall k :: 0 <= k < |AllLeaves(current, vs)| ==>
      AllContentPaths(current, vs)[k] == Join(AllLeaves(current, vs)[k])
    decreases vs
  {
    if |vs| > 0 {
      if !Skipped(vs[0]) { PathsJoinLeaves(current + [vs[0].name], vs[0].subs); }
      PathsJoinLeaves(current, vs[1..]);
    }
  }

  /** Every leaf lies below one of the variables. */
  function Names(chain: seq<ContentVariable>): Path {
    seq(|chain|, k requires 0 <= k < |chain| => chain[k].name)
  }

  /** A chain of variables from an output down to one without sub-variables, none of them a list or unnamed. */
  ghost predicate IsRequested(vs: seq<ContentVariable>, chain: seq<ContentVariable>) {
    && |chain| > 0 && chain[0] in vs && chain[|chain| - 1].subs == []
    && (forall k :: 0 <= k < |chain| - 1 ==> chain[k + 1] in chain[k].subs)
    && (forall k :: 0 <= k < |chain| ==> chain[k].name != "" && !chain[k].isList)
  }

  lemma LongerChain(v: ContentVariable, vs: seq<ContentVariable>, chain: seq<ContentVariable>)
    requires v in vs && v.name != "" && !v.isList && IsRequested(v.subs, chain)
    ensures IsRequested(vs, [v] + chain) && Names([v] + chain) == [v.name] + Names(chain)
  {
    var longer := [v] + chain;
    forall k | 0 <= k < |longer| - 1 ensures longer[k + 1] in longer[k].subs {
      if k > 0 { assert longer[k] == chain[k - 1] && longer[k + 1] == chain[k]; }
    }
  }

  lemma ShorterChain(vs: seq<ContentVariable>, chain: seq<ContentVariable>)
    requires IsRequested(vs, chain) && |chain| > 1
    ensures IsRequested(chain[0].subs, chain[1..]) && Names(chain) == [chain[0].name] + Names(chain[1..])
  {
    assert chain[1] in chain[0].subs;
    forall k | 0 <= k < |chain| - 2 ensures chain[1..][k + 1] in chain[1..][k].subs {
      assert chain[k + 2] in chain[k + 1].subs;
    }
  }

  /** The leaves are the names along exactly these chains. */
  lemma {:induction false} LeavesIff(current: Path, vs: seq<ContentVariable>, leaf: Path)
    ensures leaf in AllLeaves(current, vs) <==> exists chain :: IsRequested(vs, chain) && leaf == current + Names(chain)
    decreases vs
  {
    if |vs| > 0 {
      var v, below := vs[0], current + [vs[0].name];
      LeavesIff(current, vs[1..], leaf);
      LeavesIff(below, v.subs, leaf);
      if leaf in Leaves(current, v) {
        LeafHasChain(current, vs, leaf);
      } else if leaf in AllLeaves(current, vs[1..]) {
        var chain :| IsRequested(vs[1..], chain) && leaf == current + Names(chain);
        assert IsRequested(vs, chain);
      }
      if chain :| IsRequested(vs, chain) && leaf == current + Names(chain) {
        if chain[0] in vs[1..] {
          assert IsRequested(vs[1..], chain);
        } else if |chain| == 1 {
          assert Names(chain) == [v.name];
        } else {
          ShorterChain(vs, chain);
          assert leaf == below + Names(chain[1..]);
        }
      }
    }
  }

  lemma LeafHasChain(current: Path, vs: seq<ContentVariable>, leaf: Path)
    requires |vs| > 0 && leaf in Leaves(current, vs[0])
    requires var below := current + [vs[0].name];
             leaf in AllLeaves(below, vs[0].subs) <==>
               exists chain :: IsRequested(vs[0].subs, chain) && leaf == below + Names(chain)
    ensures exists chain :: IsRequested(vs, chain) && leaf == current + Names(chain)
  {
    var v := vs[0];
    if |v.subs| == 0 {
      assert IsRequested(vs, [v]) && Names([v]) == [v.name];
    } else {
      var chain :| IsRequested(v.subs, chain) && leaf == current + [v.name] + Names(chain);
      LongerChain(v, vs, chain);
      assert leaf == current + Names([v] + chain);
    }
  }

  /** A column is requested exactly for such a chain: nothing at or below a list, or an unnamed variable. */
  lemma RequestedIff(outputs: seq<ContentVariable>, column: string)
    ensures column in AllContentPaths([], outputs) <==>
      exists chain :: IsRequested(outputs, chain) && column == Join(Names(chain))
  {
    PathsJoinLeaves([], outputs);
    var paths, leaves := AllContentPaths([], outputs), AllLeaves([], outputs);
    if column in paths {
      var k :| 0 <= k < |paths| && paths[k] == column;
      LeavesIff([], outputs, leaves[k]);
      var chain :| IsRequested(outputs, chain) && leaves[k] == [] + Names(chain);
      assert leaves[k] == Names(chain);
    }
    if chain :| IsRequested(outputs, chain) && column == Join(Names(chain)) {
      LeavesIff([], outputs, Names(chain));
      assert Names(chain) == [] + Names(chain);
      var k :| 0 <= k < |leaves| && leaves[k] == Names(chain);
      assert paths[k] == column;
    }
  }

  lemma {:induction false} LeafBelow(current: Path, vs: seq<ContentVariable>, p: Path) returns (i: nat)
    requires p in AllLeaves(current, vs)
    ensures i < |vs| && !Skipped(vs[i]) && current + [vs[i].name] <= p
    ensures p in Leaves(current, vs[i])
    decreases vs
  {
    if p in Leaves(current, vs[0]) {
      i := 0;
      if |vs[0].subs| > 0 {
        var j := LeafBelow(current + [vs[0].name], vs[0].subs, p);
      }
    } else {
      var j := LeafBelow(current, vs[1..], p);
      i := j + 1;
    }
  }

  lemma {:induction false} LeavesAreDotFree(current: Path, vs: seq<ContentVariable>, p: Path)
    requires DotFree(current) && Distinguishable(vs) && p in AllLeaves(current, vs)
    ensures DotFree(p) && |p| > |current|
    decreases vs
  {
    var i := LeafBelow(current, vs, p);
    var below := current + [vs[i].name];
    if |vs[i].subs| > 0 { LeavesAreDotFree(below, vs[i].subs, p); }
  }

  lemma ApartBelow(current: Path, a: string, b: string, p: Path, q: Path)
    requires a != b && current + [a] <= p && current + [b] <= q
    ensures Apart(p, q)
  {
    assert p[|current|] == (current + [a])[|current|] && q[|current|] == (current + [b])[|current|];
    ApartOrPrefix(p, q);
  }

  lemma {:induction false} LeavesAreApart(current: Path, vs: seq<ContentVariable>, p: Path, q: Path)
    requires Distinguishable(vs) && p in AllLeaves(current, vs) && q in AllLeaves(current, vs) && p != q
    ensures Apart(p, q)
    decreases vs
  {
    var i := LeafBelow(current, vs, p);
    var j := LeafBelow(current, vs, q);
    if i != j {
      ApartBelow(current, vs[i].name, vs[j].name, p, q);
    } else {
      LeavesAreApart(current + [vs[i].name], vs[i].subs, p, q);
    }
  }

  datatype TimescaleResponse = TimescaleResponse(time: Option<string>, value: Json)

  datatype Result<+T> = Success(value: T) | MissingLastValue

  /** `createTimescaleRequest` for a device and the output variables of a service. */
  method CreateTimescaleRequest(device: string, service: string, outputs: seq<ContentVariable>)
    returns (request: seq<Timescale.Request>)
    ensures |request| == |AllContentPaths([], outputs)|
    ensures forall k :: 0 <= k < |request| ==>
      request[k] == Timescale.Request(device, service, AllContentPaths([], outputs)[k])
  {
    var paths := [];
    for i := 0 to |outputs|
      invariant paths + AllContentPaths([], outputs[i..]) == AllContentPaths([], outputs)
    {
      paths := paths + ContentPaths([], outputs[i]);
    }
    request := [];
    for k := 0 to |paths|
      invariant |request| == k
      invariant forall l :: 0 <= l < k ==> request[l] == Timescale.Request(device, service, paths[l])
    {
      request := request + [Timescale.Request(device, service, paths[k])];
    }
  }

  /** The value answered for a column: of several requests for it, the last one counts. */
  function AnswerFor(request: seq<Timescale.Request>, response: seq<TimescaleResponse>, column: string): Option<Json>
    requires |request| == |response|
  {
    if |request| == 0 then None
    else
      var n := |request| - 1;
      if request[n].column == column then Some(response[n].value)
      else AnswerFor(request[..n], response[..n], column)
  }

  function Columns(request: seq<Timescale.Request>): seq<string> {
    seq(|request|, k requires 0 <= k < |request| => request[k].column)
  }

  function SplitAll(names: seq<string>): seq<Path> {
    seq(|names|, k requires 0 <= k < |names| => Split(names[k]))
  }

  /** The value for every requested path. */
  ghost function AnswerMap(request: seq<Timescale.Request>, response: seq<TimescaleResponse>): map<Path, Json>
    requires |request| == |response|
  {
    map p | p in SplitAll(Columns(request)) ::
      var a := AnswerFor(request, response, Join(p));
      if a.Some? then a.value else Null
  }

  /** The map built by setting the requested paths in the order of their sorted names. */
  ghost predicate BuiltInNameOrder(request: seq<Timescale.Request>, response: seq<TimescaleResponse>, fields: Fields)
    requires |request| == |response|
  {
    exists order: seq<string> ::
      && multiset(order) == multiset(Columns(request)) && Sorting.SortedBy(Sorting.StringLe, order)
      && (forall p :: p in SplitAll(order) ==> p in AnswerMap(request, response))
      && fields == SetAll(SplitAll(order), AnswerMap(request, response))
  }

  lemma {:induction false} AnswerForRequested(request: seq<Timescale.Request>, response: seq<TimescaleResponse>,
                                              column: string)
    requires |request| == |response|
    ensures AnswerFor(request, response, column).Some? <==> column in Columns(request)
  {
    if |request| > 0 {
      var n := |request| - 1;
      AnswerForRequested(request[..n], response[..n], column);
      assert Columns(request) == Columns(request[..n]) + [request[n].column];
    }
  }

  lemma AnswerMapAt(request: seq<Timescale.Request>, response: seq<TimescaleResponse>, column: string)
    requires |request| == |response| && column in Columns(request)
    ensures Split(column) in AnswerMap(request, response)
    ensures AnswerFor(request, response, column) == Some(AnswerMap(request, response)[Split(column)])
  {
    var k :| 0 <= k < |request| && Columns(request)[k] == column;
    assert SplitAll(Columns(request))[k] == Split(column);
    JoinSplit(column);
    AnswerForRequested(request, response, column);
  }

  /** The first loop: the answers by column, and the columns in request order. */
  method CollectAnswers(request: seq<Timescale.Request>, response: seq<TimescaleResponse>)
    returns (pathToValue: map<string, Json>, paths: seq<string>)
    requires |request| == |response|
    ensures paths == Columns(request)
    ensures forall c :: Get(pathToValue, c) == AnswerFor(request, response, c)
  {
    pathToValue, paths := map[], [];
    for k := 0 to |request|
      invariant paths == Columns(request[..k])
      invariant forall c :: Get(pathToValue, c) == AnswerFor(request[..k], response[..k], c)
    {
      assert request[..k + 1][..k] == request[..k] && response[..k + 1][..k] == response[..k];
      pathToValue := pathToValue[request[k].column := response[k].value];
      paths := paths + [request[k].column];
    }
    assert request[..|request|] == request && response[..|request|] == response;
  }

  /** The second loop. */
  method SetInOrder(order: seq<string>, pathToValue: map<string, Json>, ghost values: map<Path, Json>)
    returns (fields: Fields)
    requires forall c :: c in order ==> c in pathToValue && Split(c) in values && values[Split(c)] == pathToValue[c]
    ensures forall p :: p in SplitAll(order) ==> p in values
    ensures fields == SetAll(SplitAll(order), values)
  {
    fields := map[];
    for k := 0 to |order|
      invariant fields == SetAll(SplitAll(order)[..k], values)
    {
      assert SplitAll(order)[..k + 1][..k] == SplitAll(order)[..k];
      fields := SetPath(fields, Split(order[k]), pathToValue[order[k]]);
    }
    assert SplitAll(order)[..|order|] == SplitAll(order);
  }

  /** What `getTimescaleValue` returns. */
  ghost predicate ValueOf(request: seq<Timescale.Request>, response: seq<TimescaleResponse>, missingTimeIsError: bool,
                          result: Result<Fields>)
    requires |request| == |response|
  {
    && (result.MissingLastValue? <==> missingTimeIsError && exists k :: 0 <= k < |request| && response[k].time.None?)
    && (result.Success? ==> BuiltInNameOrder(request, response, result.value))
  }

  method GetTimescaleValue(request: seq<Timescale.Request>, response: seq<TimescaleResponse>, missingTimeIsError: bool)
    returns (result: Result<Fields>)
    requires |request| == |response|
    ensures ValueOf(request, response, missingTimeIsError, result)
  {
    if missingTimeIsError && exists k :: 0 <= k < |request| && response[k].time.None? {
      return MissingLastValue;
    }
    var pathToValue, paths := CollectAnswers(request, response);
    Sorting.StringLeIsTotalPreorder();
    var order := Sorting.SortSlice(paths, Sorting.StringLe);
    ghost var values := AnswerMap(request, response);
    Sorting.SameMultiset(order, paths);
    forall c | c in order ensures c in pathToValue && Split(c) in values && values[Split(c)] == pathToValue[c] {
      AnswerMapAt(request, response, c);
      assert Get(pathToValue, c) == AnswerFor(request, response, c);
    }
    var fields := SetInOrder(order, pathToValue, values);
    return Success(fields);
  }

  lemma {:induction false} SplitAllMultiset(a: seq<string>, b: seq<string>)
    requires multiset(a) == multiset(b)
    ensures multiset(SplitAll(a)) == multiset(SplitAll(b))
  {
    Sorting.SameMultiset(a, b);
    if |a| > 0 {
      var n := |a| - 1;
      var i := Sorting.MatchLast(a, b);
      SplitAllMultiset(a[..n], Sorting.Without(b, i));
      assert SplitAll(a) == SplitAll(a[..n]) + [Split(a[n])];
      assert SplitAll(b) == SplitAll(b[..i]) + [Split(b[i])] + SplitAll(b[i + 1..]);
      assert SplitAll(Sorting.Without(b, i)) == SplitAll(b[..i]) + SplitAll(b[i + 1..]);
    }
  }

  /** The path is one of these or goes on from one of them. */
  ghost predicate Below(paths: seq<Path>, q: Path) {
    exists p :: p in paths && p <= q
  }

  /** For columns of which none is the beginning of another: the map reads the answer at every column,
      and holds nothing else. Setting the columns in any other order builds the same map. */
  lemma ValueHoldsAnswers(request: seq<Timescale.Request>, response: seq<TimescaleResponse>, fields: Fields)
    requires |request| == |response| && BuiltInNameOrder(request, response, fields)
    requires PrefixFree(SplitAll(Columns(request)))
    ensures forall k :: 0 <= k < |request| ==>
      At(fields, Split(request[k].column)) == AnswerFor(request, response, request[k].column)
    ensures forall q :: |q| > 0 && At(fields, q).Some? ==> Related(SplitAll(Columns(request)), q)
    ensures forall q :: |q| > 0 && At(fields, q).Some? && !Below(SplitAll(Columns(request)), q) ==>
      At(fields, q).value.Obj?
    ensures forall other: seq<string> :: multiset(other) == multiset(Columns(request)) ==>
      (forall p :: p in SplitAll(other) ==> p in AnswerMap(request, response))
      && fields == SetAll(SplitAll(other), AnswerMap(request, response))
  {
    var columns, values := SplitAll(Columns(request)), AnswerMap(request, response);
    var order :| multiset(order) == multiset(Columns(request)) && (forall p :: p in SplitAll(order) ==> p in values)
              && fields == SetAll(SplitAll(order), values);
    forall other | multiset(other) == multiset(Columns(request))
      ensures (forall p :: p in SplitAll(other) ==> p in values)
      ensures SetAll(SplitAll(other), values) == SetAll(columns, values)
    {
      SplitAllMultiset(Columns(request), other);
      SetAllOrderIrrelevant(columns, SplitAll(other), values);
    }
    forall k | 0 <= k < |request|
      ensures At(fields, Split(request[k].column)) == AnswerFor(request, response, request[k].column)
    {
      assert Columns(request)[k] == request[k].column;
      AnswerMapAt(request, response, request[k].column);
      assert columns[k] == Split(request[k].column);
      SetAllAt(columns, values, columns[k]);
    }
    forall q | |q| > 0 && At(fields, q).Some?
      ensures Related(columns, q)
      ensures !Below(columns, q) ==> At(fields, q).value.Obj?
    {
      SetAllOnly(columns, values, q);
    }
  }

  ghost predicate AnswersKept(request: seq<Timescale.Request>, response: seq<TimescaleResponse>, fields: Fields)
    requires |request| == |response|
  {
    forall k :: 0 <= k < |request| ==>
      At(fields, Split(request[k].column)) == AnswerFor(request, response, request[k].column)
  }

  lemma RequestedPaths(request: seq<Timescale.Request>, response: seq<TimescaleResponse>)
    requires |request| == |response|
    ensures var columns, values := SplitAll(Columns(request)), AnswerMap(request, response);
            forall p :: p in columns ==> p in values && |p| > 0
  {
  }

  /** Every answer is read back exactly if, where one column is the beginning of another, its answer is a
      map that holds the answer for the other. */
  lemma AnswersKeptIffCompatible(request: seq<Timescale.Request>, response: seq<TimescaleResponse>, fields: Fields)
    requires |request| == |response| && BuiltInNameOrder(request, response, fields)
    ensures forall p :: p in SplitAll(Columns(request)) ==> p in AnswerMap(request, response)
    ensures AnswersKept(request, response, fields)
       <==> Compatible(SplitAll(Columns(request)), AnswerMap(request, response))
  {
    var columns, values := SplitAll(Columns(request)), AnswerMap(request, response);
    RequestedPaths(request, response);
    var order :| multiset(order) == multiset(Columns(request)) && (forall p :: p in SplitAll(order) ==> p in values)
              && fields == SetAll(SplitAll(order), values);
    SplitAllMultiset(Columns(request), order);
    Sorting.SameMultiset(columns, SplitAll(order));
    AllReadIffCompatible(SplitAll(order), values);
    KeptIsRead(request, response, fields);
  }

  lemma KeptIsRead(request: seq<Timescale.Request>, response: seq<TimescaleResponse>, fields: Fields)
    requires |request| == |response|
    ensures forall p :: p in SplitAll(Columns(request)) ==> p in AnswerMap(request, response) && |p| > 0
    ensures AnswersKept(request, response, fields)
       <==> AllRead(SplitAll(Columns(request)), AnswerMap(request, response), fields)
  {
    var columns, values := SplitAll(Columns(request)), AnswerMap(request, response);
    RequestedPaths(request, response);
    forall k | 0 <= k < |request|
      ensures columns[k] == Split(request[k].column)
      ensures AnswerFor(request, response, request[k].column) == Some(values[columns[k]])
    {
      assert Columns(request)[k] == request[k].column;
      AnswerMapAt(request, response, request[k].column);
    }
    if AnswersKept(request, response, fields) {
      forall p | p in columns ensures At(fields, p) == Some(values[p]) {
        var k :| 0 <= k < |columns| && columns[k] == p;
      }
    }
    if AllRead(columns, values, fields) {
      forall k | 0 <= k < |request|
        ensures At(fields, Split(request[k].column)) == AnswerFor(request, response, request[k].column)
      {
        assert columns[k] in columns;
      }
    }
  }

  /** Where no answer is itself a map, that is: no column is the beginning of another one. "a" and "a.b"
      cannot both be kept. */
  lemma ScalarAnswersKept(request: seq<Timescale.Request>, response: seq<TimescaleResponse>, fields: Fields)
    requires |request| == |response| && forall k :: 0 <= k < |response| ==> !response[k].value.Obj?
    requires BuiltInNameOrder(request, response, fields)
    ensures AnswersKept(request, response, fields) <==> PrefixFree(SplitAll(Columns(request)))
  {
    AnswersKeptIffCompatible(request, response, fields);
    var columns, values := SplitAll(Columns(request)), AnswerMap(request, response);
    RequestedPaths(request, response);
    forall p | p in columns ensures !values[p].Obj? { AnswerForIsAnswer(request, response, Join(p)); }
    Nested.ScalarsCompatible(columns, values);
  }

  lemma {:induction false} AnswerForIsAnswer(request: seq<Timescale.Request>, response: seq<TimescaleResponse>,
                                             column: string)
    requires |request| == |response|
    ensures var a := AnswerFor(request, response, column);
            a.Some? ==> exists k :: 0 <= k < |response| && response[k].value == a.value
  {
    if |request| > 0 {
      var n := |request| - 1;
      AnswerForIsAnswer(request[..n], response[..n], column);
    }
  }

  /** The responses `castQueryResponse` makes of un-grouped values: it never sets a time. */
  function Untimed(values: seq<Json>): seq<TimescaleResponse> {
    seq(|values|, k requires 0 <= k < |values| => TimescaleResponse(None, values[k]))
  }

  lemma {:induction false} SameColumnSameAnswer(request: seq<Timescale.Request>, response: seq<TimescaleResponse>,
                                                column: string, value: Json)
    requires |request| == |response| && column in Columns(request)
    requires forall k :: 0 <= k < |request| && request[k].column == column ==> response[k].value == value
    ensures AnswerFor(request, response, column) == Some(value)
  {
    var n := |request| - 1;
    if request[n].column != column {
      assert Columns(request) == Columns(request[..n]) + [request[n].column];
      SameColumnSameAnswer(request[..n], response[..n], column, value);
    }
  }

  lemma RequestedLeaves(device: string, service: string, outputs: seq<ContentVariable>, request: seq<Timescale.Request>)
    requires Distinguishable(outputs)
    requires Columns(request) == AllContentPaths([], outputs)
    ensures SplitAll(Columns(request)) == AllLeaves([], outputs)
    ensures PrefixFree(AllLeaves([], outputs))
  {
    var leaves := AllLeaves([], outputs);
    PathsJoinLeaves([], outputs);
    forall k | 0 <= k < |leaves| ensures SplitAll(Columns(request))[k] == leaves[k] {
      assert leaves[k] in leaves;
      LeavesAreDotFree([], outputs, leaves[k]);
      SplitJoin(leaves[k]);
    }
    forall p | p in leaves ensures |p| > 0 { LeavesAreDotFree([], outputs, p); }
    forall p, q | p in leaves && q in leaves && p != q ensures Apart(p, q) { LeavesAreApart([], outputs, p, q); }
  }

  lemma LeafAnswer(device: string, service: string, outputs: seq<ContentVariable>, request: seq<Timescale.Request>,
                   values: seq<Json>, leaf: Path, value: Json) returns (k: nat)
    requires Distinguishable(outputs) && |values| == |request| == |AllContentPaths([], outputs)|
    requires forall k :: 0 <= k < |request| ==>
      request[k] == Timescale.Request(device, service, AllContentPaths([], outputs)[k])
    requires forall k :: 0 <= k < |request| && request[k].column == Join(leaf) ==> values[k] == value
    requires leaf in AllLeaves([], outputs)
    ensures k < |request| && Split(request[k].column) == leaf
    ensures AnswerFor(request, Untimed(values), request[k].column) == Some(value)
  {
    var leaves := AllLeaves([], outputs);
    PathsJoinLeaves([], outputs);
    k :| 0 <= k < |leaves| && leaves[k] == leaf;
    LeavesAreDotFree([], outputs, leaf);
    SplitJoin(leaf);
    assert Columns(request)[k] == request[k].column;
    SameColumnSameAnswer(request, Untimed(values), request[k].column, value);
  }

  /** With times required, the value made of un-grouped answers is an error, unless nothing was requested. */
  lemma UntimedIsMissing(request: seq<Timescale.Request>, values: seq<Json>, missingTimeIsError: bool,
                         result: Result<Fields>)
    requires |request| == |values| && ValueOf(request, Untimed(values), missingTimeIsError, result)
    ensures result.MissingLastValue? <==> missingTimeIsError && |request| > 0
  {
    if |request| > 0 { assert Untimed(values)[0].time.None?; }
  }

  /** Path and query round trip together: flattening the outputs of a service, grouping, answering and
      un-grouping the requests, and nesting the answers gives a map that reads the answered value at
      every leaf of the outputs, and holds nothing else - if and only if times are not required, or
      nothing is requested. */
  lemma LastValueRoundTrip(device: string, service: string, outputs: seq<ContentVariable>,
                           request: seq<Timescale.Request>, query: Timescale.Query, response: Timescale.Response,
                           row: (string, string) -> bool, cell: (string, string, string) -> Json,
                           values: Timescale.Outcome<seq<Json>>, missingTimeIsError: bool, result: Result<Fields>)
    requires Distinguishable(outputs)
    requires |request| == |AllContentPaths([], outputs)|
    requires forall k :: 0 <= k < |request| ==>
      request[k] == Timescale.Request(device, service, AllContentPaths([], outputs)[k])
    requires Timescale.Groups(request, query) && Timescale.Replies(query, response, row, cell)
    requires Timescale.Answers(request, query, response, values)
    requires values.Ok? && |values.value| == |request| ==>
      ValueOf(request, Untimed(values.value), missingTimeIsError, result)
    ensures values.Ok?
    ensures result.Success? <==> !missingTimeIsError || |AllContentPaths([], outputs)| == 0
    ensures result.Success? ==> forall leaf :: leaf in AllLeaves([], outputs) ==>
      |leaf| > 0
      && At(result.value, leaf) == Some(if row(device, service) then cell(device, service, Join(leaf)) else Null)
    ensures result.Success? ==>
      forall q :: |q| > 0 && At(result.value, q).Some? ==> Related(AllLeaves([], outputs), q)
  {
    Timescale.QueryRoundTrip(request, query, response, values, row, cell);
    UntimedIsMissing(request, values.value, missingTimeIsError, result);
    if result.Success? {
      NestedRoundTrip(device, service, outputs, request, values.value, row, cell, result.value);
    }
  }

  lemma NestedRoundTrip(device: string, service: string, outputs: seq<ContentVariable>, request: seq<Timescale.Request>,
                        values: seq<Json>, row: (string, string) -> bool, cell: (string, string, string) -> Json,
                        fields: Fields)
    requires Distinguishable(outputs) && |values| == |request| == |AllContentPaths([], outputs)|
    requires forall k :: 0 <= k < |request| ==>
      request[k] == Timescale.Request(device, service, AllContentPaths([], outputs)[k])
    requires forall k :: 0 <= k < |request| ==>
      values[k] == if row(device, service) then cell(device, service, request[k].column) else Null
    requires BuiltInNameOrder(request, Untimed(values), fields)
    ensures forall leaf :: leaf in AllLeaves([], outputs) ==>
      |leaf| > 0 && At(fields, leaf) == Some(if row(device, service) then cell(device, service, Join(leaf)) else Null)
    ensures forall q :: |q| > 0 && At(fields, q).Some? ==> Related(AllLeaves([], outputs), q)
  {
    assert Columns(request) == AllContentPaths([], outputs);
    RequestedLeaves(device, service, outputs, request);
    ValueHoldsAnswers(request, Untimed(values), fields);
    forall leaf | leaf in AllLeaves([], outputs)
      ensures |leaf| > 0
      ensures At(fields, leaf) == Some(if row(device, service) then cell(device, service, Join(leaf)) else Null)
    {
      var value := if row(device, service) then cell(device, service, Join(leaf)) else Null;
      var k := LeafAnswer(device, service, outputs, request, values, leaf, value);
    }
  }

  /** Of several requests for one column the last one counts. */
  lemma {:induction false} LastAnswerCounts(request: seq<Timescale.Request>, response: seq<TimescaleResponse>, k: nat)
    requires |request| == |response| && k < |request|
    requires forall l :: k < l < |request| ==> request[l].column != request[k].column
    ensures AnswerFor(request, response, request[k].column) == Some(response[k].value)
  {
    var n := |request| - 1;
    if k < n {
      assert request[..n][k] == request[k] && response[..n][k] == response[k];
      LastAnswerCounts(request[..n], response[..n], k);
    }
  }
}
