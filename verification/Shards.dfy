/** Assignment of users to engine shards, lib/camunda/shards/shards.go. Every operation is one
    serializable transaction; the cache may forget any entry at any time. */
module Shards {
  import opened Values

  /** The two database tables and this process's cache. */
  datatype State = State(shards: set<string>, mapping: map<string, string>, cache: map<string, string>)

  ghost function UsersOn(mapping: map<string, string>, shard: string): set<string> {
    set u | u in mapping && mapping[u] == shard
  }

  /** Users of one shard: the grouped left join counts every shard, also without users. */
  ghost function Count(mapping: map<string, string>, shard: string): nat {
    |UsersOn(mapping, shard)|
  }

  datatype Operation =
    | GetShard(user: string)
    | Ensure(user: string)
    | SetShard(user: string, shard: string)
    | AddShard(shard: string)
    | Forget(users: set<string>)

  datatype Result = Ok(shard: string) | NotFound | Error | Done

  /** `cache.Use`: an empty cached shard counts as missing. */
  function Cached(s: State, user: string): Option<string> {
    if user in s.cache && s.cache[user] != "" then Some(s.cache[user]) else None
  }

  /** A shard `selectShard` may return: one with the fewest users. */
  ghost predicate Fewest(s: State, shard: string) {
    shard in s.shards && forall other :: other in s.shards ==> Count(s.mapping, shard) <= Count(s.mapping, other)
  }

  /** A lookup through the cache. */
  ghost predicate Lookup(s: State, user: string, s': State, r: Result) {
    if Cached(s, user).Some? then s' == s && r == Ok(Cached(s, user).value)
    else if user in s.mapping then s' == s.(cache := s.cache[user := s.mapping[user]]) && r == Ok(s.mapping[user])
    else s' == s && r == NotFound
  }

  ghost predicate Next(s: State, op: Operation, s': State, r: Result) {
    match op
    case GetShard(user) => Lookup(s, user, s', r)
    case Ensure(user) =>
      if Cached(s, user).Some? || user in s.mapping then Lookup(s, user, s', r)
      else if r.Ok? then
        Fewest(s, r.shard) && r.shard != "" && s' == s.(mapping := s.mapping[user := r.shard])
      else r == Error && s' == s && (s.shards == {} || Fewest(s, ""))
    case SetShard(user, shard) =>
      if shard in s.shards then r == Done && s' == s.(mapping := s.mapping[user := shard], cache := s.cache - {user})
      else r == Error && s' == s  // the foreign key fails, the transaction is rolled back
    case AddShard(shard) => r == Done && s' == s.(shards := s.shards + {shard})
    case Forget(users) => r == Done && s' == s.(cache := s.cache - users)
  }

  class ShardsDb {
    var shards: set<string>
    var mapping: map<string, string>
    var cache: map<string, string>

    ghost function View(): State
      reads this
    {
      State(shards, mapping, cache)
    }

    constructor ()
      ensures View() == State({}, map[], map[])
    {
      shards, mapping, cache := {}, map[], map[];
    }

    method Use(user: string) returns (r: Result)
      modifies this`cache
      ensures Lookup(old(View()), user, View(), r)
    {
      if user in cache && cache[user] != "" { return Ok(cache[user]); }
      if user !in mapping { return NotFound; }
      cache := cache[user := mapping[user]];
      return Ok(mapping[user]);
    }

    method GetShardForUser(user: string) returns (r: Result)
      modifies this`cache
      ensures Next(old(View()), GetShard(user), View(), r)
    {
      r := Use(user);
    }

    method EnsureShardForUser(user: string) returns (r: Result)
      modifies this
      ensures Next(old(View()), Ensure(user), View(), r)
    {
      r := Use(user);
      if r != NotFound { return; }
      var shard := SelectShard();
      if shard == "" { return Error; }
      mapping := mapping[user := shard];
      return Ok(shard);
    }

    /** Visits the counts in the order of a Go map; of several smallest the last one visited wins. */
    method SelectShard() returns (shard: string)
      ensures if shards == {} then shard == "" else Fewest(View(), shard)
    {
      var min: Option<nat> := None;  // MaxInt in the source: no count exceeds it
      shard := "";
      var rest := shards;
      while rest != {}
        invariant rest <= shards
        invariant rest == shards <==> min.None?
        invariant min.Some? ==> shard in shards - rest && min.value == Count(mapping, shard)
        invariant min.Some? ==> forall other :: other in shards - rest ==> min.value <= Count(mapping, other)
        invariant min.None? ==> shard == ""
      {
        var next :| next in rest;
        rest := rest - {next};
        var count := |set u | u in mapping && mapping[u] == next|;
        assert UsersOn(mapping, next) == set u | u in mapping && mapping[u] == next;
        if min.None? || min.value >= count {
          min := Some(count);
          shard := next;
        }
      }
    }

    method SetShardForUser(user: string, shard: string) returns (r: Result)
      modifies this
      ensures Next(old(View()), SetShard(user, shard), View(), r)
    {
      var removed := mapping - {user};
      if shard !in shards { return Error; }
      mapping := removed[user := shard];
      assert mapping == old(mapping)[user := shard];
      cache := cache - {user};
      return Done;
    }

    method EnsureShard(shard: string)
      modifies this`shards
      ensures Next(old(View()), AddShard(shard), View(), Done)
    {
      shards := shards + {shard};
    }
  }

  /** Mapped shards exist, and every cached entry equals the stored one. */
  ghost predicate Consistent(s: State) {
    && (forall u :: u in s.mapping ==> s.mapping[u] in s.shards)
    && (forall u :: u in s.cache ==> u in s.mapping && s.cache[u] == s.mapping[u])
  }

  /** No shard has more than `gap` users more than another. */
  ghost predicate Balanced(s: State, gap: nat) {
    forall a, b :: a in s.shards && b in s.shards ==> Count(s.mapping, a) <= Count(s.mapping, b) + gap
  }

  lemma CountAdded(mapping: map<string, string>, user: string, shard: string, other: string)
    requires user !in mapping
    ensures Count(mapping[user := shard], other) == Count(mapping, other) + if other == shard then 1 else 0
  {
    var mapping' := mapping[user := shard];
    assert UsersOn(mapping', other) == UsersOn(mapping, other) + if other == shard then {user} else {};
  }

  datatype Event = Event(op: Operation, result: Result)

  ghost predicate IsRun(run: seq<State>, events: seq<Event>) {
    && |run| == |events| + 1
    && Consistent(run[0])
    && forall k :: 0 <= k < |events| ==> Next(run[k], events[k].op, run[k + 1], events[k].result)
  }

  lemma StepConsistent(s: State, op: Operation, s': State, r: Result)
    requires Consistent(s) && Next(s, op, s', r)
    ensures Consistent(s')
  {
  }

  lemma {:induction false} RunConsistent(run: seq<State>, events: seq<Event>, k: nat)
    requires IsRun(run, events) && k < |run|
    ensures Consistent(run[k])
  {
    if k > 0 {
      RunConsistent(run, events, k - 1);
      StepConsistent(run[k - 1], events[k - 1].op, run[k], events[k - 1].result);
    }
  }

  /** A lookup answers from the stored mapping, whether or not it came from the cache. */
  lemma CacheIsTransparent(run: seq<State>, events: seq<Event>, k: nat)
    requires IsRun(run, events) && k < |events| && events[k].op.GetShard?
    ensures events[k].result.Ok? <==> events[k].op.user in run[k].mapping
    ensures events[k].result.Ok? ==> events[k].result == Ok(run[k].mapping[events[k].op.user])
    ensures run[k + 1].mapping == run[k].mapping
  {
    RunConsistent(run, events, k);
    assert Next(run[k], events[k].op, run[k + 1], events[k].result);
  }

  /** The operation may take the user's entry from the cache. */
  predicate Drops(op: Operation, user: string) {
    (op.Forget? && user in op.users) || (op.SetShard? && op.user == user)
  }

  /** A shard that a lookup has found is answered from the cache until the entry is forgotten or the user is
      assigned explicitly. */
  lemma {:induction false} FoundIsCached(run: seq<State>, events: seq<Event>, k: nat, l: nat)
    requires IsRun(run, events) && k < l <= |events| && events[k].op.GetShard?
    requires events[k].result.Ok? && events[k].result.shard != ""
    requires forall m :: k < m < l ==> !Drops(events[m].op, events[k].op.user)
    ensures Cached(run[l], events[k].op.user) == Some(events[k].result.shard)
  {
    if l > k + 1 { FoundIsCached(run, events, k, l - 1); }
    RunConsistent(run, events, l - 1);
    assert Next(run[l - 1], events[l - 1].op, run[l], events[l - 1].result);
  }

  predicate Assigning(op: Operation) {
    op.GetShard? || op.Ensure? || op.Forget?
  }

  /** Balance: with a fixed set of shards and no explicit assignment, a run never widens the gap
      between shards beyond what it was, or 1; so from an empty mapping it stays within 1. */
  lemma {:induction false} BalanceIsKept(run: seq<State>, events: seq<Event>, gap: nat)
    requires IsRun(run, events) && gap >= 1 && Balanced(run[0], gap)
    requires forall k :: 0 <= k < |events| ==> Assigning(events[k].op)
    ensures Balanced(run[|events|], gap) && run[|events|].shards == run[0].shards
    ensures forall u :: u in run[0].mapping ==>
      u in run[|events|].mapping && run[|events|].mapping[u] == run[0].mapping[u]
  {
    if |events| > 0 {
      var n := |events| - 1;
      BalanceIsKept(run[..n + 1], events[..n], gap);
      var s, s', r := run[n], run[n + 1], events[n].result;
      RunConsistent(run, events, n);
      assert Next(s, events[n].op, s', r);
      if s'.mapping != s.mapping {
        var user := events[n].op.user;
        forall a, b | a in s.shards && b in s.shards ensures Count(s'.mapping, a) <= Count(s'.mapping, b) + gap {
          CountAdded(s.mapping, user, r.shard, a);
          CountAdded(s.mapping, user, r.shard, b);
        }
      }
    }
  }

  lemma BalanceFromEmpty(run: seq<State>, events: seq<Event>)
    requires IsRun(run, events) && run[0].mapping == map[]
    requires forall k :: 0 <= k < |events| ==> Assigning(events[k].op)
    ensures Balanced(run[|events|], 1)
  {
    forall a ensures Count(run[0].mapping, a) == 0 { assert UsersOn(run[0].mapping, a) == {}; }
    BalanceIsKept(run, events, 1);
  }

  /** The user counts of a set of shards, added up. */
  ghost function Total(mapping: map<string, string>, shards: set<string>): nat {
    if shards == {} then 0
    else
      var shard :| shard in shards;
      Count(mapping, shard) + Total(mapping, shards - {shard})
  }

  ghost function UsersOnAny(mapping: map<string, string>, shards: set<string>): set<string> {
    set u | u in mapping && mapping[u] in shards
  }

  lemma OneMoreShard(mapping: map<string, string>, shards: set<string>, shard: string)
    requires shard in shards
    ensures |UsersOnAny(mapping, shards)| == Count(mapping, shard) + |UsersOnAny(mapping, shards - {shard})|
  {
    var others := UsersOnAny(mapping, shards - {shard});
    assert UsersOnAny(mapping, shards) == UsersOn(mapping, shard) + others;
    assert UsersOn(mapping, shard) * others == {};
  }

  lemma {:induction false} TotalCountsUsers(mapping: map<string, string>, shards: set<string>)
    ensures Total(mapping, shards) == |UsersOnAny(mapping, shards)|
  {
    if shards == {} {
      assert UsersOnAny(mapping, shards) == {};
    } else {
      var shard :| shard in shards
                   && Total(mapping, shards) == Count(mapping, shard) + Total(mapping, shards - {shard});
      TotalCountsUsers(mapping, shards - {shard});
      OneMoreShard(mapping, shards, shard);
    }
  }

  /** In every run of all operations, each user is counted on exactly one shard. */
  lemma EveryUserCounted(run: seq<State>, events: seq<Event>, k: nat)
    requires IsRun(run, events) && k < |run|
    ensures Total(run[k].mapping, run[k].shards) == |run[k].mapping|
  {
    RunConsistent(run, events, k);
    TotalCountsUsers(run[k].mapping, run[k].shards);
    assert UsersOnAny(run[k].mapping, run[k].shards) == run[k].mapping.Keys;
    assert |run[k].mapping.Keys| == |run[k].mapping|;
  }

  /** The operation gives the user this shard: by assigning it, or by finding it assigned. */
  predicate Gives(e: Event, user: string, shard: string) {
    match e.op
    case GetShard(u) => u == user && e.result == Ok(shard)
    case Ensure(u) => u == user && e.result == Ok(shard)
    case SetShard(u, to) => u == user && to == shard && e.result == Done
    case _ => false
  }

  lemma GivesIsStored(s: State, e: Event, s': State, user: string, shard: string)
    requires Consistent(s) && Next(s, e.op, s', e.result) && Gives(e, user, shard)
    ensures user in s'.mapping && s'.mapping[user] == shard
  {
  }

  lemma {:induction false} AssignmentStays(run: seq<State>, events: seq<Event>, user: string, k: nat, l: nat)
    requires IsRun(run, events) && k <= l <= |events| && user in run[k].mapping
    requires forall m :: k <= m < l && events[m].op.SetShard? && events[m].op.user == user ==> events[m].result == Error
    ensures user in run[l].mapping && run[l].mapping[user] == run[k].mapping[user]
  {
    if k < l {
      AssignmentStays(run, events, user, k, l - 1);
      RunConsistent(run, events, l - 1);
      assert Next(run[l - 1], events[l - 1].op, run[l], events[l - 1].result);
    }
  }

  /** The shard an operation has given a user is the one every later operation gives it, until the user is
      assigned explicitly again. */
  lemma GivenShardStays(run: seq<State>, events: seq<Event>, user: string, shard: string, k: nat, l: nat)
    requires IsRun(run, events) && k < l < |events| && Gives(events[k], user, shard)
    requires forall m :: k < m < l && events[m].op.SetShard? && events[m].op.user == user ==> events[m].result == Error
    requires (events[l].op.GetShard? || events[l].op.Ensure?) && events[l].op.user == user
    ensures events[l].result == Ok(shard)
  {
    RunConsistent(run, events, k);
    assert Next(run[k], events[k].op, run[k + 1], events[k].result);
    GivesIsStored(run[k], events[k], run[k + 1], user, shard);
    AssignmentStays(run, events, user, k + 1, l);
    RunConsistent(run, events, l);
    assert Next(run[l], events[l].op, run[l + 1], events[l].result);
  }

  /** A user gets a shard if and only if it has one or there is any. Shard addresses are not empty. */
  lemma EnsureGivesIff(run: seq<State>, events: seq<Event>, k: nat)
    requires IsRun(run, events) && k < |events| && events[k].op.Ensure? && "" !in run[k].shards
    ensures events[k].result.Ok? <==> events[k].op.user in run[k].mapping || run[k].shards != {}
    ensures events[k].result.Ok? ==> events[k].result.shard in run[k].shards
  {
    RunConsistent(run, events, k);
    assert Next(run[k], events[k].op, run[k + 1], events[k].result);
  }

  /** No operation changes the shard of a user it is not for, or takes a shard away. */
  lemma OthersKeepShards(s: State, op: Operation, s': State, r: Result, user: string)
    requires Next(s, op, s', r)
    requires (op.Ensure? || op.SetShard?) ==> op.user != user
    ensures user in s'.mapping <==> user in s.mapping
    ensures user in s.mapping ==> s'.mapping[user] == s.mapping[user]
    ensures s.shards <= s'.shards && (!op.AddShard? ==> s'.shards == s.shards)
    ensures op.AddShard? ==> s'.shards == s.shards + {op.shard}
  {
  }
}
