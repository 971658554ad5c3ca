/** ROUND_ROBIN is fair: within one life of a task no unanswered sub-task is ever more than one try
    ahead of another, whatever the clock and the responses do. */
module Fairness {
  import opened Values
  import opened Messages
  import opened Storage
  import opened SubTasks
  import opened Scheduling
  import opened Steps
  import opened Runs
  import opened Lives

  /** An untried sub-task is earlier than any tried one. */
  predicate Earlier(a: Option<int>, b: Option<int>) {
    b.Some? && (a.None? || a.value < b.value)
  }

  ghost predicate PairIsFair(a: SubTaskState, b: SubTaskState) {
    a.tryCount <= b.tryCount + 1 && (Earlier(a.lastTry, b.lastTry) ==> a.tryCount <= b.tryCount)
  }

  /** Try counts differ by at most one, and who was tried earlier was not tried more often. */
  ghost predicate Fair(s: Store, ids: set<string>) {
    forall a, b :: a in ids && b in ids ==> PairIsFair(StateOf(s, a), StateOf(s, b))
  }

  /** The dispatched sub-task has the fewest tries of all unanswered ones, also of those the running
      filter or the budget has hidden. */
  lemma DispatchedIsLeast(cfg: Config, s: Store, ids: set<string>, x: string, y: string, retries: int, now: int)
    requires Fair(s, ids) && x in ids && y in ids && Ready(cfg, s, x, retries, now)
    requires Ready(cfg, s, y, retries, now) ==> StateOf(s, x).tryCount <= StateOf(s, y).tryCount
    ensures StateOf(s, x).tryCount <= StateOf(s, y).tryCount
  {
    assert PairIsFair(StateOf(s, x), StateOf(s, y));
  }

  lemma DispatchKeepsFair(cfg: Config, s: Store, ids: set<string>, x: string, retries: int, now: int, s': Store)
    requires Fair(s, ids) && x in ids && Ready(cfg, s, x, retries, now) && TriedBy(s, now)
    requires forall y :: y in ids && Ready(cfg, s, y, retries, now) ==> StateOf(s, x).tryCount <= StateOf(s, y).tryCount
    requires s'.state == s.state[x := SubTaskState(Some(now), StateOf(s, x).tryCount + 1)]
    ensures Fair(s', ids)
  {
    forall a, b | a in ids && b in ids ensures PairIsFair(StateOf(s', a), StateOf(s', b)) {
      assert PairIsFair(StateOf(s, a), StateOf(s, b));
      assert PairIsFair(StateOf(s, b), StateOf(s, a));
      assert a != x ==> StateOf(s', a) == StateOf(s, a);
      assert b != x ==> StateOf(s', b) == StateOf(s, b);
      if a == x && b != x { DispatchedIsLeast(cfg, s, ids, x, b, retries, now); }
    }
  }

  /** A call for the task keeps its open sub-tasks fair. */
  lemma CallKeepsFair(cfg: Config, s: Store, taskId: string, retries: int, now: int, s': Store, out: Output)
    requires cfg.scheduler.RoundRobin? && Dispatch(cfg, s, taskId, retries, now, s', out) && TriedBy(s, now)
    requires taskId in s'.meta && Fair(s, Choices(s, s', taskId))
    ensures Fair(s', Choices(s, s', taskId))
  {
    var ids := Choices(s, s', taskId);
    if |out.next| == 0 {
      forall a, b | a in ids && b in ids ensures PairIsFair(StateOf(s', a), StateOf(s', b)) {
        assert PairIsFair(StateOf(s, a), StateOf(s, b));
      }
    } else {
      var x := out.next[0].metadata;
      assert x in Candidates(s, s', taskId);
      DispatchKeepsFair(cfg, s, ids, x.task.id, retries, now, s');
    }
  }

  lemma FairSubset(s: Store, s': Store, ids: set<string>, ids': set<string>)
    requires Fair(s, ids) && ids' <= ids
    requires forall id :: id in ids' ==> StateOf(s', id) == StateOf(s, id)
    ensures Fair(s', ids')
  {
    forall a, b | a in ids' && b in ids' ensures PairIsFair(StateOf(s', a), StateOf(s', b)) {
      assert PairIsFair(StateOf(s, a), StateOf(s, b));
    }
  }

  /** Any step of a life keeps the unanswered sub-tasks fair. */
  lemma StepKeepsFair(cfg: Config, s: Store, e: Event, s': Store, taskId: string)
    requires cfg.scheduler.RoundRobin? && Agree(s) && Step(cfg, s, e, s') && (e.CommandEvent? ==> TriedBy(s, e.now))
    requires taskId in s.meta && taskId in s'.meta && Owner(taskId) == taskId
    requires Fair(s, Unanswered(s, taskId))
    ensures Fair(s', Unanswered(s', taskId))
  {
    LifeStep(cfg, s, e, s', taskId);
    StepTries(cfg, s, e, s');
    if Commands(e, taskId) {
      ChoicesAreOpen(s, s', taskId);
      CallKeepsFair(cfg, s, taskId, e.command.retries, e.now, s', e.out);
      assert Unanswered(s', taskId) == Unanswered(s, taskId);
    } else {
      forall id | id in Unanswered(s', taskId)
        ensures StateOf(s', id) == StateOf(s, id) && id in Unanswered(s, taskId)
      {
        ChildIsOwned(s, taskId, id);
        OthersKeepTries(cfg, s, e, s', id);
      }
      FairSubset(s, s', Unanswered(s, taskId), Unanswered(s', taskId));
    }
  }

  /** Sub-tasks that no call has tried are fair. */
  lemma UntriedIsFair(s: Store, ids: set<string>)
    requires forall id :: id in ids ==> StateOf(s, id) == SubTaskState(None, 0)
    ensures Fair(s, ids)
  {
  }

  /** The call that stores a family of fair sub-tasks leaves them fair. */
  lemma CreationIsFair(cfg: Config, s: Store, e: Event, s': Store, taskId: string)
    requires cfg.scheduler.RoundRobin? && Agree(s) && Step(cfg, s, e, s') && (e.CommandEvent? ==> TriedBy(s, e.now))
    requires taskId !in s.meta && taskId in s'.meta && Owner(taskId) == taskId
    requires Fair(s, Ids(s'.meta[taskId].children))
    ensures Fair(s', Unanswered(s', taskId))
  {
    if !Commands(e, taskId) { OnlyCallsCreate(cfg, s, e, s', taskId); }
    StepTries(cfg, s, e, s');
    ChoicesAreOpen(s, s', taskId);
    var all := Choices(s, s', taskId);
    CallKeepsFair(cfg, s, taskId, e.command.retries, e.now, s', e.out);
    FairSubset(s', s', all, Unanswered(s', taskId));
  }

  /** Step c of the run creates the family of the task, and it lives on to state n. */
  ghost predicate Life(stores: seq<Store>, taskId: string, c: nat, n: nat)
    requires c < n < |stores|
  {
    && Owner(taskId) == taskId && taskId !in stores[c].meta
    && forall k :: c < k <= n ==> taskId in stores[k].meta
  }

  ghost predicate FairNow(s: Store, taskId: string) {
    taskId in s.meta && Fair(s, Unanswered(s, taskId))
  }

  /** What every step of a run may count on. */
  lemma StepOfRun(cfg: Config, stores: seq<Store>, events: seq<Event>, k: nat)
    requires IsRun(cfg, stores, events) && cfg.scheduler.RoundRobin? && k < |events|
    ensures |stores| == |events| + 1
    ensures Agree(stores[k]) && Step(cfg, stores[k], events[k], stores[k + 1])
    ensures events[k].CommandEvent? ==> TriedBy(stores[k], events[k].now)
  {
    AgreementHolds(cfg, stores, events, k);
    if events[k].CommandEvent? { ClockIsAhead(cfg, stores, events, k); }
  }

  /** Step k of the life. */
  lemma LifeStepIsFair(cfg: Config, stores: seq<Store>, events: seq<Event>, taskId: string, k: nat)
    requires IsRun(cfg, stores, events) && cfg.scheduler.RoundRobin? && k < |events| && Owner(taskId) == taskId
    requires taskId in stores[k + 1].meta
    requires if taskId in stores[k].meta then FairNow(stores[k], taskId)
             else Fair(stores[k], Ids(stores[k + 1].meta[taskId].children))
    ensures FairNow(stores[k + 1], taskId)
  {
    StepOfRun(cfg, stores, events, k);
    if taskId in stores[k].meta {
      StepKeepsFair(cfg, stores[k], events[k], stores[k + 1], taskId);
    } else {
      CreationIsFair(cfg, stores[k], events[k], stores[k + 1], taskId);
    }
  }

  /** The steps c to n of the run, one by one. */
  lemma LifeSteps(cfg: Config, stores: seq<Store>, events: seq<Event>, taskId: string, c: nat, n: nat)
    requires IsRun(cfg, stores, events) && cfg.scheduler.RoundRobin?
    requires c < n < |stores| && Life(stores, taskId, c, n)
    requires Fair(stores[c], Ids(stores[c + 1].meta[taskId].children))
    ensures FairNow(stores[c + 1], taskId)
    ensures forall k :: c < k < n && FairNow(stores[k], taskId) ==> FairNow(stores[k + 1], taskId)
  {
    LifeStepIsFair(cfg, stores, events, taskId, c);
    forall k | c < k < n && FairNow(stores[k], taskId) ensures FairNow(stores[k + 1], taskId) {
      LifeStepIsFair(cfg, stores, events, taskId, k);
    }
  }

  lemma {:induction false} LifeIsFair(stores: seq<Store>, taskId: string, c: nat, n: nat)
    requires c < n < |stores| && FairNow(stores[c + 1], taskId)
    requires forall k :: c < k < n && FairNow(stores[k], taskId) ==> FairNow(stores[k + 1], taskId)
    ensures FairNow(stores[n], taskId)
  {
    if c + 1 < n { LifeIsFair(stores, taskId, c, n - 1); }
  }

  /** No call for the task before step c. */
  ghost predicate FirstCall(events: seq<Event>, taskId: string, c: nat)
    requires c <= |events|
  {
    forall k :: 0 <= k < c ==> !Commands(events[k], taskId)
  }

  lemma {:induction false} Untried(cfg: Config, stores: seq<Store>, events: seq<Event>, id: string, n: nat)
    requires IsRun(cfg, stores, events) && OneAtATime(cfg) && n <= |events| && FirstCall(events, Owner(id), n)
    ensures StateOf(stores[n], id) == SubTaskState(None, 0)
  {
    if n > 0 {
      Untried(cfg, stores, events, id, n - 1);
      AgreementHolds(cfg, stores, events, n - 1);
      OthersKeepTries(cfg, stores[n - 1], events[n - 1], stores[n], id);
    }
  }

  /** The first life of a task is fair, without any condition. */
  lemma FirstLifeIsFair(cfg: Config, stores: seq<Store>, events: seq<Event>, taskId: string, c: nat, n: nat)
    requires IsRun(cfg, stores, events) && cfg.scheduler.RoundRobin?
    requires c < n < |stores| && Life(stores, taskId, c, n) && FirstCall(events, taskId, c)
    ensures forall a, b :: a in Unanswered(stores[n], taskId) && b in Unanswered(stores[n], taskId) ==>
      -1 <= StateOf(stores[n], a).tryCount - StateOf(stores[n], b).tryCount <= 1
  {
    var ids := Ids(stores[c + 1].meta[taskId].children);
    AgreementHolds(cfg, stores, events, c + 1);
    forall id | id in ids ensures StateOf(stores[c], id) == SubTaskState(None, 0) {
      ChildIsOwned(stores[c + 1], taskId, id);
      Untried(cfg, stores, events, id, c);
    }
    UntriedIsFair(stores[c], ids);
    forall a, b | a in Unanswered(stores[n], taskId) && b in Unanswered(stores[n], taskId)
      ensures -1 <= StateOf(stores[n], a).tryCount - StateOf(stores[n], b).tryCount <= 1
    {
      RoundRobinIsFair(cfg, stores, events, taskId, c, n, a, b);
    }
  }

  /** Fairness: in the life of a task whose sub-tasks start fair, as untried ones do, the try counts of two
      unanswered sub-tasks never differ by more than one, and the one tried longer ago is not ahead. */
  lemma RoundRobinIsFair(cfg: Config, stores: seq<Store>, events: seq<Event>, taskId: string, c: nat, n: nat,
                         a: string, b: string)
    requires IsRun(cfg, stores, events) && cfg.scheduler.RoundRobin?
    requires c < n < |stores| && Life(stores, taskId, c, n)
    requires Fair(stores[c], Ids(stores[c + 1].meta[taskId].children))
    requires a in Unanswered(stores[n], taskId) && b in Unanswered(stores[n], taskId)
    ensures -1 <= StateOf(stores[n], a).tryCount - StateOf(stores[n], b).tryCount <= 1
    ensures Earlier(StateOf(stores[n], a).lastTry, StateOf(stores[n], b).lastTry) ==>
      StateOf(stores[n], a).tryCount <= StateOf(stores[n], b).tryCount
  {
    LifeSteps(cfg, stores, events, taskId, c, n);
    LifeIsFair(stores, taskId, c, n);
    assert PairIsFair(StateOf(stores[n], a), StateOf(stores[n], b));
    assert PairIsFair(StateOf(stores[n], b), StateOf(stores[n], a));
  }

  /** Fair once x is dispatched: the others are fair, and none has fewer tries than x or is ahead of it by
      more than one try - by more than two, if it was tried at this very moment. */
  ghost predicate FairAfter(s: Store, ids: set<string>, x: string, now: int) {
    && Fair(s, ids - {x})
    && forall a :: a in ids - {x} ==>
         && StateOf(s, x).tryCount <= StateOf(s, a).tryCount <= StateOf(s, x).tryCount + 2
         && (Earlier(StateOf(s, a).lastTry, Some(now)) ==> StateOf(s, a).tryCount <= StateOf(s, x).tryCount + 1)
  }

  lemma DispatchIsFairIff(s: Store, ids: set<string>, x: string, now: int, s': Store)
    requires x in ids && TriedBy(s, now)
    requires s'.state == s.state[x := SubTaskState(Some(now), StateOf(s, x).tryCount + 1)]
    ensures Fair(s', ids) <==> FairAfter(s, ids, x, now)
  {
    forall a | a != x ensures StateOf(s', a) == StateOf(s, a) {}
    if Fair(s', ids) {
      forall a, b | a in ids - {x} && b in ids - {x} ensures PairIsFair(StateOf(s, a), StateOf(s, b)) {
        assert PairIsFair(StateOf(s', a), StateOf(s', b));
      }
      forall a | a in ids - {x}
        ensures StateOf(s, x).tryCount <= StateOf(s, a).tryCount <= StateOf(s, x).tryCount + 2
        ensures Earlier(StateOf(s, a).lastTry, Some(now)) ==> StateOf(s, a).tryCount <= StateOf(s, x).tryCount + 1
      {
        assert PairIsFair(StateOf(s', a), StateOf(s', x)) && PairIsFair(StateOf(s', x), StateOf(s', a));
      }
    } else if FairAfter(s, ids, x, now) {
      forall a, b | a in ids && b in ids ensures PairIsFair(StateOf(s', a), StateOf(s', b)) {
        assert a != x && b != x ==> PairIsFair(StateOf(s, a), StateOf(s, b));
        assert StateOf(s, b).lastTry.Some? ==> StateOf(s, b).lastTry.value <= now;
      }
    }
  }

  /** The life is fair throughout exactly if it is so once its family is stored. */
  lemma LifeIsFairIff(cfg: Config, stores: seq<Store>, events: seq<Event>, taskId: string, c: nat, n: nat)
    requires IsRun(cfg, stores, events) && cfg.scheduler.RoundRobin?
    requires c < n < |stores| && Life(stores, taskId, c, n)
    ensures (forall k :: c < k <= n ==> FairNow(stores[k], taskId)) <==> FairNow(stores[c + 1], taskId)
  {
    if FairNow(stores[c + 1], taskId) {
      forall k | c < k < n && FairNow(stores[k], taskId) ensures FairNow(stores[k + 1], taskId) {
        LifeStepIsFair(cfg, stores, events, taskId, k);
      }
      forall k | c < k <= n ensures FairNow(stores[k], taskId) { LifeIsFair(stores, taskId, c, k); }
    }
  }

  lemma SameStatesFair(s: Store, s': Store, ids: set<string>)
    requires forall id :: id in ids ==> StateOf(s', id) == StateOf(s, id)
    ensures Fair(s', ids) <==> Fair(s, ids)
  {
    if Fair(s, ids) { FairSubset(s, s', ids, ids); }
    if Fair(s', ids) { FairSubset(s', s, ids, ids); }
  }

  lemma CallIsFairIff(cfg: Config, s: Store, taskId: string, retries: int, now: int, s': Store, out: Output,
                      ids: set<string>)
    requires Dispatch(cfg, s, taskId, retries, now, s', out) && TriedBy(s, now)
    ensures Fair(s', ids)
       <==> if |out.next| == 0 || out.next[0].metadata.task.id !in ids then Fair(s, ids)
            else FairAfter(s, ids, out.next[0].metadata.task.id, now)
  {
    if |out.next| == 0 || out.next[0].metadata.task.id !in ids {
      forall id | id in ids ensures StateOf(s', id) == StateOf(s, id) {}
      SameStatesFair(s, s', ids);
    } else {
      DispatchIsFairIff(s, ids, out.next[0].metadata.task.id, now, s');
    }
  }

  /** The family is fair once it is stored exactly if the old counts of the children that wait for a result
      allow it: they are fair, or the sub-task sent at once, if it is one of them, makes them so. */
  lemma CreationIsFairIff(cfg: Config, s: Store, e: Event, s': Store, taskId: string)
    requires cfg.scheduler.RoundRobin? && Agree(s) && Step(cfg, s, e, s') && Commands(e, taskId) && TriedBy(s, e.now)
    requires taskId !in s.meta && taskId in s'.meta && Owner(taskId) == taskId
    ensures var ids := Unanswered(s', taskId);
            FairNow(s', taskId) <==>
              if |e.out.next| == 0 || e.out.next[0].metadata.task.id !in ids then Fair(s, ids)
              else FairAfter(s, ids, e.out.next[0].metadata.task.id, e.now)
  {
    StepTries(cfg, s, e, s');
    CallIsFairIff(cfg, s, taskId, e.command.retries, e.now, s', e.out, Unanswered(s', taskId));
  }

  /** A second life can start unfair: without late results it does whenever one of its children was sent at
      least three times more often in earlier lives than another. */
  lemma OldTriesAreUnfair(cfg: Config, stores: seq<Store>, events: seq<Event>, taskId: string, c: nat, a: string,
                          b: string)
    requires IsRun(cfg, stores, events) && cfg.scheduler.RoundRobin? && c < |events| && Commands(events[c], taskId)
    requires taskId in stores[c + 1].meta && a in Unanswered(stores[c + 1], taskId)
    requires b in Unanswered(stores[c + 1], taskId)
    requires DispatchCount(events[..c], b) >= DispatchCount(events[..c], a) + 3
    ensures StateOf(stores[c + 1], b).tryCount >= StateOf(stores[c + 1], a).tryCount + 2
    ensures !FairNow(stores[c + 1], taskId)
  {
    Prefix(cfg, stores, events, c);
    TriesAreDispatches(cfg, stores[..c + 1], events[..c], a);
    TriesAreDispatches(cfg, stores[..c + 1], events[..c], b);
    AgreementHolds(cfg, stores, events, c);
    StepTries(cfg, stores[c], events[c], stores[c + 1]);
    assert !PairIsFair(StateOf(stores[c + 1], b), StateOf(stores[c + 1], a));
  }
}
