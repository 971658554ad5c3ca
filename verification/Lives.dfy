/** One life of a task: the steps from the call that stores its family to the one that clears it. */
module Lives {
  import opened Values
  import opened Messages
  import opened Storage
  import opened SubTasks
  import opened Scheduling
  import opened Steps
  import opened Runs

  /** The ids of the children of a task that wait for a result. */
  ghost function Unanswered(s: Store, taskId: string): set<string>
    requires taskId in s.meta
  {
    set e | e in s.meta[taskId].children && e.task.id !in s.result :: e.task.id
  }

  /** The ids a call may dispatch. */
  ghost function Choices(s: Store, s': Store, taskId: string): set<string>
    requires taskId in s'.meta
  {
    set e | e in Candidates(s, s', taskId) :: e.task.id
  }

  lemma ChoicesAreOpen(s: Store, s': Store, taskId: string)
    requires taskId in s'.meta
    ensures taskId in s.meta && s'.meta == s.meta ==> Choices(s, s', taskId) == Unanswered(s, taskId)
    ensures taskId !in s.meta ==> Choices(s, s', taskId) == Ids(s'.meta[taskId].children)
  {
    forall e { MissingIff(s.result, s'.meta[taskId].children, e); }
  }

  lemma ChildIsOwned(s: Store, taskId: string, id: string)
    requires Agree(s) && taskId in s.meta && Owner(taskId) == taskId && id in Ids(s.meta[taskId].children)
    ensures Owner(id) == taskId
  {
    assert Family(s, taskId);
    OwnerOfMember(s.meta[taskId], id);
  }

  /** While a family lives it stays as it was created, and no child loses a result. */
  lemma LifeStep(cfg: Config, s: Store, e: Event, s': Store, taskId: string)
    requires Agree(s) && Step(cfg, s, e, s')
    requires taskId in s.meta && taskId in s'.meta && Owner(taskId) == taskId
    ensures s'.meta[taskId] == s.meta[taskId]
    ensures Commands(e, taskId) ==> s'.meta == s.meta && s'.result == s.result
    ensures forall x :: x in Ids(s.meta[taskId].children) && x in s.result ==> x in s'.result
  {
    StepAgrees(cfg, s, e, s');
    if Commands(e, taskId) {
      var env :| Process(cfg, env, s, e.command, e.task, e.caller, e.now, s', e.out);
      ProcessEffect(cfg, env, s, e.command, e.task, e.caller, e.now, s', e.out);
    } else if e.ResponseEvent? && Owner(e.id) == taskId {
      RespondEffect(s, e.id, e.value, s', e.response);
    } else {
      assert Get(s'.meta, taskId) == Get(s.meta, taskId);
      forall x | x in Ids(s.meta[taskId].children) && x in s.result ensures x in s'.result {
        ChildIsOwned(s, taskId, x);
        assert Get(s'.result, x) == Get(s.result, x);
      }
    }
  }

  /** Only a call for its task changes the try count of a sub-task. */
  lemma OthersKeepTries(cfg: Config, s: Store, e: Event, s': Store, id: string)
    requires OneAtATime(cfg) && Agree(s) && Step(cfg, s, e, s') && !Commands(e, Owner(id))
    ensures StateOf(s', id) == StateOf(s, id)
  {
    StepTries(cfg, s, e, s');
    if e.CommandEvent? && Dispatches(e, id) { DispatchIsOwned(cfg, s, e, s', id); }
  }

  /** A recorded last try is the time of the latest dispatch. */
  lemma {:induction false} LastTryIsDispatch(cfg: Config, stores: seq<Store>, events: seq<Event>, id: string)
    requires IsRun(cfg, stores, events) && OneAtATime(cfg)
    ensures var last := StateOf(stores[|events|], id).lastTry;
            last.Some? ==> exists k :: 0 <= k < |events| && Dispatches(events[k], id) && events[k].now == last.value
  {
    if |events| > 0 {
      var n := |events| - 1;
      Prefix(cfg, stores, events, n);
      LastTryIsDispatch(cfg, stores[..n + 1], events[..n], id);
      AgreementHolds(cfg, stores, events, n);
      StepTries(cfg, stores[n], events[n], stores[n + 1]);
      if Dispatches(events[n], id) {
        assert events[n].now == StateOf(stores[n + 1], id).lastTry.value;
      } else {
        assert StateOf(stores[n + 1], id) == StateOf(stores[n], id);
        if StateOf(stores[n], id).lastTry.Some? {
          var k :| 0 <= k < n && Dispatches(events[..n][k], id)
                   && events[..n][k].now == StateOf(stores[n], id).lastTry.value;
          assert events[..n][k] == events[k];
        }
      }
    }
  }

  /** No recorded try is later than the clock. */
  ghost predicate TriedBy(s: Store, now: int) {
    forall id {:trigger StateOf(s, id)} :: StateOf(s, id).lastTry.Some? ==> StateOf(s, id).lastTry.value <= now
  }

  lemma ClockIsAhead(cfg: Config, stores: seq<Store>, events: seq<Event>, n: nat)
    requires IsRun(cfg, stores, events) && OneAtATime(cfg)
    requires n < |events| && events[n].CommandEvent?
    ensures TriedBy(stores[n], events[n].now)
  {
    Prefix(cfg, stores, events, n);
    forall id | StateOf(stores[n], id).lastTry.Some? ensures StateOf(stores[n], id).lastTry.value <= events[n].now {
      LastTryIsDispatch(cfg, stores[..n + 1], events[..n], id);
      var k :| 0 <= k < n && Dispatches(events[..n][k], id)
               && events[..n][k].now == StateOf(stores[n], id).lastTry.value;
      assert events[..n][k] == events[k];
    }
  }
}
