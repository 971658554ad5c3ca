/** SEQUENTIAL and ROUND_ROBIN never end a task without a result. */
module NoEmptyCompletion {
  import opened Values
  import opened Messages
  import opened Storage
  import opened SubTasks
  import opened Scheduling
  import opened Steps
  import opened Runs

  /** Every stored family has children. */
  ghost predicate Populated(s: Store) {
    forall id :: id in s.meta ==> |s.meta[id].children| > 0
  }

  /** Metadata is old, or of a family with children. */
  ghost predicate Adds(s: Store, s': Store) {
    forall id :: id in s'.meta ==> (id in s.meta && s'.meta[id] == s.meta[id]) || |s'.meta[id].children| > 0
  }

  /** A call that leaves a family it has stored found sub-tasks for it. */
  lemma CreatedHasChildren(cfg: Config, env: Env, s: Store, command: Command, task: Task, caller: Caller, now: int,
                           s': Store, out: Output)
    requires Called(cfg, env, s, command, task, caller, now, s', out) && OneAtATime(cfg)
    requires task.id !in s.meta && task.id in s'.meta
    ensures Adds(s, s')
  {
    if !Ignores(cfg, s, task.id, caller, now) {
      var s0 := SaveCall(cfg, s, task.id, caller, now);
      var (s1, open) := OpenSubTasks(env, s0, command, task);
      if open.Ok? && Requests(env, open.value.missing).Ok? {
        TakenHasElements(cfg, s1, open.value.missing, open.value.results, task.id, command.retries, now, s', out);
      }
    }
  }

  lemma TakenHasElements(cfg: Config, s: Store, elements: seq<Element>, results: seq<Json>, taskId: string,
                         retries: int, now: int, s': Store, out: Output)
    requires Taken(cfg, s, elements, results, taskId, retries, now, s', out) && taskId in s'.meta
    requires taskId in s.meta && taskId in Members(s.meta[taskId])
    ensures |elements| > 0 && s'.meta == s.meta
  {
  }

  lemma ParallelHasChildren(cfg: Config, env: Env, s: Store, command: Command, task: Task, caller: Caller, now: int,
                            s': Store, out: Output)
    requires Process(cfg, env, s, command, task, caller, now, s', out) && cfg.scheduler.Parallel?
    requires task.id !in s.meta && task.id in s'.meta
    ensures Adds(s, s')
  {
    if !Ignores(cfg, s, task.id, caller, now) {
      var (s1, open) := OpenSubTasks(env, s, command, task);
      if open.Ok? && Requests(env, open.value.missing).Ok? {
        RequestsCover(env, open.value.missing);
        assert s1.meta[task.id] == Metadata(Element(command, task), open.value.missing);
        assert task.id in Members(s1.meta[task.id]);
      }
    }
  }

  predicate Known(cfg: Config) {
    OneAtATime(cfg) || cfg.scheduler.Parallel?
  }

  lemma CallKeepsPopulated(cfg: Config, env: Env, s: Store, command: Command, task: Task, caller: Caller, now: int,
                           s': Store, out: Output)
    requires Agree(s) && '_' !in task.id && Known(cfg)
    requires Process(cfg, env, s, command, task, caller, now, s', out)
    ensures Adds(s, s')
  {
    if task.id !in s.meta && task.id in s'.meta {
      if OneAtATime(cfg) {
        ProcessIsCalled(cfg, env, s, command, task, caller, now, s', out);
        CreatedHasChildren(cfg, env, s, command, task, caller, now, s', out);
      } else {
        ParallelHasChildren(cfg, env, s, command, task, caller, now, s', out);
      }
    } else {
      OnlyOwnFamilyGoes(cfg, env, s, command, task, caller, now, s', out);
    }
  }

  lemma OnlyOwnFamilyGoes(cfg: Config, env: Env, s: Store, command: Command, task: Task, caller: Caller, now: int,
                          s': Store, out: Output)
    requires Agree(s) && '_' !in task.id && Process(cfg, env, s, command, task, caller, now, s', out)
    requires task.id !in s'.meta || task.id in s.meta
    ensures forall id :: id in s'.meta ==> id in s.meta && s'.meta[id] == s.meta[id]
  {
    ProcessEffect(cfg, env, s, command, task, caller, now, s', out);
    OwnerOf(task.id, "");
    forall id | id in s'.meta ensures id in s.meta && s'.meta[id] == s.meta[id] {
      if Owner(id) == task.id { ParentEntry(s', id); } else { assert Get(s'.meta, id) == Get(s.meta, id); }
    }
  }

  lemma {:induction false} FamiliesArePopulated(cfg: Config, stores: seq<Store>, events: seq<Event>, n: nat)
    requires IsRun(cfg, stores, events) && Known(cfg) && n < |stores|
    ensures Populated(stores[n])
  {
    if n > 0 {
      var s, e, s' := stores[n - 1], events[n - 1], stores[n];
      FamiliesArePopulated(cfg, stores, events, n - 1);
      AgreementHolds(cfg, stores, events, n - 1);
      assert Step(cfg, s, e, s');
      if e.CommandEvent? {
        var env :| Process(cfg, env, s, e.command, e.task, e.caller, e.now, s', e.out);
        CallKeepsPopulated(cfg, env, s, e.command, e.task, e.caller, e.now, s', e.out);
      } else {
        RespondEffect(s, e.id, e.value, s', e.response);
      }
    }
  }

  lemma ProcessResults(cfg: Config, env: Env, s: Store, command: Command, task: Task, caller: Caller, now: int,
                       s': Store, out: Output)
    requires OneAtATime(cfg) && Process(cfg, env, s, command, task, caller, now, s', out) && out.completed
    ensures out.error.None? <==> |out.results| > 0
    ensures out.next == []
    ensures out.error.None? ==> task.id in s.meta && out.results == Results(s.result, s.meta[task.id].children)
  {
    ProcessIsCalled(cfg, env, s, command, task, caller, now, s', out);
  }

  /** No empty completion: a call that gives up its task reports an error exactly when it has no result,
      and a finished response always has one. */
  lemma EndsWithResults(cfg: Config, stores: seq<Store>, events: seq<Event>, n: nat)
    requires IsRun(cfg, stores, events) && OneAtATime(cfg) && n < |events|
    ensures events[n].CommandEvent? && events[n].out.completed ==>
      (events[n].out.error.None? <==> |events[n].out.results| > 0)
    ensures events[n].ResponseEvent? && events[n].response.Finished? ==> |events[n].response.results| > 0
  {
    var s, e, s' := stores[n], events[n], stores[n + 1];
    assert Step(cfg, s, e, s');
    if e.CommandEvent? && e.out.completed {
      var env :| Process(cfg, env, s, e.command, e.task, e.caller, e.now, s', e.out);
      ProcessResults(cfg, env, s, e.command, e.task, e.caller, e.now, s', e.out);
    } else if e.ResponseEvent? && e.response.Finished? {
      FinishedCarriesEveryChild(cfg, stores, events, n);
      FamiliesArePopulated(cfg, stores, events, n);
    }
  }

  /** A task that is given up is completed with the last response of each answered child, in child order. */
  lemma GivenUpCarriesAnswered(cfg: Config, stores: seq<Store>, events: seq<Event>, n: nat)
    requires IsRun(cfg, stores, events) && OneAtATime(cfg) && n < |events|
    requires events[n].CommandEvent? && events[n].out.completed && events[n].out.error.None?
    ensures events[n].task.id in stores[n].meta
    ensures var answered := Answered(stores[n].result, stores[n].meta[events[n].task.id].children);
            && |events[n].out.results| == |answered| > 0
            && forall k :: 0 <= k < |answered| ==>
              Some(events[n].out.results[k]) == LastResponse(events[..n], answered[k].task.id)
  {
    var s, e, s' := stores[n], events[n], stores[n + 1];
    assert Step(cfg, s, e, s');
    var env :| Process(cfg, env, s, e.command, e.task, e.caller, e.now, s', e.out);
    ProcessResults(cfg, env, s, e.command, e.task, e.caller, e.now, s', e.out);
    ResultsAreConserved(cfg, stores, events, n, e.task.id);
  }

  lemma {:induction false} AllMissing(result: map<string, SubResult>, children: seq<Element>)
    requires NoneFailed(result)
    ensures |Missing(result, children)| + |Results(result, children)| == |children|
  {
    if |children| > 0 { AllMissing(result, children[..|children| - 1]); }
  }

  /** PARALLEL is not so careful: a first delivery of a task without a sub-task completes it with
      nothing, and that is the only way to an empty completion. */
  lemma ParallelEmptyCompletion(cfg: Config, env: Env, s: Store, command: Command, task: Task, now: int, s': Store,
                                out: Output)
    requires cfg.scheduler.Parallel? && Populated(s) && NoneFailed(s.result)
    requires Process(cfg, env, s, command, task, CamundaLoop, now, s', out)
    ensures out.completed && out.error.None? && |out.results| == 0
      <==> task.id !in s.meta && SubTasksOf(env.repo, command, task) == Ok([])
           && !(command.retries != -1 && command.retries < task.retries)
  {
    if task.id in s.meta { AllMissing(s.result, s.meta[task.id].children); }
    var (s1, open) := OpenSubTasks(env, s, command, task);
    if open.Ok? && Requests(env, open.value.missing).Ok? { RequestsCover(env, open.value.missing); }
  }

  /** Both conditions hold in every run. */
  lemma RunsArePopulated(cfg: Config, stores: seq<Store>, events: seq<Event>, n: nat)
    requires IsRun(cfg, stores, events) && Known(cfg) && n < |stores|
    ensures Populated(stores[n]) && NoneFailed(stores[n].result)
  {
    FamiliesArePopulated(cfg, stores, events, n);
    Prefix(cfg, stores, events, n);
    forall id | id in stores[n].result ensures !stores[n].result[id].failed {
      ResultsAreResponses(cfg, stores[..n + 1], events[..n], id);
    }
  }

  /** In every run of PARALLEL: a delivery completes with nothing exactly if the task is unknown, has no
      sub-task, and has rounds left. */
  lemma ParallelRunEmptyCompletion(cfg: Config, stores: seq<Store>, events: seq<Event>, n: nat, env: Env)
    requires IsRun(cfg, stores, events) && cfg.scheduler.Parallel? && n < |events|
    requires events[n].CommandEvent? && events[n].caller.CamundaLoop?
    requires var e := events[n]; Process(cfg, env, stores[n], e.command, e.task, e.caller, e.now, stores[n + 1], e.out)
    ensures var e := events[n];
            e.out.completed && e.out.error.None? && |e.out.results| == 0
            <==> e.task.id !in stores[n].meta && SubTasksOf(env.repo, e.command, e.task) == Ok([])
                 && !(e.command.retries != -1 && e.command.retries < e.task.retries)
  {
    RunsArePopulated(cfg, stores, events, n);
    var e := events[n];
    ParallelEmptyCompletion(cfg, env, stores[n], e.command, e.task, e.now, stores[n + 1], e.out);
  }

  /** The first delivery of a command to a group without devices completes its task with nothing. */
  lemma EmptyGroupCompletes(cfg: Config, env: Env, command: Command, task: Task, now: int)
    returns (stores: seq<Store>, events: seq<Event>)
    requires cfg.scheduler.Parallel? && '_' !in task.id && task.tenantId in env.repo.tokens
    requires command.deviceGroupId != "" && command.deviceGroupId in env.repo.groups
    requires env.repo.groups[command.deviceGroupId] == [] && command.retries >= 0 && task.retries == 0
    ensures IsRun(cfg, stores, events) && |events| == 1 && events[0].CommandEvent?
    ensures events[0].command == command && events[0].task == task
    ensures events[0].out.completed && events[0].out.error.None? && events[0].out.results == []
  {
    var s0 := EMPTY_STORE;
    assert GroupSubTasks(env.repo, command, task, []) == Ok([]);
    assert RawSubTasks(env.repo, command, task) == Ok([]);
    assert SubTasksOf(env.repo, command, task).value == [];
    var s1 := OpenSubTasks(env, s0, command, task).0;
    var (s', out) := AllAtOnce(s1, [], [], task, command.retries);
    assert Process(cfg, env, s0, command, task, CamundaLoop, now, s', out);
    stores, events := [s0, s'], [CommandEvent(command, task, CamundaLoop, now, out)];
    assert Step(cfg, s0, events[0], s');
  }
}
