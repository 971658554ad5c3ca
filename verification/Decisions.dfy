/** What a call of SEQUENTIAL or ROUND_ROBIN decides, told from the run before it: whether it is ignored,
    fails, gives its task up, waits, or sends a message. */
module Decisions {
  import opened Values
  import opened Messages
  import opened Storage
  import opened SubTasks
  import opened CommandTargets
  import opened Scheduling
  import opened Steps
  import opened Runs
  import opened Lives
  import opened Fairness
  import opened Termination
  import ParallelRounds

  /** The sub-task waits for a result, or belongs to a family that is not stored yet. */
  ghost predicate IsOpen(env: Env, s: Store, command: Command, task: Task, e: Element) {
    if task.id in s.meta then e in s.meta[task.id].children && e.task.id !in s.result
    else SubTasksOf(env.repo, command, task).Ok? && e in SubTasksOf(env.repo, command, task).value
  }

  /** The sub-tasks of an unknown task cannot be found, or a message cannot be made. */
  ghost predicate CannotCall(env: Env, s: Store, command: Command, task: Task) {
    || (task.id !in s.meta && SubTasksOf(env.repo, command, task).Err?)
    || exists e :: IsOpen(env, s, command, task, e) && env.make(e).Err?
  }

  lemma OpenedIff(env: Env, s: Store, command: Command, task: Task)
    ensures var open := OpenSubTasks(env, s, command, task).1;
            && (open.Err? <==> task.id !in s.meta && SubTasksOf(env.repo, command, task).Err?)
            && (open.Ok? ==> forall e :: e in open.value.missing <==> IsOpen(env, s, command, task, e))
  {
    if task.id in s.meta {
      forall e { MissingIff(s.result, s.meta[task.id].children, e); }
    }
  }

  lemma {:induction false} RequestsFailIff(env: Env, elements: seq<Element>)
    ensures Requests(env, elements).Err? <==> exists e :: e in elements && env.make(e).Err?
  {
    if |elements| > 0 {
      var n := |elements| - 1;
      RequestsFailIff(env, elements[..n]);
      assert elements == elements[..n] + [elements[n]];
    }
  }

  /** One call that is not ignored: it fails, or gives up exactly if no open sub-task has a try left, or sends
      exactly if one that has is not running. */
  ghost predicate Decides(cfg: Config, env: Env, s: Store, command: Command, task: Task, now: int, out: Output) {
    if CannotCall(env, s, command, task) then out.error.Some? && !out.completed && out.next == []
    else
      && (out.completed <==> forall e :: IsOpen(env, s, command, task, e) ==> !Budgeted(s, e.task.id, command.retries))
      && (out.error.Some? ==> out.completed) && |out.next| <= 1
      && (|out.next| == 1 <==>
           exists e :: IsOpen(env, s, command, task, e) && Ready(cfg, s, e.task.id, command.retries, now))
      && (|out.next| == 1 ==> IsOpen(env, s, command, task, out.next[0].metadata))
  }

  lemma TakenDecides(cfg: Config, env: Env, s: Store, s1: Store, elements: seq<Element>, results: seq<Json>,
                     command: Command, task: Task, now: int, s': Store, out: Output)
    requires s1.state == s.state && !CannotCall(env, s, command, task)
    requires forall e :: e in elements <==> IsOpen(env, s, command, task, e)
    requires Taken(cfg, s1, elements, results, task.id, command.retries, now, s', out)
    ensures Decides(cfg, env, s, command, task, now, out)
  {
    ReadyElementsIff(cfg, s1, elements, command.retries, now);
    forall id ensures StateOf(s1, id) == StateOf(s, id) {}
    var budgeted := BudgetedElements(s1, elements, command.retries);
    var ready := ReadyElements(cfg, s1, elements, command.retries, now);
    if |budgeted| > 0 { assert budgeted[0] in budgeted; }
    if |ready| > 0 { assert ready[0] in ready; }
  }

  lemma CalledDecides(cfg: Config, env: Env, s: Store, command: Command, task: Task, caller: Caller, now: int,
                      s': Store, out: Output)
    requires Called(cfg, env, s, command, task, caller, now, s', out) && !Ignores(cfg, s, task.id, caller, now)
    ensures Decides(cfg, env, s, command, task, now, out)
  {
    var s0 := SaveCall(cfg, s, task.id, caller, now);
    var (s1, open) := OpenSubTasks(env, s0, command, task);
    OpenedIff(env, s0, command, task);
    OpenedCandidates(env, s0, command, task);
    forall e ensures IsOpen(env, s0, command, task, e) <==> IsOpen(env, s, command, task, e) {}
    if open.Ok? {
      RequestsFailIff(env, open.value.missing);
      if Requests(env, open.value.missing).Ok? {
        TakenDecides(cfg, env, s, s1, open.value.missing, open.value.results, command, task, now, s', out);
      }
    }
  }

  /** The time of the last message for a sub-task. */
  function LastDispatch(events: seq<Event>, id: string): Option<int> {
    if |events| == 0 then None
    else
      var e := events[|events| - 1];
      if Dispatches(e, id) then Some(e.now) else LastDispatch(events[..|events| - 1], id)
  }

  lemma {:induction false} LastTryIs(cfg: Config, stores: seq<Store>, events: seq<Event>, id: string)
    requires IsRun(cfg, stores, events) && OneAtATime(cfg)
    ensures StateOf(stores[|events|], id).lastTry == LastDispatch(events, id)
  {
    if |events| > 0 {
      var n := |events| - 1;
      Prefix(cfg, stores, events, n);
      LastTryIs(cfg, stores[..n + 1], events[..n], id);
      AgreementHolds(cfg, stores, events, n);
      StepTries(cfg, stores[n], events[n], stores[n + 1]);
    }
  }

  /** With R retries a sub-task has a try left while at most R messages were sent for it; -1 is without end. */
  ghost predicate HasTryLeft(events: seq<Event>, id: string, retries: int) {
    retries == -1 || DispatchCount(events, id) <= retries
  }

  /** Never sent, or last sent more than the timeout ago. */
  ghost predicate IsFree(cfg: Config, events: seq<Event>, id: string, now: int) {
    LastDispatch(events, id).None? || now - LastDispatch(events, id).value > cfg.timeout
  }

  lemma StateFromRun(cfg: Config, stores: seq<Store>, events: seq<Event>, n: nat, id: string, retries: int, now: int)
    requires IsRun(cfg, stores, events) && OneAtATime(cfg) && n <= |events|
    ensures Budgeted(stores[n], id, retries) <==> HasTryLeft(events[..n], id, retries)
    ensures Ready(cfg, stores[n], id, retries, now) <==>
      HasTryLeft(events[..n], id, retries) && IsFree(cfg, events[..n], id, now)
  {
    Prefix(cfg, stores, events, n);
    TriesAreDispatches(cfg, stores[..n + 1], events[..n], id);
    LastTryIs(cfg, stores[..n + 1], events[..n], id);
  }

  /** The call at n, made with this repository and these messages. */
  ghost predicate CallAt(cfg: Config, stores: seq<Store>, events: seq<Event>, n: nat, env: Env) {
    && IsRun(cfg, stores, events) && OneAtATime(cfg) && n < |events| && events[n].CommandEvent?
    && var e := events[n];
       Process(cfg, env, stores[n], e.command, e.task, e.caller, e.now, stores[n + 1], e.out)
  }

  ghost predicate IgnoredAt(cfg: Config, stores: seq<Store>, events: seq<Event>, n: nat)
    requires n < |events| && n < |stores| && events[n].CommandEvent?
  {
    Ignores(cfg, stores[n], events[n].task.id, events[n].caller, events[n].now)
  }

  ghost predicate OpenAt(stores: seq<Store>, events: seq<Event>, n: nat, env: Env, x: Element)
    requires n < |events| && n < |stores| && events[n].CommandEvent?
  {
    IsOpen(env, stores[n], events[n].command, events[n].task, x)
  }

  /** Giving up: a call that is not ignored and can be made completes its task if and only if every open
      sub-task has been sent R + 1 times. */
  lemma GivesUpIff(cfg: Config, stores: seq<Store>, events: seq<Event>, n: nat, env: Env)
    requires CallAt(cfg, stores, events, n, env) && !IgnoredAt(cfg, stores, events, n)
    requires !CannotCall(env, stores[n], events[n].command, events[n].task)
    ensures events[n].out.completed <==>
      forall x :: OpenAt(stores, events, n, env, x) ==>
        events[n].command.retries != -1 && DispatchCount(events[..n], x.task.id) > events[n].command.retries
  {
    var e := events[n];
    ProcessIsCalled(cfg, env, stores[n], e.command, e.task, e.caller, e.now, stores[n + 1], e.out);
    CalledDecides(cfg, env, stores[n], e.command, e.task, e.caller, e.now, stores[n + 1], e.out);
    forall x | OpenAt(stores, events, n, env, x)
      ensures Budgeted(stores[n], x.task.id, e.command.retries) <==>
        !(e.command.retries != -1 && DispatchCount(events[..n], x.task.id) > e.command.retries)
    {
      StateFromRun(cfg, stores, events, n, x.task.id, e.command.retries, e.now);
    }
  }

  /** Sending: such a call sends exactly one message if and only if some open sub-task has a try left and was
      not sent within the timeout; the message is for an open sub-task. */
  lemma SendsIff(cfg: Config, stores: seq<Store>, events: seq<Event>, n: nat, env: Env)
    requires CallAt(cfg, stores, events, n, env) && !IgnoredAt(cfg, stores, events, n)
    requires !CannotCall(env, stores[n], events[n].command, events[n].task)
    ensures |events[n].out.next| <= 1
    ensures |events[n].out.next| == 1 <==>
      exists x :: OpenAt(stores, events, n, env, x)
        && HasTryLeft(events[..n], x.task.id, events[n].command.retries)
        && IsFree(cfg, events[..n], x.task.id, events[n].now)
    ensures |events[n].out.next| == 1 ==> OpenAt(stores, events, n, env, events[n].out.next[0].metadata)
  {
    var e := events[n];
    ProcessIsCalled(cfg, env, stores[n], e.command, e.task, e.caller, e.now, stores[n + 1], e.out);
    CalledDecides(cfg, env, stores[n], e.command, e.task, e.caller, e.now, stores[n + 1], e.out);
    forall x | OpenAt(stores, events, n, env, x)
      ensures Ready(cfg, stores[n], x.task.id, e.command.retries, e.now) <==>
        HasTryLeft(events[..n], x.task.id, e.command.retries) && IsFree(cfg, events[..n], x.task.id, e.now)
    {
      StateFromRun(cfg, stores, events, n, x.task.id, e.command.retries, e.now);
    }
  }

  /** Failing: a call that is not ignored and cannot be made reports an error and does nothing else. */
  lemma FailsIffCannotCall(cfg: Config, stores: seq<Store>, events: seq<Event>, n: nat, env: Env)
    requires CallAt(cfg, stores, events, n, env) && !IgnoredAt(cfg, stores, events, n)
    ensures CannotCall(env, stores[n], events[n].command, events[n].task) <==>
      events[n].out.error.Some? && !events[n].out.completed
    ensures events[n].out.error.Some? ==> events[n].out.next == []
  {
    var e := events[n];
    ProcessIsCalled(cfg, env, stores[n], e.command, e.task, e.caller, e.now, stores[n + 1], e.out);
    CalledDecides(cfg, env, stores[n], e.command, e.task, e.caller, e.now, stores[n + 1], e.out);
    if e.out.completed { ProcessEnds(cfg, env, stores[n], e, stores[n + 1]); }
  }

  lemma ProcessEnds(cfg: Config, env: Env, s: Store, e: Event, s': Store)
    requires OneAtATime(cfg) && e.CommandEvent? && e.out.completed
    requires Called(cfg, env, s, e.command, e.task, e.caller, e.now, s', e.out)
    ensures e.out.next == []
  {
  }

  /** The call at k is the last one for its task before n that was not ignored, and the task has not been
      cleared since. */
  ghost predicate IsLastCall(cfg: Config, stores: seq<Store>, events: seq<Event>, taskId: string, k: nat, n: nat)
    requires k < n <= |events| && |stores| == |events| + 1
  {
    && Commands(events[k], taskId) && !IgnoredAt(cfg, stores, events, k) && !events[k].out.completed
    && forall j :: k < j < n ==>
         !Finishes(events[j], taskId) && (Commands(events[j], taskId) ==> IgnoredAt(cfg, stores, events, j))
  }

  lemma CallIsSaved(cfg: Config, s: Store, e: Event, s': Store)
    requires !cfg.scheduler.Parallel? && Step(cfg, s, e, s') && e.CommandEvent?
    ensures Ignores(cfg, s, e.task.id, e.caller, e.now) ==> s' == s && e.out == Output(false, [], [], None, None)
    ensures !Ignores(cfg, s, e.task.id, e.caller, e.now) && !e.out.completed ==>
      e.task.id in s'.call && s'.call[e.task.id] == CallInfo(e.caller, e.now)
  {
    var env :| Process(cfg, env, s, e.command, e.task, e.caller, e.now, s', e.out);
    ProcessShape(cfg, env, s, e.command, e.task, e.caller, e.now, s', e.out);
    if !Ignores(cfg, s, e.task.id, e.caller, e.now) {
      OpenedCandidates(env, SaveCall(cfg, s, e.task.id, e.caller, e.now), e.command, e.task);
    }
  }

  lemma CallStays(cfg: Config, s: Store, e: Event, s': Store, taskId: string)
    requires Agree(s) && Step(cfg, s, e, s') && Owner(taskId) == taskId
    requires !Commands(e, taskId) && !Finishes(e, taskId)
    ensures Get(s'.call, taskId) == Get(s.call, taskId)
  {
    if e.ResponseEvent? && Owner(e.id) == taskId {
      RespondEffect(s, e.id, e.value, s', e.response);
    } else {
      StepAgrees(cfg, s, e, s');
      assert Get(s'.call, taskId) == Get(s.call, taskId);
    }
  }

  /** What a step does to the entry of a task: a call saves itself or is ignored, nothing else touches it. */
  lemma CallEntry(cfg: Config, s: Store, e: Event, s': Store, taskId: string)
    requires !cfg.scheduler.Parallel? && Agree(s) && Step(cfg, s, e, s')
    requires Owner(taskId) == taskId && !Finishes(e, taskId)
    ensures Commands(e, taskId) && !Ignores(cfg, s, taskId, e.caller, e.now) && !e.out.completed ==>
      Get(s'.call, taskId) == Some(CallInfo(e.caller, e.now))
    ensures (Commands(e, taskId) ==> Ignores(cfg, s, taskId, e.caller, e.now)) ==>
      Get(s'.call, taskId) == Get(s.call, taskId)
  {
    if Commands(e, taskId) {
      CallIsSaved(cfg, s, e, s');
    } else {
      CallStays(cfg, s, e, s', taskId);
    }
  }

  /** What makes k the last call, read at m. */
  lemma {:induction false} LastCallAt(cfg: Config, stores: seq<Store>, events: seq<Event>, taskId: string, k: nat,
                                      m: nat)
    requires k <= m < |events| && |stores| == |events| + 1 && IsLastCall(cfg, stores, events, taskId, k, m + 1)
    ensures !Finishes(events[m], taskId)
    ensures m == k ==> Commands(events[m], taskId) && !IgnoredAt(cfg, stores, events, m) && !events[m].out.completed
    ensures m > k ==> (Commands(events[m], taskId) ==> IgnoredAt(cfg, stores, events, m))
  {
  }

  /** Step m, from the last call on: it saves that call, or leaves the entry alone. */
  lemma {:induction false} CallKeptStep(cfg: Config, stores: seq<Store>, events: seq<Event>, taskId: string, k: nat,
                                        m: nat)
    requires k <= m < |events| && |stores| == |events| + 1 && IsLastCall(cfg, stores, events, taskId, k, m + 1)
    requires !cfg.scheduler.Parallel? && Owner(taskId) == taskId
    requires Agree(stores[m]) && Step(cfg, stores[m], events[m], stores[m + 1])
    ensures m == k ==> Get(stores[k + 1].call, taskId) == Some(CallInfo(events[k].caller, events[k].now))
    ensures m > k ==> Get(stores[m + 1].call, taskId) == Get(stores[m].call, taskId)
  {
    LastCallAt(cfg, stores, events, taskId, k, m);
    CallEntry(cfg, stores[m], events[m], stores[m + 1], taskId);
  }

  lemma {:induction false} KeptOn(stores: seq<Store>, taskId: string, a: nat, b: nat)
    requires a <= b < |stores|
    requires forall m :: a <= m < b ==> Get(stores[m + 1].call, taskId) == Get(stores[m].call, taskId)
    ensures Get(stores[b].call, taskId) == Get(stores[a].call, taskId)
  {
    if a < b { KeptOn(stores, taskId, a, b - 1); }
  }

  lemma LastCallIsKept(cfg: Config, stores: seq<Store>, events: seq<Event>, taskId: string, k: nat, n: nat)
    requires IsRun(cfg, stores, events) && !cfg.scheduler.Parallel? && Owner(taskId) == taskId
    requires k < n <= |events| && IsLastCall(cfg, stores, events, taskId, k, n)
    ensures Get(stores[n].call, taskId) == Some(CallInfo(events[k].caller, events[k].now))
  {
    AgreementHolds(cfg, stores, events, k);
    CallKeptStep(cfg, stores, events, taskId, k, k);
    forall m | k + 1 <= m < n ensures Get(stores[m + 1].call, taskId) == Get(stores[m].call, taskId) {
      AgreementHolds(cfg, stores, events, m);
      CallKeptStep(cfg, stores, events, taskId, k, m);
    }
    KeptOn(stores, taskId, k + 1, n);
  }

  /** Ignoring: a delivery is ignored if and only if it comes from Camunda, and the last call for the task came
      from a response less than the timeout ago; an ignored one changes and reports nothing. */
  lemma IgnoredIffAnswering(cfg: Config, stores: seq<Store>, events: seq<Event>, k: nat, n: nat)
    requires IsRun(cfg, stores, events) && !cfg.scheduler.Parallel? && k < n < |events| && events[n].CommandEvent?
    requires IsLastCall(cfg, stores, events, events[n].task.id, k, n)
    ensures IgnoredAt(cfg, stores, events, n) <==>
      events[n].caller.CamundaLoop? && events[k].caller.Response? && events[n].now - events[k].now < cfg.timeout
    ensures IgnoredAt(cfg, stores, events, n) ==>
      stores[n + 1] == stores[n] && events[n].out == Output(false, [], [], None, None)
  {
    assert Step(cfg, stores[n], events[n], stores[n + 1]);
    OwnerOf(events[n].task.id, "");
    LastCallIsKept(cfg, stores, events, events[n].task.id, k, n);
    CallIsSaved(cfg, stores[n], events[n], stores[n + 1]);
  }

  lemma {:induction false} UnknownBefore(cfg: Config, stores: seq<Store>, events: seq<Event>, taskId: string, n: nat)
    requires IsRun(cfg, stores, events) && n <= |events| && FirstCall(events, taskId, n) && Owner(taskId) == taskId
    ensures taskId !in stores[n].meta
  {
    if n > 0 {
      UnknownBefore(cfg, stores, events, taskId, n - 1);
      AgreementHolds(cfg, stores, events, n - 1);
      OnlyCallsCreate(cfg, stores[n - 1], events[n - 1], stores[n], taskId);
    }
  }

  /** The first call for a task is never ignored by SEQUENTIAL and ROUND_ROBIN, and finds it unknown. */
  lemma FirstIsNotIgnored(cfg: Config, stores: seq<Store>, events: seq<Event>, n: nat)
    requires IsRun(cfg, stores, events) && OneAtATime(cfg) && n < |events| && events[n].CommandEvent?
    requires FirstCall(events, events[n].task.id, n)
    ensures !IgnoredAt(cfg, stores, events, n) && events[n].task.id !in stores[n].meta
  {
    var taskId := events[n].task.id;
    assert Step(cfg, stores[n], events[n], stores[n + 1]);
    OwnerOf(taskId, "");
    UnknownBefore(cfg, stores, events, taskId, n);
    if taskId in stores[n].call { LastCallIsCall(cfg, stores, events, taskId, n); }
  }

  /** A plain command: if its message can be made and a try is allowed, the first call sends exactly one
      message, for the task itself. */
  lemma PlainCommandIsSent(cfg: Config, stores: seq<Store>, events: seq<Event>, n: nat, env: Env)
    requires CallAt(cfg, stores, events, n, env) && FirstCall(events, events[n].task.id, n)
    requires IsPlain(events[n].command) && events[n].command.retries >= -1
    requires forall e: Element :: e.task == events[n].task ==> env.make(e).Ok?
    ensures !events[n].out.completed && events[n].out.error.None? && |events[n].out.next| == 1
    ensures var e := events[n].out.next[0].metadata;
            && e.task == events[n].task
            && Retargeted(events[n].command, e.command, events[n].command.deviceId, events[n].command.serviceId)
  {
    var e := events[n];
    assert Step(cfg, stores[n], e, stores[n + 1]);
    OwnerOf(e.task.id, "");
    FirstIsNotIgnored(cfg, stores, events, n);
    PlainSubTask(env.repo, e.command, e.task);
    var only := SubTasksOf(env.repo, e.command, e.task).value[0];
    forall x ensures OpenAt(stores, events, n, env, x) <==> x == only {}
    Untried(cfg, stores, events, e.task.id, n);
    StateFromRun(cfg, stores, events, n, e.task.id, e.command.retries, e.now);
    assert Ready(cfg, stores[n], e.task.id, e.command.retries, e.now);
    SendsIff(cfg, stores, events, n, env);
    FailsIffCannotCall(cfg, stores, events, n, env);
    GivesUpIff(cfg, stores, events, n, env);
  }

  lemma {:induction false} FirstReady(cfg: Config, s: Store, elements: seq<Element>, retries: int, now: int)
    returns (k: nat)
    requires |ReadyElements(cfg, s, elements, retries, now)| > 0
    ensures k < |elements| && elements[k] == ReadyElements(cfg, s, elements, retries, now)[0]
    ensures forall j :: 0 <= j < k ==> !Ready(cfg, s, elements[j].task.id, retries, now)
  {
    var n := |elements| - 1;
    var before := ReadyElements(cfg, s, elements[..n], retries, now);
    if |before| > 0 {
      k := FirstReady(cfg, s, elements[..n], retries, now);
    } else {
      k := n;
      ReadyElementsIff(cfg, s, elements[..n], retries, now);
      forall j | 0 <= j < n ensures !Ready(cfg, s, elements[j].task.id, retries, now) {
        assert elements[..n][j] == elements[j] && elements[..n][j] in elements[..n];
        assert elements[j] !in before;
      }
    }
  }

  /** The sub-tasks a call opens, in order. */
  ghost predicate Opens(cfg: Config, env: Env, s: Store, command: Command, task: Task, caller: Caller, now: int,
                        elements: seq<Element>) {
    var open := OpenSubTasks(env, SaveCall(cfg, s, task.id, caller, now), command, task).1;
    open.Ok? && open.value.missing == elements
  }

  lemma {:induction false} MissingInOrder(result: map<string, SubResult>, children: seq<Element>, i: nat, j: nat)
    returns (k: nat, l: nat)
    requires i < j < |Missing(result, children)|
    ensures k < l < |children|
    ensures children[k] == Missing(result, children)[i] && children[l] == Missing(result, children)[j]
  {
    var n := |children| - 1;
    var before := Missing(result, children[..n]);
    if j < |before| {
      k, l := MissingInOrder(result, children[..n], i, j);
    } else {
      MissingIff(result, children[..n], before[i]);
      assert before[i] in before;
      var m :| 0 <= m < n && children[..n][m] == before[i];
      k, l := m, n;
    }
  }

  ghost predicate ComesBefore(children: seq<Element>, x: Element, y: Element) {
    exists k, l :: 0 <= k < l < |children| && children[k] == x && children[l] == y
  }

  /** What a call opens are its open sub-tasks, in the order of the family. */
  lemma OpensInOrder(cfg: Config, env: Env, s: Store, command: Command, task: Task, caller: Caller, now: int,
                     elements: seq<Element>)
    requires Opens(cfg, env, s, command, task, caller, now, elements)
    ensures forall e :: e in elements <==> IsOpen(env, s, command, task, e)
    ensures task.id !in s.meta ==> SubTasksOf(env.repo, command, task) == Ok(elements)
    ensures task.id in s.meta ==>
      forall i, j :: 0 <= i < j < |elements| ==> ComesBefore(s.meta[task.id].children, elements[i], elements[j])
  {
    var s0 := SaveCall(cfg, s, task.id, caller, now);
    OpenedIff(env, s0, command, task);
    forall e ensures IsOpen(env, s0, command, task, e) <==> IsOpen(env, s, command, task, e) {}
    if task.id in s.meta {
      forall i, j | 0 <= i < j < |elements|
        ensures ComesBefore(s.meta[task.id].children, elements[i], elements[j])
      {
        var k, l := MissingInOrder(s.result, s.meta[task.id].children, i, j);
      }
    }
  }

  /** Which sub-task a call sends: under SEQUENTIAL the first open one that may be sent, under ROUND_ROBIN one that
      was sent least of those that may be. */
  lemma SendsWhich(cfg: Config, stores: seq<Store>, events: seq<Event>, n: nat, env: Env, elements: seq<Element>)
    requires CallAt(cfg, stores, events, n, env) && !IgnoredAt(cfg, stores, events, n)
    requires !CannotCall(env, stores[n], events[n].command, events[n].task) && |events[n].out.next| == 1
    requires var e := events[n]; Opens(cfg, env, stores[n], e.command, e.task, e.caller, e.now, elements)
    ensures var e, sent := events[n], events[n].out.next[0].metadata;
            && sent in elements
            && (cfg.scheduler.Sequential? ==>
                 exists k :: 0 <= k < |elements| && elements[k] == sent && NoneMayGoBefore(cfg, events, n, elements, k))
            && (cfg.scheduler.RoundRobin? ==>
                 forall x :: x in elements && MayGo(cfg, events, n, x) ==>
                   DispatchCount(events[..n], sent.task.id) <= DispatchCount(events[..n], x.task.id))
  {
    var e, s, s' := events[n], stores[n], stores[n + 1];
    ProcessIsCalled(cfg, env, s, e.command, e.task, e.caller, e.now, s', e.out);
    var s1 := TakenFrom(cfg, env, s, e, s', elements);
    ReadyElementsIff(cfg, s1, elements, e.command.retries, e.now);
    forall x: Element
      ensures Ready(cfg, s1, x.task.id, e.command.retries, e.now) <==> MayGo(cfg, events, n, x)
      ensures StateOf(s1, x.task.id).tryCount == DispatchCount(events[..n], x.task.id)
    {
      StateFromRun(cfg, stores, events, n, x.task.id, e.command.retries, e.now);
      assert StateOf(s1, x.task.id) == StateOf(s, x.task.id);
      Prefix(cfg, stores, events, n);
      TriesAreDispatches(cfg, stores[..n + 1], events[..n], x.task.id);
    }
    if cfg.scheduler.Sequential? {
      var k := FirstReady(cfg, s1, elements, e.command.retries, e.now);
      assert NoneMayGoBefore(cfg, events, n, elements, k);
    }
  }

  /** The sub-task has a try left and was not sent within the timeout. */
  ghost predicate MayGo(cfg: Config, events: seq<Event>, n: nat, x: Element)
    requires n < |events| && events[n].CommandEvent?
  {
    HasTryLeft(events[..n], x.task.id, events[n].command.retries) && IsFree(cfg, events[..n], x.task.id, events[n].now)
  }

  ghost predicate NoneMayGoBefore(cfg: Config, events: seq<Event>, n: nat, elements: seq<Element>, k: nat)
    requires n < |events| && events[n].CommandEvent? && k <= |elements|
  {
    forall j :: 0 <= j < k ==> !MayGo(cfg, events, n, elements[j])
  }

  lemma TakenFrom(cfg: Config, env: Env, s: Store, e: Event, s': Store, elements: seq<Element>) returns (s1: Store)
    requires e.CommandEvent? && Called(cfg, env, s, e.command, e.task, e.caller, e.now, s', e.out)
    requires !Ignores(cfg, s, e.task.id, e.caller, e.now) && |e.out.next| == 1
    requires Opens(cfg, env, s, e.command, e.task, e.caller, e.now, elements)
    ensures s1.state == s.state
    ensures var ready := ReadyElements(cfg, s1, elements, e.command.retries, e.now);
            |ready| > 0 && TakenOne(cfg, s1, ready, e.out.next[0].metadata, e.now, s')
  {
    var s0 := SaveCall(cfg, s, e.task.id, e.caller, e.now);
    s1 := OpenSubTasks(env, s0, e.command, e.task).0;
    OpenedCandidates(env, s0, e.command, e.task);
  }

  /** Whatever the scheduler, a new family is stored with the command and the task of the call. */
  lemma NewFamilyIs(cfg: Config, env: Env, s: Store, command: Command, task: Task, caller: Caller, now: int, s': Store,
                    out: Output)
    requires Process(cfg, env, s, command, task, caller, now, s', out) && task.id !in s.meta && task.id in s'.meta
    ensures s'.meta[task.id].parent.command == command && s'.meta[task.id].parent.task == task
    ensures SubTasksOf(env.repo, command, task) == Ok(s'.meta[task.id].children)
  {
    ProcessShape(cfg, env, s, command, task, caller, now, s', out);
    ShapeParent(cfg, env, s, command, task, caller, now, s', out.completed);
  }

  lemma ShapeParent(cfg: Config, env: Env, s: Store, command: Command, task: Task, caller: Caller, now: int, s': Store,
                    completed: bool)
    requires Shape(cfg, env, s, command, task, caller, now, s', completed) && task.id !in s.meta && task.id in s'.meta
    ensures s'.meta[task.id].parent == Element(command, task)
    ensures SubTasksOf(env.repo, command, task) == Ok(s'.meta[task.id].children)
  {
  }

  ghost predicate AreMade(env: Env, requests: seq<RequestInfo>) {
    forall r :: r in requests ==> env.make(r.metadata) == Ok(r.kind)
  }

  lemma {:induction false} RequestsAreMade(env: Env, elements: seq<Element>)
    ensures Requests(env, elements).Ok? ==> AreMade(env, Requests(env, elements).value)
  {
    if |elements| > 0 { RequestsAreMade(env, elements[..|elements| - 1]); }
  }

  lemma {:induction false} FiltersKeep(requests: seq<RequestInfo>, retries: int, timeout: int, now: int)
    ensures forall r :: r in FilterRetries(requests, retries) ==> r in requests
    ensures forall r :: r in FilterCurrentlyRunning(requests, timeout, now) ==> r in requests
  {
    if |requests| > 0 {
      FiltersKeep(requests[..|requests| - 1], retries, timeout, now);
      assert requests == requests[..|requests| - 1] + [requests[|requests| - 1]];
    }
  }

  lemma OneByOneMade(cfg: Config, env: Env, s: Store, requests: seq<RequestInfo>, results: seq<Json>, taskId: string,
                     retries: int, now: int, s': Store, out: Output)
    requires AreMade(env, requests) && OneByOne(cfg, s, requests, results, taskId, retries, now, s', out)
    ensures AreMade(env, out.next)
  {
    var annotated := Annotated(s, requests);
    forall r | r in annotated ensures env.make(r.metadata) == Ok(r.kind) {
      var k :| 0 <= k < |annotated| && annotated[k] == r;
      assert requests[k] in requests;
    }
    FiltersKeep(annotated, retries, cfg.timeout, now);
    FiltersKeep(FilterRetries(annotated, retries), retries, cfg.timeout, now);
    forall r | r in out.next ensures env.make(r.metadata) == Ok(r.kind) { assert r == out.next[0]; }
  }

  /** Every message is the one made for its sub-task. */
  lemma MessagesAreMade(cfg: Config, env: Env, s: Store, command: Command, task: Task, caller: Caller, now: int,
                        s': Store, out: Output)
    requires Process(cfg, env, s, command, task, caller, now, s', out)
    ensures AreMade(env, out.next)
  {
    if !Ignores(cfg, s, task.id, caller, now) {
      var (s1, open) := OpenSubTasks(env, SaveCall(cfg, s, task.id, caller, now), command, task);
      if open.Ok? {
        RequestsAreMade(env, open.value.missing);
        if OneAtATime(cfg) && Requests(env, open.value.missing).Ok? {
          OneByOneMade(cfg, env, s1, Requests(env, open.value.missing).value, open.value.results, task.id,
                       command.retries, now, s', out);
        }
      }
    }
  }

  /** PARALLEL fails exactly if its sub-tasks cannot be found or a message cannot be made, and ignores exactly
      the calls that come from a response. */
  lemma ParallelFailsIff(cfg: Config, env: Env, s: Store, command: Command, task: Task, caller: Caller, now: int,
                         s': Store, out: Output)
    requires cfg.scheduler.Parallel? && Process(cfg, env, s, command, task, caller, now, s', out)
    ensures caller.Response? ==> s' == s && out == Output(false, [], [], None, None)
    ensures caller.CamundaLoop? ==> (ParallelRounds.Fails(out) <==> CannotCall(env, s, command, task))
  {
    if caller.CamundaLoop? {
      var open := OpenSubTasks(env, s, command, task).1;
      OpenedIff(env, s, command, task);
      if open.Ok? { RequestsFailIff(env, open.value.missing); }
    }
  }
}
