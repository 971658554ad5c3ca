/** SEQUENTIAL and ROUND_ROBIN end every task: the budgets are used up by calls Camunda repeats often
    enough, and no life of a task sends more messages than its children have tries. */
module Termination {
  import opened Values
  import opened Messages
  import opened Storage
  import opened SubTasks
  import opened Scheduling
  import opened Steps
  import opened Runs
  import opened Lives

  lemma ShapeCall(cfg: Config, env: Env, s: Store, command: Command, task: Task, caller: Caller, now: int, s': Store,
                  completed: bool, taskId: string)
    requires Shape(cfg, env, s, command, task, caller, now, s', completed) && taskId in s'.call
    ensures (task.id == taskId && s'.call[taskId].time == now)
      || (taskId in s.call && s'.call[taskId] == s.call[taskId])
  {
    if !Ignores(cfg, s, task.id, caller, now) {
      var s0 := SaveCall(cfg, s, task.id, caller, now);
      OpenedCandidates(env, s0, command, task);
    }
  }

  /** The recorded last call of a task is one that was made. */
  lemma CallStep(cfg: Config, s: Store, e: Event, s': Store, taskId: string)
    requires Step(cfg, s, e, s') && taskId in s'.call
    ensures (Commands(e, taskId) && s'.call[taskId].time == e.now)
      || (taskId in s.call && s'.call[taskId] == s.call[taskId])
  {
    if e.CommandEvent? {
      var env :| Process(cfg, env, s, e.command, e.task, e.caller, e.now, s', e.out);
      ProcessShape(cfg, env, s, e.command, e.task, e.caller, e.now, s', e.out);
      ShapeCall(cfg, env, s, e.command, e.task, e.caller, e.now, s', e.out.completed, taskId);
    } else {
      RespondShape(s, e.id, e.value);
    }
  }

  lemma {:induction false} LastCallIsCall(cfg: Config, stores: seq<Store>, events: seq<Event>, taskId: string, n: nat)
    requires IsRun(cfg, stores, events) && n < |stores| && taskId in stores[n].call
    ensures exists k :: 0 <= k < n && Commands(events[k], taskId) && events[k].now == stores[n].call[taskId].time
  {
    var m := n - 1;
    CallStep(cfg, stores[m], events[m], stores[n], taskId);
    if !(Commands(events[m], taskId) && stores[n].call[taskId].time == events[m].now) {
      LastCallIsCall(cfg, stores, events, taskId, m);
    }
  }

  /** Camunda delivers the task again, more than the running timeout after every call for it. */
  ghost predicate Quiet(cfg: Config, events: seq<Event>, taskId: string, n: nat)
    requires n < |events|
  {
    && Commands(events[n], taskId) && events[n].caller.CamundaLoop?
    && forall k :: 0 <= k < n && Commands(events[k], taskId) ==> events[n].now - events[k].now > cfg.timeout
  }

  /** None of the sub-tasks of the task is running. */
  ghost predicate Idle(cfg: Config, s: Store, taskId: string, now: int) {
    forall id {:trigger StateOf(s, id)} :: Owner(id) == taskId ==>
      StateOf(s, id).lastTry.None? || now - StateOf(s, id).lastTry.value > cfg.timeout
  }

  /** The last call for the task, if any, is long ago. */
  predicate Rested(cfg: Config, s: Store, taskId: string, now: int) {
    taskId in s.call ==> now - s.call[taskId].time > cfg.timeout
  }

  lemma QuietIsIdle(cfg: Config, stores: seq<Store>, events: seq<Event>, taskId: string, n: nat)
    requires IsRun(cfg, stores, events) && OneAtATime(cfg) && n < |events| && Quiet(cfg, events, taskId, n)
    ensures Idle(cfg, stores[n], taskId, events[n].now) && Rested(cfg, stores[n], taskId, events[n].now)
  {
    if taskId in stores[n].call { LastCallIsCall(cfg, stores, events, taskId, n); }
    Prefix(cfg, stores, events, n);
    forall id | Owner(id) == taskId && StateOf(stores[n], id).lastTry.Some?
      ensures events[n].now - StateOf(stores[n], id).lastTry.value > cfg.timeout
    {
      LastTryIsDispatch(cfg, stores[..n + 1], events[..n], id);
      var k :| 0 <= k < n && Dispatches(events[..n][k], id)
               && events[..n][k].now == StateOf(stores[n], id).lastTry.value;
      assert events[..n][k] == events[k];
      AgreementHolds(cfg, stores, events, k);
      DispatchIsOwned(cfg, stores[k], events[k], stores[k + 1], id);
    }
  }

  /** With its sub-tasks idle a call gives up or takes one: whatever has tries left is ready. */
  lemma IdleIsTaken(cfg: Config, s: Store, elements: seq<Element>, results: seq<Json>, taskId: string, retries: int,
                    now: int, s': Store, out: Output)
    requires Idle(cfg, s, taskId, now) && Taken(cfg, s, elements, results, taskId, retries, now, s', out)
    requires forall e :: e in elements ==> Owner(e.task.id) == taskId
    ensures out.completed || |out.next| == 1
  {
    ReadyElementsIff(cfg, s, elements, retries, now);
    if !out.completed {
      var e := BudgetedElements(s, elements, retries)[0];
      assert e in elements && Budgeted(s, e.task.id, retries);
      assert StateOf(s, e.task.id).lastTry.None? || now - StateOf(s, e.task.id).lastTry.value > cfg.timeout;
      assert e in ReadyElements(cfg, s, elements, retries, now);
    }
  }

  lemma IdleStays(cfg: Config, s: Store, s': Store, taskId: string, now: int)
    requires Idle(cfg, s, taskId, now) && s'.state == s.state
    ensures Idle(cfg, s', taskId, now)
  {
    forall id | Owner(id) == taskId
      ensures StateOf(s', id).lastTry.None? || now - StateOf(s', id).lastTry.value > cfg.timeout
    {
      assert StateOf(s', id) == StateOf(s, id);
    }
  }

  /** The sub-tasks a call opens belong to its task. */
  lemma OpenedAreOwned(env: Env, s: Store, command: Command, task: Task)
    requires Agree(s) && '_' !in task.id
    ensures forall e :: e in Opened(env, s, command, task) ==> Owner(e.task.id) == task.id
  {
    OpenKeepsAgreement(env, s, command, task);
    OpenedAreChildren(env, s, command, task);
    OwnerOf(task.id, "");
    forall e | e in Opened(env, s, command, task) ensures Owner(e.task.id) == task.id {
      ChildIsOwned(OpenSubTasks(env, s, command, task).0, task.id, e.task.id);
    }
  }

  /** A call that finds its sub-tasks idle completes, fails, or sends a message. */
  lemma IdleCallProgresses(cfg: Config, env: Env, s: Store, command: Command, task: Task, now: int, s': Store,
                           out: Output)
    requires Agree(s) && '_' !in task.id && Idle(cfg, s, task.id, now) && Rested(cfg, s, task.id, now)
    requires OneAtATime(cfg)
    requires Called(cfg, env, s, command, task, CamundaLoop, now, s', out)
    ensures out.completed || out.error.Some? || |out.next| == 1
  {
    var s0 := SaveCall(cfg, s, task.id, CamundaLoop, now);
    SameMetaAgrees(s, s0);
    OpenedAreOwned(env, s0, command, task);
    OpenedCandidates(env, s0, command, task);
    var (s1, open) := OpenSubTasks(env, s0, command, task);
    assert !Ignores(cfg, s, task.id, CamundaLoop, now);
    if open.Ok? && Requests(env, open.value.missing).Ok? {
      IdleStays(cfg, s, s1, task.id, now);
      IdleIsTaken(cfg, s1, open.value.missing, open.value.results, task.id, command.retries, now, s', out);
    }
  }

  /** A quiet redelivery never just waits. */
  lemma QuietCallProgresses(cfg: Config, stores: seq<Store>, events: seq<Event>, taskId: string, n: nat)
    requires IsRun(cfg, stores, events) && OneAtATime(cfg) && n < |events| && Quiet(cfg, events, taskId, n)
    ensures events[n].out.completed || events[n].out.error.Some? || |events[n].out.next| == 1
  {
    QuietIsIdle(cfg, stores, events, taskId, n);
    AgreementHolds(cfg, stores, events, n);
    var s, e, s' := stores[n], events[n], stores[n + 1];
    assert Step(cfg, s, e, s');
    var env :| Process(cfg, env, s, e.command, e.task, e.caller, e.now, s', e.out);
    ProcessIsCalled(cfg, env, s, e.command, e.task, e.caller, e.now, s', e.out);
    IdleCallProgresses(cfg, env, s, e.command, e.task, e.now, s', e.out);
  }

  /** The step reports the task as done or failed. */
  predicate Ends(e: Event, taskId: string) {
    Finishes(e, taskId) || (Commands(e, taskId) && (e.out.completed || e.out.error.Some?))
  }

  /** A family disappears only when its task is reported as done. */
  lemma LivesUntilEnd(cfg: Config, s: Store, e: Event, s': Store, taskId: string)
    requires Agree(s) && Step(cfg, s, e, s') && taskId in s.meta && Owner(taskId) == taskId && !Ends(e, taskId)
    ensures taskId in s'.meta
  {
    if Commands(e, taskId) {
      var env :| Process(cfg, env, s, e.command, e.task, e.caller, e.now, s', e.out);
      ProcessShape(cfg, env, s, e.command, e.task, e.caller, e.now, s', e.out);
    } else if e.ResponseEvent? && Owner(e.id) == taskId {
      RespondEffect(s, e.id, e.value, s', e.response);
    } else {
      StepAgrees(cfg, s, e, s');
      assert Get(s'.meta, taskId) == Get(s.meta, taskId);
    }
  }

  /** From step c, which stores the family, to state n the task has not ended. */
  ghost predicate Unended(stores: seq<Store>, events: seq<Event>, taskId: string, c: nat, n: nat)
    requires c < n <= |events| && |stores| == |events| + 1
  {
    && Owner(taskId) == taskId && taskId in stores[c + 1].meta
    && forall k :: c <= k < n ==> !Ends(events[k], taskId)
  }

  lemma {:induction false} UnendedLives(cfg: Config, stores: seq<Store>, events: seq<Event>, taskId: string, c: nat,
                                        n: nat)
    requires IsRun(cfg, stores, events) && c < n <= |events| && Unended(stores, events, taskId, c, n)
    ensures taskId in stores[n].meta && stores[n].meta[taskId] == stores[c + 1].meta[taskId]
  {
    var m := n - 1;
    if c < m {
      UnendedLives(cfg, stores, events, taskId, c, m);
      AgreementHolds(cfg, stores, events, m);
      LivesUntilEnd(cfg, stores[m], events[m], stores[n], taskId);
      LifeStep(cfg, stores[m], events[m], stores[n], taskId);
    }
  }

  predicate DispatchesFor(e: Event, taskId: string) {
    Commands(e, taskId) && |e.out.next| > 0
  }

  /** Messages sent for a task from step c on. */
  function TaskDispatches(events: seq<Event>, taskId: string, c: nat): nat {
    if |events| <= c then 0
    else
      TaskDispatches(events[..|events| - 1], taskId, c) + if DispatchesFor(events[|events| - 1], taskId) then 1 else 0
  }

  /** Dispatches of the children, one by one. */
  function SumDispatches(events: seq<Event>, children: seq<Element>): nat {
    if |children| == 0 then 0
    else SumDispatches(events, children[..|children| - 1]) + DispatchCount(events, children[|children| - 1].task.id)
  }

  lemma {:induction false} SumOneMore(events: seq<Event>, children: seq<Element>)
    requires |events| > 0
    ensures SumDispatches(events[..|events| - 1], children) <= SumDispatches(events, children)
    ensures (exists e :: e in children && Dispatches(events[|events| - 1], e.task.id))
      ==> SumDispatches(events[..|events| - 1], children) < SumDispatches(events, children)
  {
    if |children| > 0 {
      SumOneMore(events, children[..|children| - 1]);
      assert children == children[..|children| - 1] + [children[|children| - 1]];
    }
  }

  lemma {:induction false} SumIsBounded(cfg: Config, stores: seq<Store>, events: seq<Event>, children: seq<Element>,
                                        taskId: string, retries: nat)
    requires IsRun(cfg, stores, events) && OneAtATime(cfg) && BoundedRetries(events, taskId, retries)
    requires forall e :: e in children ==> Owner(e.task.id) == taskId
    ensures SumDispatches(events, children) <= |children| * (retries + 1)
  {
    if |children| > 0 {
      var n := |children| - 1;
      SumIsBounded(cfg, stores, events, children[..n], taskId, retries);
      DispatchBound(cfg, stores, events, children[n].task.id, retries);
      assert |children| * (retries + 1) == n * (retries + 1) + (retries + 1);
    }
  }

  /** Every message of a life goes to a child of the family. */
  lemma {:induction false} LifeDispatchesChildren(cfg: Config, stores: seq<Store>, events: seq<Event>, taskId: string,
                                                  c: nat, n: nat)
    requires IsRun(cfg, stores, events) && OneAtATime(cfg)
    requires c < n <= |events| && Unended(stores, events, taskId, c, n)
    ensures TaskDispatches(events[..n], taskId, c) <= SumDispatches(events[..n], stores[c + 1].meta[taskId].children)
  {
    var m, children := n - 1, stores[c + 1].meta[taskId].children;
    assert events[..n][..m] == events[..m];
    SumOneMore(events[..n], children);
    if c < m { LifeDispatchesChildren(cfg, stores, events, taskId, c, m); }
    if DispatchesFor(events[m], taskId) {
      UnendedLives(cfg, stores, events, taskId, c, n);
      AgreementHolds(cfg, stores, events, m);
      ChildIsDispatched(cfg, stores[m], events[m], stores[n]);
    }
  }

  lemma ChildIsDispatched(cfg: Config, s: Store, e: Event, s': Store)
    requires OneAtATime(cfg) && Agree(s) && Step(cfg, s, e, s') && e.CommandEvent? && |e.out.next| > 0
    ensures e.task.id in s'.meta
    ensures exists child :: child in s'.meta[e.task.id].children && Dispatches(e, child.task.id)
  {
    StepTries(cfg, s, e, s');
    DispatchIsOwned(cfg, s, e, s', e.out.next[0].metadata.task.id);
  }

  lemma ChildrenAreOwned(s: Store, taskId: string)
    requires Agree(s) && taskId in s.meta && Owner(taskId) == taskId
    ensures forall e :: e in s.meta[taskId].children ==> Owner(e.task.id) == taskId
  {
    forall e | e in s.meta[taskId].children ensures Owner(e.task.id) == taskId { ChildIsOwned(s, taskId, e.task.id); }
  }

  /** Message bound: a task with N children and R retries gets at most N * (R + 1) messages until it ends. */
  lemma MessagesPerLife(cfg: Config, stores: seq<Store>, events: seq<Event>, taskId: string, retries: nat, c: nat,
                        n: nat)
    requires IsRun(cfg, stores, events) && OneAtATime(cfg) && BoundedRetries(events, taskId, retries)
    requires c < n <= |events| && Unended(stores, events, taskId, c, n)
    ensures TaskDispatches(events[..n], taskId, c) <= |stores[c + 1].meta[taskId].children| * (retries + 1)
  {
    Prefix(cfg, stores, events, n);
    AgreementHolds(cfg, stores, events, c + 1);
    ChildrenAreOwned(stores[c + 1], taskId);
    LifeDispatchesChildren(cfg, stores, events, taskId, c, n);
    SumIsBounded(cfg, stores[..n + 1], events[..n], stores[c + 1].meta[taskId].children, taskId, retries);
  }

  /** Quiet redeliveries of a task from step c on. */
  ghost function QuietCalls(cfg: Config, events: seq<Event>, taskId: string, c: nat): nat {
    if |events| <= c then 0
    else
      QuietCalls(cfg, events[..|events| - 1], taskId, c) + if Quiet(cfg, events, taskId, |events| - 1) then 1 else 0
  }

  lemma {:induction false} QuietCallsDispatch(cfg: Config, stores: seq<Store>, events: seq<Event>, taskId: string,
                                              c: nat, n: nat)
    requires IsRun(cfg, stores, events) && OneAtATime(cfg) && c <= n <= |events|
    requires forall k :: c <= k < n ==> !Ends(events[k], taskId)
    ensures QuietCalls(cfg, events[..n], taskId, c) <= TaskDispatches(events[..n], taskId, c)
  {
    if c < n {
      var m := n - 1;
      assert events[..n][..m] == events[..m];
      QuietCallsDispatch(cfg, stores, events, taskId, c, m);
      if Quiet(cfg, events[..n], taskId, m) {
        assert Quiet(cfg, events, taskId, m) by {
          forall k | 0 <= k < m && Commands(events[k], taskId) ensures events[m].now - events[k].now > cfg.timeout {
            assert events[..n][k] == events[k];
          }
        }
        QuietCallProgresses(cfg, stores, events, taskId, m);
      }
    }
  }

  /** Termination: among more than N * (R + 1) quiet redeliveries since its family was stored, a task
      with N children and R retries has been completed or reported as failed. */
  lemma TaskEnds(cfg: Config, stores: seq<Store>, events: seq<Event>, taskId: string, retries: nat, c: nat, n: nat)
    returns (k: nat)
    requires IsRun(cfg, stores, events) && OneAtATime(cfg) && BoundedRetries(events, taskId, retries)
    requires c < n <= |events| && Owner(taskId) == taskId && taskId in stores[c + 1].meta
    requires QuietCalls(cfg, events[..n], taskId, c) > |stores[c + 1].meta[taskId].children| * (retries + 1)
    ensures c <= k < n && Ends(events[k], taskId)
  {
    if forall i :: c <= i < n ==> !Ends(events[i], taskId) {
      MessagesPerLife(cfg, stores, events, taskId, retries, c, n);
      QuietCallsDispatch(cfg, stores, events, taskId, c, n);
    }
    k :| c <= k < n && Ends(events[k], taskId);
  }
}
