/** What one step of the scheduler keeps and changes: family agreement and the facts of a dispatch. */
module Steps {
  import opened Values
  import opened Messages
  import opened Storage
  import opened SubTasks
  import opened Scheduling

  /** The metadata stored under id belongs to a family of one parent, stored alike under every member. */
  ghost predicate Family(s: Store, id: string)
    requires id in s.meta
  {
    var m := s.meta[id];
    && '_' !in m.parent.task.id && Owner(id) == m.parent.task.id
    && FamilyIds(m.parent.task.id, m.children)
    && id in Members(m)
    && forall x :: x in Members(m) ==> x in s.meta && s.meta[x] == m
  }

  /** Family agreement. */
  ghost predicate Agree(s: Store) {
    forall id :: id in s.meta ==> Family(s, id)
  }

  lemma {:induction false} OwnerOfMember(m: Metadata, id: string)
    requires '_' !in m.parent.task.id && FamilyIds(m.parent.task.id, m.children) && id in Members(m)
    ensures Owner(id) == m.parent.task.id
  {
    OwnerOf(m.parent.task.id, "");
    if id != m.parent.task.id {
      var e :| e in m.children && e.task.id == id;
      var k :| 0 <= k < |m.children| && m.children[k] == e;
    }
  }

  /** The parent's entry is the one every member has. */
  lemma ParentEntry(s: Store, id: string)
    requires Agree(s) && id in s.meta
    ensures Owner(id) in s.meta && s.meta[Owner(id)] == s.meta[id] && s.meta[id].parent.task.id == Owner(id)
  {
    assert Family(s, id);
  }

  /** The step touches metadata, results and calls of one Camunda task only. */
  ghost predicate Frame(s: Store, s': Store, taskId: string) {
    && (forall id {:trigger Get(s'.meta, id)} {:trigger id in s'.meta} :: Owner(id) != taskId ==>
         Get(s'.meta, id) == Get(s.meta, id))
    && (forall id {:trigger Get(s'.result, id)} {:trigger id in s'.result} :: Owner(id) != taskId ==>
         Get(s'.result, id) == Get(s.result, id))
    && (forall id {:trigger Get(s'.call, id)} {:trigger id in s'.call} :: Owner(id) != taskId ==>
         Get(s'.call, id) == Get(s.call, id))
  }

  lemma FrameTransitive(s: Store, s': Store, s'': Store, taskId: string)
    requires Frame(s, s', taskId) && Frame(s', s'', taskId)
    ensures Frame(s, s'', taskId)
  {
    forall id | Owner(id) != taskId
      ensures Get(s''.meta, id) == Get(s.meta, id) && Get(s''.result, id) == Get(s.result, id)
      ensures Get(s''.call, id) == Get(s.call, id)
    {
      assert Get(s'.meta, id) == Get(s.meta, id) && Get(s'.result, id) == Get(s.result, id)
             && Get(s'.call, id) == Get(s.call, id);
    }
  }

  /** Agreement is about metadata only. */
  lemma SameMetaAgrees(s: Store, s': Store)
    requires Agree(s) && s'.meta == s.meta
    ensures Agree(s')
  {
    forall id | id in s'.meta ensures Family(s', id) { assert Family(s, id); }
  }

  /** Clearing removes the meta, result and lastcall keys of exactly one family. */
  lemma ClearKeepsAgreement(s: Store, taskId: string)
    requires Agree(s)
    ensures Agree(ClearTask(s, taskId))
    ensures forall id :: id in ClearTask(s, taskId).meta ==> id in s.meta
    ensures forall id :: id in s.meta ==>
      (id !in ClearTask(s, taskId).meta <==> taskId in s.meta && s.meta[id] == s.meta[taskId])
    ensures Frame(s, ClearTask(s, taskId), Owner(taskId))
  {
    if taskId in s.meta {
      var m, s' := s.meta[taskId], ClearTask(s, taskId);
      assert Family(s, taskId);
      forall id | id in s.meta && id !in Members(m) ensures Family(s', id) && s.meta[id] != m {
        assert Family(s, id);
        forall x | x in Members(s.meta[id]) ensures x !in Members(m) {
          assert s.meta[x] == s.meta[id];
        }
      }
      forall id | id in Members(m) ensures Owner(id) == Owner(taskId) { OwnerOfMember(m, id); }
    }
  }

  /** Clearing, entry by entry: the members of the family lose metadata, result and call, everybody else keeps
      all, and nobody loses a try count. */
  lemma ClearedIs(s: Store, taskId: string, id: string)
    ensures var s' := ClearTask(s, taskId);
            && s'.state == s.state && (taskId !in s.meta ==> s' == s)
            && (taskId in s.meta ==>
                 var m := s.meta[taskId];
                 if id == m.parent.task.id || (exists e :: e in m.children && e.task.id == id)
                 then id !in s'.meta && id !in s'.result && id !in s'.call
                 else && Get(s'.meta, id) == Get(s.meta, id) && Get(s'.result, id) == Get(s.result, id)
                      && Get(s'.call, id) == Get(s.call, id))
  {
  }

  /** A new family of a task without metadata disturbs no other family. */
  lemma PutKeepsAgreement(s: Store, m: Metadata)
    requires Agree(s) && '_' !in m.parent.task.id && FamilyIds(m.parent.task.id, m.children)
    requires m.parent.task.id !in s.meta
    ensures Agree(s.(meta := PutFamily(s.meta, m)))
    ensures forall id :: id in Members(m) ==> id !in s.meta && Owner(id) == m.parent.task.id
  {
    var s' := s.(meta := PutFamily(s.meta, m));
    forall id | id in Members(m) ensures id !in s.meta && Owner(id) == m.parent.task.id {
      OwnerOfMember(m, id);
      if id in s.meta { ParentEntry(s, id); }
    }
    forall id | id in s'.meta ensures Family(s', id) {
      if id in Members(m) {
        assert s'.meta[id] == m;
      } else {
        assert Family(s, id);
      }
    }
  }

  /** The sub-tasks a call takes up, and whether it found them. */
  function Opened(env: Env, s: Store, command: Command, task: Task): seq<Element> {
    var open := OpenSubTasks(env, s, command, task).1;
    if open.Ok? then open.value.missing else []
  }

  lemma OpenKeepsAgreement(env: Env, s: Store, command: Command, task: Task)
    requires Agree(s) && '_' !in task.id
    ensures var s' := OpenSubTasks(env, s, command, task).0;
            && Agree(s') && s' == s.(meta := s'.meta)
            && (task.id in s.meta ==> s' == s)
            && (forall id :: Owner(id) != task.id ==> Get(s'.meta, id) == Get(s.meta, id))
            && (OpenSubTasks(env, s, command, task).1.Ok? ==> task.id in s'.meta)
  {
    if task.id !in s.meta && SubTasksOf(env.repo, command, task).Ok? {
      SubTaskIds(env.repo, command, task);
      PutKeepsAgreement(s, Metadata(Element(command, task), SubTasksOf(env.repo, command, task).value));
    }
  }

  /** They are children of the family. */
  lemma OpenedAreChildren(env: Env, s: Store, command: Command, task: Task)
    ensures forall e :: e in Opened(env, s, command, task) ==>
      task.id in OpenSubTasks(env, s, command, task).0.meta
        && e in OpenSubTasks(env, s, command, task).0.meta[task.id].children
  {
    if task.id in s.meta {
      forall e { MissingIff(s.result, s.meta[task.id].children, e); }
    }
  }

  lemma {:induction false} MissingIff(result: map<string, SubResult>, children: seq<Element>, e: Element)
    ensures e in Missing(result, children) <==> e in children && e.task.id !in result
  {
    if |children| > 0 { MissingIff(result, children[..|children| - 1], e); }
  }

  /** A call saves its caller, opens sub-tasks, and then clears the family or records one try. */
  ghost predicate Shape(cfg: Config, env: Env, s: Store, command: Command, task: Task, caller: Caller, now: int,
                        s': Store, completed: bool) {
    if Ignores(cfg, s, task.id, caller, now) then s' == s && !completed
    else
      var (s1, open) := OpenSubTasks(env, SaveCall(cfg, s, task.id, caller, now), command, task);
      if completed then s' == ClearTask(s1, task.id) && open.Ok? else s' == s1.(state := s'.state)
  }

  lemma ProcessShape(cfg: Config, env: Env, s: Store, command: Command, task: Task, caller: Caller, now: int,
                     s': Store, out: Output)
    requires Process(cfg, env, s, command, task, caller, now, s', out)
    ensures Shape(cfg, env, s, command, task, caller, now, s', out.completed)
  {
  }

  lemma SaveCallFrame(cfg: Config, s: Store, taskId: string, caller: Caller, now: int)
    requires '_' !in taskId
    ensures Frame(s, SaveCall(cfg, s, taskId, caller, now), taskId)
  {
    OwnerOf(taskId, "");
  }

  lemma ShapeKeepsAgreement(cfg: Config, env: Env, s: Store, command: Command, task: Task, caller: Caller, now: int,
                            s': Store, completed: bool)
    requires Agree(s) && '_' !in task.id && Shape(cfg, env, s, command, task, caller, now, s', completed)
    ensures Agree(s') && Frame(s, s', task.id)
    ensures completed ==> task.id !in s'.meta
  {
    OwnerOf(task.id, "");
    if !Ignores(cfg, s, task.id, caller, now) {
      var s0 := SaveCall(cfg, s, task.id, caller, now);
      SameMetaAgrees(s, s0);
      SaveCallFrame(cfg, s, task.id, caller, now);
      OpenKeepsAgreement(env, s0, command, task);
      var s1 := OpenSubTasks(env, s0, command, task).0;
      FrameTransitive(s, s0, s1, task.id);
      if completed {
        ClearKeepsAgreement(s1, task.id);
        FrameTransitive(s, s1, s', task.id);
      } else {
        SameMetaAgrees(s1, s');
      }
    }
  }

  /** `ProcessCommand` keeps agreement and touches nothing of other tasks; results only disappear, and
      a family that is known before and after is the same, with the same results. */
  lemma ProcessEffect(cfg: Config, env: Env, s: Store, command: Command, task: Task, caller: Caller, now: int,
                      s': Store, out: Output)
    requires Agree(s) && '_' !in task.id && Process(cfg, env, s, command, task, caller, now, s', out)
    ensures Agree(s') && Frame(s, s', task.id)
    ensures forall id :: id in s'.result ==> id in s.result && s'.result[id] == s.result[id]
    ensures task.id in s.meta && task.id in s'.meta ==> s'.meta == s.meta && s'.result == s.result
    ensures out.completed ==> task.id !in s'.meta
  {
    ProcessShape(cfg, env, s, command, task, caller, now, s', out);
    ShapeKeepsAgreement(cfg, env, s, command, task, caller, now, s', out.completed);
    ShapeKeepsResults(cfg, env, s, command, task, caller, now, s', out.completed);
  }

  lemma ShapeKeepsResults(cfg: Config, env: Env, s: Store, command: Command, task: Task, caller: Caller, now: int,
                          s': Store, completed: bool)
    requires Shape(cfg, env, s, command, task, caller, now, s', completed)
    requires completed ==> task.id !in s'.meta
    ensures forall id :: id in s'.result ==> id in s.result && s'.result[id] == s.result[id]
    ensures task.id in s.meta && task.id in s'.meta ==> s'.meta == s.meta && s'.result == s.result
  {
  }

  /** A response stores its value, and may then clear the family. */
  function WithResult(s: Store, id: string, value: Json): Store {
    s.(result := s.result[id := SubResult(false, value)])
  }

  lemma RespondShape(s: Store, id: string, value: Json)
    ensures var (s', out) := Respond(s, id, value);
            s' == if out.Finished? then ClearTask(WithResult(s, id, value), s.meta[id].parent.task.id)
                  else WithResult(s, id, value)
    ensures Respond(s, id, value).1.NotFound? <==> id !in s.meta
  {
  }

  lemma WithResultFrame(s: Store, id: string, value: Json)
    ensures Frame(s, WithResult(s, id, value), Owner(id))
  {
  }

  /** `ProcessResponse` keeps agreement, creates no family and touches nothing of other tasks. */
  lemma RespondEffect(s: Store, id: string, value: Json, s': Store, out: ResponseOutput)
    requires Agree(s) && (s', out) == Respond(s, id, value)
    ensures Agree(s') && Frame(s, s', Owner(id)) && s'.state == s.state
    ensures forall x :: x in s'.meta ==> x in s.meta && s'.meta[x] == s.meta[x]
    ensures out.Finished? ==>
      id in s.meta && out.parent == s.meta[id].parent && out.parent.task.id == Owner(id) && Owner(id) !in s'.meta
    ensures !out.Finished? ==> s' == WithResult(s, id, value)
  {
    var s1 := WithResult(s, id, value);
    RespondShape(s, id, value);
    SameMetaAgrees(s, s1);
    WithResultFrame(s, id, value);
    if out.Finished? {
      ParentEntry(s, id);
      var parent := Owner(id);
      ParentOwnsItself(s, id);
      ClearKeepsAgreement(s1, parent);
      FrameTransitive(s, s1, s', parent);
      ClearOnlyRemoves(s1, parent);
    }
  }

  lemma ParentOwnsItself(s: Store, id: string)
    requires Agree(s) && id in s.meta
    ensures Owner(Owner(id)) == Owner(id) && '_' !in Owner(id)
  {
    assert Family(s, id);
    OwnerOf(Owner(id), "");
  }

  lemma ClearOnlyRemoves(s: Store, taskId: string)
    ensures var s' := ClearTask(s, taskId);
            && s'.state == s.state
            && (forall x :: x in s'.meta ==> x in s.meta && s'.meta[x] == s.meta[x])
            && (forall x :: x in s'.result ==> x in s.result && s'.result[x] == s.result[x])
  {
  }

  lemma {:induction false} RequestsCover(env: Env, elements: seq<Element>)
    requires Requests(env, elements).Ok?
    ensures |Requests(env, elements).value| == |elements|
    ensures forall k :: 0 <= k < |elements| ==> Requests(env, elements).value[k].metadata == elements[k]
  {
    if |elements| > 0 { RequestsCover(env, elements[..|elements| - 1]); }
  }

  predicate OneAtATime(cfg: Config) {
    cfg.scheduler.Sequential? || cfg.scheduler.RoundRobin?
  }

  /** A sub-task has tries left. */
  predicate Budgeted(s: Store, id: string, retries: int) {
    retries == -1 || StateOf(s, id).tryCount <= retries
  }

  /** A sub-task may be dispatched now: it has tries left and is not running. */
  predicate Ready(cfg: Config, s: Store, id: string, retries: int, now: int) {
    var last := StateOf(s, id).lastTry;
    Budgeted(s, id, retries) && (last.None? || now - last.value > cfg.timeout)
  }

  function BudgetedElements(s: Store, elements: seq<Element>, retries: int): seq<Element> {
    if |elements| == 0 then []
    else
      var last := elements[|elements| - 1];
      BudgetedElements(s, elements[..|elements| - 1], retries)
      + if Budgeted(s, last.task.id, retries) then [last] else []
  }

  function ReadyElements(cfg: Config, s: Store, elements: seq<Element>, retries: int, now: int): seq<Element> {
    if |elements| == 0 then []
    else
      var last := elements[|elements| - 1];
      ReadyElements(cfg, s, elements[..|elements| - 1], retries, now)
      + if Ready(cfg, s, last.task.id, retries, now) then [last] else []
  }

  lemma {:induction false} ReadyElementsIff(cfg: Config, s: Store, elements: seq<Element>, retries: int, now: int)
    ensures forall e ::
      e in ReadyElements(cfg, s, elements, retries, now) <==> e in elements && Ready(cfg, s, e.task.id, retries, now)
    ensures forall e ::
      e in BudgetedElements(s, elements, retries) <==> e in elements && Budgeted(s, e.task.id, retries)
  {
    if |elements| > 0 {
      var n := |elements| - 1;
      ReadyElementsIff(cfg, s, elements[..n], retries, now);
      assert elements == elements[..n] + [elements[n]];
    }
  }

  /** Requests that carry the elements and their stored states, in order. */
  ghost predicate Carry(s: Store, requests: seq<RequestInfo>, elements: seq<Element>) {
    && |requests| == |elements|
    && forall k :: 0 <= k < |elements| ==>
      requests[k].metadata == elements[k] && requests[k].state == StateOf(s, elements[k].task.id)
  }

  lemma {:induction false} FiltersCarry(cfg: Config, s: Store, requests: seq<RequestInfo>, elements: seq<Element>,
                                        retries: int, now: int)
    requires Carry(s, requests, elements)
    ensures Carry(s, FilterRetries(requests, retries), BudgetedElements(s, elements, retries))
    ensures Carry(s, FilterCurrentlyRunning(FilterRetries(requests, retries), cfg.timeout, now),
                  ReadyElements(cfg, s, elements, retries, now))
  {
    if |elements| > 0 {
      var n := |elements| - 1;
      FiltersCarry(cfg, s, requests[..n], elements[..n], retries, now);
      var before := FilterRetries(requests[..n], retries);
      RunningOneMore(before, requests[n], cfg.timeout, now);
      assert before + [] == before;
    }
  }

  lemma RunningOneMore(requests: seq<RequestInfo>, r: RequestInfo, timeout: int, now: int)
    ensures FilterCurrentlyRunning(requests + [r], timeout, now)
         == FilterCurrentlyRunning(requests, timeout, now) + if NotRunning(r, timeout, now) then [r] else []
  {
    assert (requests + [r])[..|requests|] == requests;
  }

  /** The requests that pass both filters are those of the opened sub-tasks that are ready, in order. */
  lemma ReadyRequests(cfg: Config, env: Env, s: Store, elements: seq<Element>, retries: int, now: int)
    requires Requests(env, elements).Ok?
    ensures var budgeted := FilterRetries(Annotated(s, Requests(env, elements).value), retries);
            && Carry(s, budgeted, BudgetedElements(s, elements, retries))
            && Carry(s, FilterCurrentlyRunning(budgeted, cfg.timeout, now),
                     ReadyElements(cfg, s, elements, retries, now))
  {
    RequestsCover(env, elements);
    FiltersCarry(cfg, s, Annotated(s, Requests(env, elements).value), elements, retries, now);
  }

  /** What SEQUENTIAL and ROUND_ROBIN do with the sub-tasks a call has opened: without a try left
      the task is given up; without a ready sub-task the call waits; else one is taken. */
  ghost predicate Taken(cfg: Config, s: Store, elements: seq<Element>, results: seq<Json>, taskId: string,
                        retries: int, now: int,
                        s': Store, out: Output) {
    && out.setRetry.None? && out.results == results
    && (out.completed <==> |BudgetedElements(s, elements, retries)| == 0)
    && (out.completed ==> |out.next| == 0 && s' == ClearTask(s, taskId) && out.error == ErrorIfEmpty(results))
    && (!out.completed ==>
         var ready := ReadyElements(cfg, s, elements, retries, now);
         && out.error.None?
         && if |ready| == 0 then |out.next| == 0 && s' == s
            else |out.next| == 1 && TakenOne(cfg, s, ready, out.next[0].metadata, now, s'))
  }

  /** SEQUENTIAL takes the first ready sub-task, ROUND_ROBIN one with the fewest tries; the try is recorded. */
  ghost predicate TakenOne(cfg: Config, s: Store, ready: seq<Element>, e: Element, now: int, s': Store)
    requires |ready| > 0
  {
    && e in ready
    && (cfg.scheduler.Sequential? ==> e == ready[0])
    && (cfg.scheduler.RoundRobin? ==> forall other :: other in ready ==>
         StateOf(s, e.task.id).tryCount <= StateOf(s, other.task.id).tryCount)
    && s' == s.(state := s.state[e.task.id := SubTaskState(Some(now), StateOf(s, e.task.id).tryCount + 1)])
  }

  lemma OneByOneTakes(cfg: Config, env: Env, s: Store, elements: seq<Element>, results: seq<Json>, taskId: string,
                      retries: int, now: int,
                      s': Store, out: Output)
    requires OneAtATime(cfg) && Requests(env, elements).Ok?
    requires OneByOne(cfg, s, Requests(env, elements).value, results, taskId, retries, now, s', out)
    ensures Taken(cfg, s, elements, results, taskId, retries, now, s', out)
  {
    ReadyRequests(cfg, env, s, elements, retries, now);
    var budgeted := FilterRetries(Annotated(s, Requests(env, elements).value), retries);
    var ready := FilterCurrentlyRunning(budgeted, cfg.timeout, now);
    if |budgeted| > 0 && |ready| > 0 {
      MayTakeElement(cfg, s, ready, ReadyElements(cfg, s, elements, retries, now), out.next[0]);
    }
  }

  /** The taken request is one of the ready sub-tasks, under ROUND_ROBIN one with the fewest tries. */
  lemma MayTakeElement(cfg: Config, s: Store, ready: seq<RequestInfo>, elements: seq<Element>, r: RequestInfo)
    requires Carry(s, ready, elements) && MayTake(cfg.scheduler, ready, r)
    ensures r.metadata in elements && r.state == StateOf(s, r.metadata.task.id)
    ensures cfg.scheduler.Sequential? ==> r.metadata == elements[0]
    ensures cfg.scheduler.RoundRobin? ==> forall e :: e in elements ==>
      r.state.tryCount <= StateOf(s, e.task.id).tryCount
  {
    var k :| 0 <= k < |ready| && ready[k] == r;
    assert elements[k] in elements;
    if cfg.scheduler.RoundRobin? {
      forall e | e in elements ensures r.state.tryCount <= StateOf(s, e.task.id).tryCount {
        var l :| 0 <= l < |elements| && elements[l] == e;
        assert ready[l] in ready;
      }
    }
  }

  /** A call of SEQUENTIAL or ROUND_ROBIN: ignored, failed, or taken from what it opened. */
  ghost predicate Called(cfg: Config, env: Env, s: Store, command: Command, task: Task, caller: Caller, now: int,
                         s': Store, out: Output) {
    if Ignores(cfg, s, task.id, caller, now) then s' == s && out == Output(false, [], [], None, None)
    else
      var (s1, open) := OpenSubTasks(env, SaveCall(cfg, s, task.id, caller, now), command, task);
      if open.Err? || Requests(env, open.value.missing).Err?
      then s' == s1 && out.next == [] && out.error.Some? && !out.completed && out.setRetry.None?
      else Taken(cfg, s1, open.value.missing, open.value.results, task.id, command.retries, now, s', out)
  }

  lemma ProcessIsCalled(cfg: Config, env: Env, s: Store, command: Command, task: Task, caller: Caller, now: int,
                        s': Store, out: Output)
    requires OneAtATime(cfg) && Process(cfg, env, s, command, task, caller, now, s', out)
    ensures Called(cfg, env, s, command, task, caller, now, s', out)
  {
    if !Ignores(cfg, s, task.id, caller, now) {
      var (s1, open) := OpenSubTasks(env, SaveCall(cfg, s, task.id, caller, now), command, task);
      if open.Ok? && Requests(env, open.value.missing).Ok? {
        OneByOneTakes(cfg, env, s1, open.value.missing, open.value.results, task.id, command.retries, now, s', out);
      }
    }
  }

  /** The sub-tasks a call may dispatch: those without a result, or all of a family it creates. */
  function Candidates(s: Store, s': Store, taskId: string): seq<Element>
    requires taskId in s'.meta
  {
    if taskId in s.meta then Missing(s.result, s'.meta[taskId].children) else s'.meta[taskId].children
  }

  /** At most one sub-task is dispatched, and only with its try recorded. */
  ghost predicate Dispatch(cfg: Config, s: Store, taskId: string, retries: int, now: int, s': Store, out: Output) {
    && |out.next| <= 1 && out.setRetry.None?
    && (|out.next| == 0 ==> s'.state == s.state)
    && (|out.next| == 1 ==>
         var id := out.next[0].metadata.task.id;
         && taskId in s'.meta && out.next[0].metadata in Candidates(s, s', taskId) && s'.result == s.result
         && Ready(cfg, s, id, retries, now)
         && s'.state == s.state[id := SubTaskState(Some(now), StateOf(s, id).tryCount + 1)]
         && (cfg.scheduler.RoundRobin? ==>
              forall e :: e in Candidates(s, s', taskId) && Ready(cfg, s, e.task.id, retries, now) ==>
              StateOf(s, id).tryCount <= StateOf(s, e.task.id).tryCount))
  }

  lemma CalledDispatches(cfg: Config, env: Env, s: Store, command: Command, task: Task, caller: Caller, now: int,
                         s': Store, out: Output)
    requires Called(cfg, env, s, command, task, caller, now, s', out)
    ensures Dispatch(cfg, s, task.id, command.retries, now, s', out)
  {
    if !Ignores(cfg, s, task.id, caller, now) {
      var s0 := SaveCall(cfg, s, task.id, caller, now);
      var (s1, open) := OpenSubTasks(env, s0, command, task);
      OpenedCandidates(env, s0, command, task);
      if open.Ok? && Requests(env, open.value.missing).Ok? {
        TakenDispatches(cfg, s, s1, open.value.missing, open.value.results, task.id, command.retries, now, s', out);
      }
    }
  }

  lemma TakenDispatches(cfg: Config, s: Store, s1: Store, elements: seq<Element>, results: seq<Json>, taskId: string,
                        retries: int, now: int,
                        s': Store, out: Output)
    requires s1.state == s.state && s1.result == s.result && taskId in s1.meta && elements == Candidates(s, s1, taskId)
    requires Taken(cfg, s1, elements, results, taskId, retries, now, s', out)
    ensures Dispatch(cfg, s, taskId, retries, now, s', out)
  {
    if out.completed { ClearOnlyRemoves(s1, taskId); }
    ReadyElementsIff(cfg, s1, elements, retries, now);
    forall id
      ensures StateOf(s1, id) == StateOf(s, id) && Ready(cfg, s1, id, retries, now) == Ready(cfg, s, id, retries, now)
    {
      SameStateSameReady(cfg, s, s1, id, retries, now);
    }
  }

  lemma SameStateSameReady(cfg: Config, s: Store, s': Store, id: string, retries: int, now: int)
    requires s'.state == s.state
    ensures StateOf(s', id) == StateOf(s, id) && Ready(cfg, s', id, retries, now) == Ready(cfg, s, id, retries, now)
  {
  }

  lemma OpenedCandidates(env: Env, s: Store, command: Command, task: Task)
    ensures var (s1, open) := OpenSubTasks(env, s, command, task);
            && s1 == s.(meta := s1.meta)
            && (open.Ok? ==> task.id in s1.meta && open.value.missing == Candidates(s, s1, task.id))
  {
  }
}
