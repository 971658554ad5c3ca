/** `DeviceGroups` of lib/devicegroups/devicegroups.go as the object the Go methods change, proved to
    take exactly the steps of `Scheduling`. */
module DeviceGroupsObject {
  import opened Values
  import opened Messages
  import opened Storage
  import opened SubTasks
  import opened Scheduling
  import Sorting

  class DeviceGroups {
    const cfg: Config
    const db: KeyValueStore

    constructor (cfg: Config, db: KeyValueStore)
      ensures this.cfg == cfg && this.db == db
    {
      this.cfg, this.db := cfg, db;
    }

    /** `getTaskResults` for known metadata. */
    method GetTaskResults(metadata: Metadata) returns (results: seq<Json>, missing: seq<Element>)
      requires db.Valid()
      ensures results == Results(db.view.result, metadata.children)
      ensures missing == Missing(db.view.result, metadata.children)
    {
      results, missing := [], [];
      var children := metadata.children;
      for k := 0 to |children|
        invariant results == Results(db.view.result, children[..k])
        invariant missing == Missing(db.view.result, children[..k])
      {
        assert children[..k + 1][..k] == children[..k];
        var r := db.GetSubResult(children[k].task.id);
        if r.Some? {
          if !r.value.failed { results := results + [r.value.value]; }
        } else {
          missing := missing + [children[k]];
        }
      }
      assert children[..|children|] == children;
    }

    method ClearTaskData(parentTaskId: string)
      requires db.Valid()
      modifies db
      ensures db.Valid() && db.view == ClearTask(old(db.view), parentTaskId)
    {
      var meta := db.GetGroupMetadata(parentTaskId);
      if meta.None? { return; }
      var elements := meta.value.children + [meta.value.parent];
      ghost var s := db.view;
      for k := 0 to |elements|
        invariant db.Valid()
        invariant var ids := Ids(elements[..k]);
                  db.view == s.(meta := s.meta - ids, result := s.result - ids, call := s.call - ids)
      {
        db.DeleteTaskData(elements[k].task.id);
        IdsOfPrefix(elements, k);
      }
      assert elements[..|elements|] == elements;
      assert Ids(elements) == Ids(meta.value.children) + Ids([meta.value.parent]);
    }

    method ProcessResponse(subTaskId: string, value: Json) returns (out: ResponseOutput)
      requires db.Valid()
      modifies db
      ensures db.Valid() && (db.view, out) == Respond(old(db.view), subTaskId, value)
    {
      db.SetSubResult(subTaskId, SubResult(false, value));
      var meta := db.GetGroupMetadata(subTaskId);
      if meta.None? { return NotFound; }
      var results, missing := GetTaskResults(meta.value);
      if |missing| == 0 {
        ClearTaskData(meta.value.parent.task.id);
        return Finished(meta.value.parent, results);
      }
      return Pending(meta.value.parent);
    }

    method ShouldIgnoreTask(taskId: string, caller: Caller, now: int) returns (ignore: bool)
      requires db.Valid()
      ensures ignore == Ignores(cfg, db.view, taskId, caller, now)
    {
      if cfg.scheduler.Parallel? { return caller.Response?; }
      if caller.Response? { return false; }
      var last := db.GetLastCall(taskId);
      if last.None? { return false; }
      if last.value.caller.CamundaLoop? { return false; }
      return now - last.value.time < cfg.timeout;
    }

    /** `getNextRequests`, up to the messages. */
    method GetOpenSubTasks(env: Env, command: Command, task: Task) returns (open: Result<Open>)
      requires db.Valid()
      modifies db
      ensures db.Valid() && (db.view, open) == OpenSubTasks(env, old(db.view), command, task)
    {
      var meta := db.GetGroupMetadata(task.id);
      if meta.Some? {
        var results, missing := GetTaskResults(meta.value);
        return Ok(Open(missing, results));
      }
      var subTasks := GetSubTasks(env.repo, command, task);
      if subTasks.Err? { return Err(subTasks.message); }
      StoreFamily(Metadata(Element(command, task), subTasks.value));
      return Ok(Open(subTasks.value, []));
    }

    /** The metadata under the id of the parent and of every child. */
    method StoreFamily(m: Metadata)
      requires db.Valid()
      modifies db
      ensures db.Valid() && db.view == old(db.view).(meta := PutFamily(old(db.view).meta, m))
    {
      ghost var meta := db.view.meta;
      var parent := m.parent.task.id;
      db.SetGroupMetadata(parent, m);
      PutOneMore(meta, {}, parent, m);
      assert {} + {parent} == {parent} + Ids(m.children[..0]);
      for k := 0 to |m.children|
        invariant db.Valid() && db.view == old(db.view).(meta := db.view.meta)
        invariant db.view.meta == PutAll(meta, {parent} + Ids(m.children[..k]), m)
      {
        ghost var ids := {parent} + Ids(m.children[..k]);
        var id := m.children[k].task.id;
        db.SetGroupMetadata(id, m);
        IdsOfPrefix(m.children, k);
        assert {parent} + Ids(m.children[..k + 1]) == ids + {id};
        PutOneMore(meta, ids, id, m);
      }
      assert m.children[..|m.children|] == m.children;
    }

    method MakeRequests(env: Env, elements: seq<Element>) returns (requests: Result<seq<RequestInfo>>)
      ensures requests == Requests(env, elements)
    {
      var made: seq<RequestInfo> := [];
      for k := 0 to |elements|
        invariant Requests(env, elements[..k]) == Ok(made)
      {
        assert elements[..k + 1][..k] == elements[..k];
        var kind := env.make(elements[k]);
        if kind.Err? {
          RequestsFail(env, elements, k);
          return Err(kind.message);
        }
        made := made + [RequestInfo(kind.value, elements[k], SubTaskState(None, 0))];
      }
      assert elements[..|elements|] == elements;
      return Ok(made);
    }

    lemma {:induction false} RequestsFail(env: Env, elements: seq<Element>, k: nat)
      requires k < |elements| && Requests(env, elements[..k]).Ok? && env.make(elements[k]).Err?
      ensures Requests(env, elements) == Err(env.make(elements[k]).message)
      decreases |elements|
    {
      var n := |elements| - 1;
      if k < n {
        assert elements[..n][..k] == elements[..k];
        RequestsFail(env, elements[..n], k);
      }
    }

    method AnnotateSubTaskStates(requests: seq<RequestInfo>) returns (result: seq<RequestInfo>)
      requires db.Valid()
      ensures result == Annotated(db.view, requests)
    {
      result := [];
      for k := 0 to |requests|
        invariant result == Annotated(db.view, requests)[..k]
      {
        var state := db.GetSubTaskState(requests[k].metadata.task.id);
        result := result + [requests[k].(state := if state.Some? then state.value else SubTaskState(None, 0))];
      }
    }

    method KeepInBudget(requests: seq<RequestInfo>, retries: int) returns (result: seq<RequestInfo>)
      ensures result == FilterRetries(requests, retries)
    {
      result := [];
      for k := 0 to |requests|
        invariant result == FilterRetries(requests[..k], retries)
      {
        assert requests[..k + 1][..k] == requests[..k];
        if InBudget(requests[k], retries) { result := result + [requests[k]]; }
      }
      assert requests[..|requests|] == requests;
    }

    method DropCurrentlyRunning(requests: seq<RequestInfo>, now: int) returns (result: seq<RequestInfo>)
      ensures result == FilterCurrentlyRunning(requests, cfg.timeout, now)
    {
      result := [];
      for k := 0 to |requests|
        invariant result == FilterCurrentlyRunning(requests[..k], cfg.timeout, now)
      {
        assert requests[..k + 1][..k] == requests[..k];
        if NotRunning(requests[k], cfg.timeout, now) { result := result + [requests[k]]; }
      }
      assert requests[..|requests|] == requests;
    }

    method SortByTryCount(requests: seq<RequestInfo>) returns (result: seq<RequestInfo>)
      ensures |result| == |requests| && forall r :: r in result <==> r in requests
      ensures forall i, j :: 0 <= i < j < |result| ==> result[i].state.tryCount <= result[j].state.tryCount
    {
      var le := (a: RequestInfo, b: RequestInfo) => a.state.tryCount <= b.state.tryCount;
      assert Sorting.TotalPreorder(le);
      result := Sorting.SortSlice(requests, le);
      Sorting.SameMultiset(result, requests);
      assert forall i, j :: 0 <= i < j < |result| ==> le(result[i], result[j]);
    }

    /** The branches of SEQUENTIAL and ROUND_ROBIN. */
    method ProcessOneByOne(requests: seq<RequestInfo>, results: seq<Json>, taskId: string, retries: int, now: int)
      returns (out: Output)
      requires db.Valid() && (cfg.scheduler.Sequential? || cfg.scheduler.RoundRobin?)
      modifies db
      ensures db.Valid() && OneByOne(cfg, old(db.view), requests, results, taskId, retries, now, db.view, out)
    {
      var next := AnnotateSubTaskStates(requests);
      next := KeepInBudget(next, retries);
      if |next| == 0 {
        ClearTaskData(taskId);
        return Output(true, [], results, if |results| == 0 then Some(NO_RESULTS) else None, None);
      }
      next := DropCurrentlyRunning(next, now);
      ghost var ready := next;
      if cfg.scheduler.RoundRobin? {
        next := SortByTryCount(next);
      }
      if |next| > 0 {
        next := next[..1];
        assert next[0] in ready;
        db.SetSubTaskState(next[0].metadata.task.id, SubTaskState(Some(now), next[0].state.tryCount + 1));
      }
      return Output(false, next, results, None, None);
    }

    method ProcessCommand(env: Env, command: Command, task: Task, caller: Caller, now: int) returns (out: Output)
      requires db.Valid()
      modifies db
      ensures db.Valid() && Process(cfg, env, old(db.view), command, task, caller, now, db.view, out)
    {
      var ignore := ShouldIgnoreTask(task.id, caller, now);
      if ignore { return Output(false, [], [], None, None); }
      if !cfg.scheduler.Parallel? {
        db.SetLastCall(task.id, CallInfo(caller, now));
      }
      var open := GetOpenSubTasks(env, command, task);
      if open.Err? { return Failure([], open.message); }
      var made := MakeRequests(env, open.value.missing);
      if made.Err? { return Failure([], made.message); }
      var requests, results := made.value, open.value.results;
      match cfg.scheduler
      case Unknown =>
        return Output(false, requests, results, Some("unknown scheduler"), None);
      case Parallel =>
        var noMoreRetries := command.retries != -1 && command.retries < task.retries;
        var completed := |requests| == 0 || noMoreRetries;
        if completed { ClearTaskData(task.id); }
        if noMoreRetries {
          return Output(completed, [], results, if |results| == 0 then Some(NO_RESULTS) else None, None);
        }
        return Output(completed, requests, results, None, Some(task.retries + 1));
      case _ =>
        out := ProcessOneByOne(requests, results, task.id, command.retries, now);
    }
  }
}
