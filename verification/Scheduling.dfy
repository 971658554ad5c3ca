/** What one call of the device-group scheduler does to the store: the steps of
    lib/devicegroups/devicegroups.go and sequential.go as a relation on values. */
module Scheduling {
  import opened Values
  import opened Messages
  import opened Storage
  import opened SubTasks

  datatype Scheduler = Sequential | RoundRobin | Parallel | Unknown

  /** `timeout` is the running timeout. */
  datatype Config = Config(scheduler: Scheduler, timeout: int)

  /** The world at the time of a call: the repository, and the message for a sub-task, if it can be made. */
  datatype Env = Env(repo: Repository, make: Element -> Result<Kind>)

  const EMPTY_STORE := Store(map[], map[], map[], map[])

  const NO_RESULTS := "unable to get any results for device-group"

  /** The children without a stored result, in order. */
  function Missing(result: map<string, SubResult>, children: seq<Element>): seq<Element> {
    if |children| == 0 then []
    else
      var last := children[|children| - 1];
      Missing(result, children[..|children| - 1]) + if last.task.id in result then [] else [last]
  }

  /** The stored results of the children, in order. */
  function Results(result: map<string, SubResult>, children: seq<Element>): seq<Json> {
    if |children| == 0 then []
    else
      var last := children[|children| - 1];
      Results(result, children[..|children| - 1])
      + if last.task.id in result && !result[last.task.id].failed then [result[last.task.id].value] else []
  }

  function Ids(elements: seq<Element>): set<string> {
    set e | e in elements :: e.task.id
  }

  /** Parent and children of a family. */
  function Members(m: Metadata): set<string> {
    {m.parent.task.id} + Ids(m.children)
  }

  /** `clearTaskData`: meta, result and lastcall of every member; the try counts stay. */
  function ClearTask(s: Store, taskId: string): Store {
    if taskId in s.meta then
      var ids := Members(s.meta[taskId]);
      s.(meta := s.meta - ids, result := s.result - ids, call := s.call - ids)
    else s
  }

  datatype ResponseOutput = NotFound | Pending(parent: Element) | Finished(parent: Element, results: seq<Json>)

  /** `ProcessResponse`. */
  function Respond(s: Store, id: string, value: Json): (Store, ResponseOutput) {
    var s1 := s.(result := s.result[id := SubResult(false, value)]);
    if id !in s.meta then (s1, NotFound)
    else
      var m := s.meta[id];
      if |Missing(s1.result, m.children)| == 0 then
        (ClearTask(s1, m.parent.task.id), Finished(m.parent, Results(s1.result, m.children)))
      else (s1, Pending(m.parent))
  }

  /** `shouldIgnoreTask`. */
  predicate Ignores(cfg: Config, s: Store, taskId: string, caller: Caller, now: int) {
    if cfg.scheduler.Parallel? then caller.Response?
    else
      && caller.CamundaLoop? && taskId in s.call && s.call[taskId].caller.Response?
      && now - s.call[taskId].time < cfg.timeout
  }

  /** `saveCallInfo`. */
  function SaveCall(cfg: Config, s: Store, taskId: string, caller: Caller, now: int): Store {
    if cfg.scheduler.Parallel? then s else s.(call := s.call[taskId := CallInfo(caller, now)])
  }

  /** Store a family under the ids of all its members. */
  function PutFamily(meta: map<string, Metadata>, m: Metadata): map<string, Metadata> {
    PutAll(meta, Members(m), m)
  }

  function PutAll(meta: map<string, Metadata>, ids: set<string>, m: Metadata): map<string, Metadata> {
    meta + map id | id in ids :: m
  }

  lemma IdsOfPrefix(elements: seq<Element>, k: nat)
    requires k < |elements|
    ensures Ids(elements[..k + 1]) == Ids(elements[..k]) + {elements[k].task.id}
  {
    assert elements[..k + 1] == elements[..k] + [elements[k]];
  }

  lemma PutOneMore(meta: map<string, Metadata>, ids: set<string>, id: string, m: Metadata)
    ensures PutAll(meta, ids, m)[id := m] == PutAll(meta, ids + {id}, m)
    ensures PutAll(meta, {}, m) == meta
  {
  }

  datatype Open = Open(missing: seq<Element>, results: seq<Json>)

  /** First half of `getNextRequests`: the sub-tasks of a known family without a result, or all of a new one. */
  function OpenSubTasks(env: Env, s: Store, command: Command, task: Task): (Store, Result<Open>) {
    if task.id in s.meta then
      var children := s.meta[task.id].children;
      (s, Ok(Open(Missing(s.result, children), Results(s.result, children))))
    else
      match SubTasksOf(env.repo, command, task)
      case Err(e) => (s, Err(e))
      case Ok(children) =>
        (s.(meta := PutFamily(s.meta, Metadata(Element(command, task), children))), Ok(Open(children, [])))
  }

  function StateOf(s: Store, id: string): SubTaskState {
    if id in s.state then s.state[id] else SubTaskState(None, 0)
  }

  /** Second half: a message for each, or the first error. */
  function Requests(env: Env, elements: seq<Element>): Result<seq<RequestInfo>> {
    if |elements| == 0 then Ok([])
    else
      var n := |elements| - 1;
      match Requests(env, elements[..n])
      case Err(e) => Err(e)
      case Ok(before) =>
        match env.make(elements[n])
        case Err(e) => Err(e)
        case Ok(kind) => Ok(before + [RequestInfo(kind, elements[n], SubTaskState(None, 0))])
  }

  function Annotated(s: Store, requests: seq<RequestInfo>): seq<RequestInfo> {
    seq(|requests|, k requires 0 <= k < |requests| => requests[k].(state := StateOf(s, requests[k].metadata.task.id)))
  }

  predicate InBudget(r: RequestInfo, retries: int) {
    retries == -1 || r.state.tryCount <= retries
  }

  predicate NotRunning(r: RequestInfo, timeout: int, now: int) {
    r.state.lastTry.None? || now - r.state.lastTry.value > timeout
  }

  function FilterRetries(requests: seq<RequestInfo>, retries: int): seq<RequestInfo> {
    if |requests| == 0 then []
    else
      var last := requests[|requests| - 1];
      FilterRetries(requests[..|requests| - 1], retries) + if InBudget(last, retries) then [last] else []
  }

  function FilterCurrentlyRunning(requests: seq<RequestInfo>, timeout: int, now: int): seq<RequestInfo> {
    if |requests| == 0 then []
    else
      var last := requests[|requests| - 1];
      FilterCurrentlyRunning(requests[..|requests| - 1], timeout, now)
      + if NotRunning(last, timeout, now) then [last] else []
  }

  /** The request a scheduler may take of several: SEQUENTIAL the first, ROUND_ROBIN any with the
      fewest tries, for `sort.Slice` leaves the order of ties open. */
  ghost predicate MayTake(scheduler: Scheduler, ready: seq<RequestInfo>, r: RequestInfo) {
    && r in ready
    && (scheduler.Sequential? ==> r == ready[0])
    && (scheduler.RoundRobin? ==> forall other :: other in ready ==> r.state.tryCount <= other.state.tryCount)
  }

  /** `updateSubTaskState` for one request. */
  function RecordTry(s: Store, r: RequestInfo, now: int): Store {
    s.(state := s.state[r.metadata.task.id := SubTaskState(Some(now), r.state.tryCount + 1)])
  }

  /** What `ProcessCommand` returns; `setRetry` is the value PARALLEL reports to Camunda. */
  datatype Output = Output(completed: bool, next: seq<RequestInfo>, results: seq<Json>, error: Option<string>,
                           setRetry: Option<int>)

  function Failure(results: seq<Json>, error: string): Output {
    Output(false, [], results, Some(error), None)
  }

  function ErrorIfEmpty(results: seq<Json>): Option<string> {
    if |results| == 0 then Some(NO_RESULTS) else None
  }

  /** SEQUENTIAL and ROUND_ROBIN, given the requests that are open. */
  ghost predicate OneByOne(cfg: Config, s: Store, requests: seq<RequestInfo>, results: seq<Json>, taskId: string,
                           retries: int, now: int,
                           s': Store, out: Output) {
    var budgeted := FilterRetries(Annotated(s, requests), retries);
    var ready := FilterCurrentlyRunning(budgeted, cfg.timeout, now);
    if |budgeted| == 0 then
      s' == ClearTask(s, taskId) && out == Output(true, [], results, ErrorIfEmpty(results), None)
    else if |ready| == 0 then
      s' == s && out == Output(false, [], results, None, None)
    else
      && |out.next| == 1 && MayTake(cfg.scheduler, ready, out.next[0])
      && s' == RecordTry(s, out.next[0], now) && out == Output(false, out.next, results, None, None)
  }

  /** PARALLEL: all open requests at once; the rounds are counted by Camunda in `task.retries`. */
  function AllAtOnce(s: Store, requests: seq<RequestInfo>, results: seq<Json>, task: Task, retries: int): (Store,
                     Output) {
    var noMoreRetries := retries != -1 && retries < task.retries;
    var completed := |requests| == 0 || noMoreRetries;
    (if completed then ClearTask(s, task.id) else s,
     if noMoreRetries then Output(completed, [], results, ErrorIfEmpty(results), None)
     else Output(completed, requests, results, None, Some(task.retries + 1)))
  }

  /** `ProcessCommand`. */
  ghost predicate Process(cfg: Config, env: Env, s: Store, command: Command, task: Task, caller: Caller, now: int,
                          s': Store, out: Output) {
    if Ignores(cfg, s, task.id, caller, now) then s' == s && out == Output(false, [], [], None, None)
    else
      var (s1, open) := OpenSubTasks(env, SaveCall(cfg, s, task.id, caller, now), command, task);
      match open
      case Err(e) => s' == s1 && out == Failure([], e)
      case Ok(Open(missing, results)) =>
        match Requests(env, missing)
        case Err(e) => s' == s1 && out == Failure([], e)
        case Ok(requests) =>
          match cfg.scheduler
          case Unknown => s' == s1 && out == Output(false, requests, results, Some("unknown scheduler"), None)
          case Parallel => (s', out) == AllAtOnce(s1, requests, results, task, command.retries)
          case _ => OneByOne(cfg, s1, requests, results, task.id, command.retries, now, s', out)
  }
}
