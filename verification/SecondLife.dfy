/** A run of ROUND_ROBIN in which the second life of a task starts unfair. */
module SecondLife {
  import opened Values
  import opened Messages
  import opened Storage
  import opened SubTasks
  import opened Scheduling
  import opened Steps
  import opened Runs
  import opened Lives
  import opened Fairness

  lemma {:induction false} NoneFiltered(requests: seq<RequestInfo>, timeout: int, now: int)
    requires forall r :: r in requests ==> NotRunning(r, timeout, now)
    ensures FilterRetries(requests, -1) == requests && FilterCurrentlyRunning(requests, timeout, now) == requests
  {
    if |requests| > 0 {
      var n := |requests| - 1;
      NoneFiltered(requests[..n], timeout, now);
      assert requests == requests[..n] + [requests[n]];
    }
  }

  lemma {:induction false} AllMade(env: Env, elements: seq<Element>)
    requires forall e :: e in elements ==> env.make(e).Ok?
    ensures Requests(env, elements).Ok?
  {
    if |elements| > 0 { AllMade(env, elements[..|elements| - 1]); }
  }

  /** No sub-task of these is running, and the one picked has the fewest tries. */
  ghost predicate MayPick(cfg: Config, s: Store, elements: seq<Element>, now: int, pick: nat) {
    && pick < |elements|
    && forall e :: e in elements ==>
         && (StateOf(s, e.task.id).lastTry.None? || now - StateOf(s, e.task.id).lastTry.value > cfg.timeout)
         && StateOf(s, elements[pick].task.id).tryCount <= StateOf(s, e.task.id).tryCount
  }

  lemma IdleRequests(cfg: Config, env: Env, s: Store, elements: seq<Element>, now: int, pick: nat)
    requires MayPick(cfg, s, elements, now, pick) && Requests(env, elements).Ok?
    ensures |Requests(env, elements).value| == |elements|
    ensures var requests := Annotated(s, Requests(env, elements).value);
            && FilterRetries(requests, -1) == requests
            && FilterCurrentlyRunning(requests, cfg.timeout, now) == requests
            && forall r :: r in requests ==> requests[pick].state.tryCount <= r.state.tryCount
  {
    RequestsCover(env, elements);
    var requests := Annotated(s, Requests(env, elements).value);
    forall r | r in requests
      ensures NotRunning(r, cfg.timeout, now) && requests[pick].state.tryCount <= r.state.tryCount
    {
      var k :| 0 <= k < |requests| && requests[k] == r;
      assert elements[k] in elements;
    }
    NoneFiltered(requests, cfg.timeout, now);
  }

  /** Whichever of the least tried sub-tasks is picked: there is a call that sends it. */
  lemma CanTake(cfg: Config, env: Env, s: Store, elements: seq<Element>, results: seq<Json>, taskId: string, now: int,
                pick: nat) returns (s': Store, out: Output)
    requires cfg.scheduler.RoundRobin? && MayPick(cfg, s, elements, now, pick) && Requests(env, elements).Ok?
    ensures OneByOne(cfg, s, Requests(env, elements).value, results, taskId, -1, now, s', out)
    ensures |out.next| == 1 && out.next[0].metadata == elements[pick]
    ensures s' == Tried(s, elements[pick].task.id, now)
  {
    IdleRequests(cfg, env, s, elements, now, pick);
    var requests := Requests(env, elements).value;
    var r := Annotated(s, requests)[pick];
    RequestTaken(cfg, s, requests, results, taskId, now, r);
    RequestIsTried(env, s, elements, now, pick);
    s', out := RecordTry(s, r, now), Output(false, [r], results, None, None);
  }

  lemma RequestTaken(cfg: Config, s: Store, requests: seq<RequestInfo>, results: seq<Json>, taskId: string, now: int,
                     r: RequestInfo)
    requires cfg.scheduler.RoundRobin? && r in Annotated(s, requests)
    requires var annotated := Annotated(s, requests);
             && FilterRetries(annotated, -1) == annotated
             && FilterCurrentlyRunning(annotated, cfg.timeout, now) == annotated
             && forall other :: other in annotated ==> r.state.tryCount <= other.state.tryCount
    ensures OneByOne(cfg, s, requests, results, taskId, -1, now,
                     RecordTry(s, r, now), Output(false, [r], results, None, None))
  {
  }

  lemma RequestIsTried(env: Env, s: Store, elements: seq<Element>, now: int, pick: nat)
    requires Requests(env, elements).Ok? && pick < |elements|
    ensures |Requests(env, elements).value| == |elements|
    ensures var r := Annotated(s, Requests(env, elements).value)[pick];
            r.metadata == elements[pick] && RecordTry(s, r, now) == Tried(s, elements[pick].task.id, now)
  {
    RequestsCover(env, elements);
  }

  /** The store after a try. */
  function Tried(s: Store, id: string, now: int): Store {
    s.(state := s.state[id := SubTaskState(Some(now), StateOf(s, id).tryCount + 1)])
  }

  /** A delivery by Camunda of a task no response has called for; s1 is the store once its sub-tasks are open. */
  lemma CanCall(cfg: Config, env: Env, s: Store, command: Command, task: Task, now: int, s1: Store, open: Open,
                pick: nat) returns (s': Store, e: Event)
    requires cfg.scheduler.RoundRobin? && command.retries == -1 && '_' !in task.id
    requires task.id in s.call ==> s.call[task.id].caller.CamundaLoop?
    requires OpenSubTasks(env, SaveCall(cfg, s, task.id, CamundaLoop, now), command, task) == (s1, Result.Ok(open))
    requires MayPick(cfg, s1, open.missing, now, pick) && forall e :: e in open.missing ==> env.make(e).Ok?
    ensures Step(cfg, s, e, s') && Commands(e, task.id) && e.now == now
    ensures |e.out.next| == 1 && e.out.next[0].metadata == open.missing[pick]
    ensures s' == Tried(s1, open.missing[pick].task.id, now)
  {
    AllMade(env, open.missing);
    var out;
    s', out := CanTake(cfg, env, s1, open.missing, open.results, task.id, now, pick);
    e := CommandEvent(command, task, CamundaLoop, now, out);
    assert !Ignores(cfg, s, task.id, CamundaLoop, now);
    assert Process(cfg, env, s, command, task, CamundaLoop, now, s', out);
  }

  /** A task with two sub-tasks, each with a message. */
  ghost predicate TwoSubTasks(env: Env, command: Command, task: Task, a: Element, b: Element) {
    && '_' !in task.id && command.retries == -1 && a.task.id != b.task.id
    && SubTasksOf(env.repo, command, task) == Ok([a, b]) && env.make(a).Ok? && env.make(b).Ok?
  }

  function FamilyOf(command: Command, task: Task, a: Element, b: Element): Metadata {
    Metadata(Element(command, task), [a, b])
  }

  /** Between the calls of the first life: a is answered, b has been sent `tries` times, last at `now`. */
  ghost predicate WaitsForB(s: Store, command: Command, task: Task, a: Element, b: Element, now: int, tries: int) {
    && s.meta == PutFamily(map[], FamilyOf(command, task, a, b))
    && s.result.Keys == {a.task.id}
    && StateOf(s, a.task.id) == SubTaskState(None, 0) && StateOf(s, b.task.id) == SubTaskState(Some(now), tries)
    && (task.id in s.call ==> s.call[task.id].caller.CamundaLoop?)
  }

  /** No family and no call; b has been sent `tries` times. */
  ghost predicate Absent(s: Store, task: Task, a: Element, b: Element, bState: SubTaskState) {
    && s.meta == map[] && task.id !in s.call
    && StateOf(s, a.task.id) == SubTaskState(None, 0) && StateOf(s, b.task.id) == bState
  }

  lemma LateResponse(cfg: Config, task: Task, a: Element, b: Element, value: Json)
    returns (stores: seq<Store>, events: seq<Event>)
    ensures IsRun(cfg, stores, events) && |events| == 1 && events[0].ResponseEvent?
    ensures Absent(stores[1], task, a, b, SubTaskState(None, 0)) && stores[1].result.Keys == {a.task.id}
  {
    var s := EMPTY_STORE.(result := map[a.task.id := SubResult(false, value)]);
    stores, events := [EMPTY_STORE, s], [ResponseEvent(a.task.id, value, NotFound)];
    assert Step(cfg, EMPTY_STORE, events[0], s);
  }

  /** The store once the family is stored and the call is saved. */
  function Stored(s: Store, command: Command, task: Task, a: Element, b: Element, now: int): Store {
    s.(meta := PutFamily(s.meta, FamilyOf(command, task, a, b)), call := s.call[task.id := CallInfo(CamundaLoop, now)])
  }

  /** The call that stores the family sends the sub-task picked. */
  lemma Creates(cfg: Config, env: Env, s: Store, command: Command, task: Task, a: Element, b: Element, now: int,
                pick: nat, bState: SubTaskState) returns (s': Store, e: Event)
    requires cfg.scheduler.RoundRobin? && TwoSubTasks(env, command, task, a, b) && Absent(s, task, a, b, bState)
    requires bState.lastTry.None? || now - bState.lastTry.value > cfg.timeout
    requires pick < 2 && (if pick == 0 then 0 <= bState.tryCount else bState.tryCount <= 0)
    ensures Step(cfg, s, e, s') && Commands(e, task.id) && e.now == now
    ensures |e.out.next| == 1 && e.out.next[0].metadata == [a, b][pick]
    ensures s' == Tried(Stored(s, command, task, a, b, now), [a, b][pick].task.id, now)
  {
    var s1 := Stored(s, command, task, a, b, now);
    OpensBoth(cfg, env, s, command, task, a, b, now);
    PicksOne(cfg, env, s, s1, task, a, b, now, pick, bState);
    s', e := CanCall(cfg, env, s, command, task, now, s1, Open([a, b], []), pick);
  }

  lemma OpensBoth(cfg: Config, env: Env, s: Store, command: Command, task: Task, a: Element, b: Element, now: int)
    requires !cfg.scheduler.Parallel? && TwoSubTasks(env, command, task, a, b) && task.id !in s.meta
    ensures OpenSubTasks(env, SaveCall(cfg, s, task.id, CamundaLoop, now), command, task)
         == (Stored(s, command, task, a, b, now), Result.Ok(Open([a, b], [])))
  {
  }

  lemma PicksOne(cfg: Config, env: Env, s: Store, s1: Store, task: Task, a: Element, b: Element, now: int,
                 pick: nat, bState: SubTaskState)
    requires env.make(a).Ok? && env.make(b).Ok? && Absent(s, task, a, b, bState) && s1.state == s.state
    requires bState.lastTry.None? || now - bState.lastTry.value > cfg.timeout
    requires pick < 2 && (if pick == 0 then 0 <= bState.tryCount else bState.tryCount <= 0)
    ensures MayPick(cfg, s1, [a, b], now, pick) && forall e :: e in [a, b] ==> env.make(e).Ok?
  {
    assert StateOf(s1, a.task.id) == StateOf(s, a.task.id) && StateOf(s1, b.task.id) == StateOf(s, b.task.id);
    forall e | e in [a, b] ensures e == a || e == b {}
  }

  lemma OnlyBMissing(result: map<string, SubResult>, a: Element, b: Element)
    requires a.task.id in result && b.task.id !in result
    ensures Missing(result, [a, b]) == [b]
  {
    assert [a, b][..1] == [a] && [a][..0] == [];
    assert Missing(result, [a]) == [];
  }

  lemma HasElement(elements: seq<Element>)
    ensures elements != [] ==> exists e :: e in elements
  {
    if elements != [] { assert elements[0] in elements; }
  }

  lemma BothAnswered(result: map<string, SubResult>, a: Element, b: Element)
    requires a.task.id in result && b.task.id in result
    ensures Missing(result, [a, b]) == []
  {
    var missing := Missing(result, [a, b]);
    forall e | e in [a, b] ensures e == a || e == b {}
    forall e ensures e !in missing { MissingIff(result, [a, b], e); }
    HasElement(missing);
  }

  lemma FamilyMembers(command: Command, task: Task, a: Element, b: Element)
    ensures Members(FamilyOf(command, task, a, b)) == {task.id, a.task.id, b.task.id}
  {
    assert a in [a, b] && b in [a, b];
  }

  /** A quiet call sends b again. */
  lemma SendsB(cfg: Config, env: Env, s: Store, command: Command, task: Task, a: Element, b: Element, last: int,
               now: int, tries: int) returns (s': Store, e: Event)
    requires cfg.scheduler.RoundRobin? && TwoSubTasks(env, command, task, a, b)
    requires WaitsForB(s, command, task, a, b, last, tries) && now - last > cfg.timeout
    ensures Step(cfg, s, e, s') && Commands(e, task.id) && e.now == now
    ensures WaitsForB(s', command, task, a, b, now, tries + 1)
  {
    var s1 := s.(call := s.call[task.id := CallInfo(CamundaLoop, now)]);
    OpensB(cfg, env, s, command, task, a, b, last, now, tries);
    PicksB(cfg, env, s, s1, command, task, a, b, last, now, tries);
    s', e := CanCall(cfg, env, s, command, task, now, s1, Open([b], Results(s.result, [a, b])), 0);
  }

  lemma PicksB(cfg: Config, env: Env, s: Store, s1: Store, command: Command, task: Task, a: Element, b: Element,
               last: int, now: int, tries: int)
    requires env.make(b).Ok? && a.task.id != b.task.id && WaitsForB(s, command, task, a, b, last, tries)
    requires now - last > cfg.timeout && s1 == s.(call := s.call[task.id := CallInfo(CamundaLoop, now)])
    ensures MayPick(cfg, s1, [b], now, 0) && forall e :: e in [b] ==> env.make(e).Ok?
    ensures WaitsForB(Tried(s1, b.task.id, now), command, task, a, b, now, tries + 1)
  {
    assert StateOf(s1, a.task.id) == StateOf(s, a.task.id) && StateOf(s1, b.task.id) == StateOf(s, b.task.id);
    forall e | e in [b] ensures e == b {}
  }

  lemma OpensB(cfg: Config, env: Env, s: Store, command: Command, task: Task, a: Element, b: Element, last: int,
               now: int, tries: int)
    requires !cfg.scheduler.Parallel? && a.task.id != b.task.id && WaitsForB(s, command, task, a, b, last, tries)
    ensures OpenSubTasks(env, SaveCall(cfg, s, task.id, CamundaLoop, now), command, task)
         == (s.(call := s.call[task.id := CallInfo(CamundaLoop, now)]),
             Result.Ok(Open([b], Results(s.result, [a, b]))))
  {
    FamilyMembers(command, task, a, b);
    OnlyBMissing(s.result, a, b);
    assert s.meta[task.id] == FamilyOf(command, task, a, b);
  }

  /** The response for b finishes and clears. */
  lemma FinishesB(cfg: Config, s: Store, command: Command, task: Task, a: Element, b: Element, now: int, tries: int,
                  value: Json) returns (s': Store, e: Event)
    requires a.task.id != b.task.id && WaitsForB(s, command, task, a, b, now, tries)
    ensures Step(cfg, s, e, s') && e.ResponseEvent?
    ensures Absent(s', task, a, b, SubTaskState(Some(now), tries)) && s'.result.Keys == {}
  {
    FamilyMembers(command, task, a, b);
    var m := FamilyOf(command, task, a, b);
    var s1 := WithResult(s, b.task.id, value);
    assert s.meta[b.task.id] == m;
    BothAnswered(s1.result, a, b);
    var (cleared, out) := Respond(s, b.task.id, value);
    s' := cleared;
    e := ResponseEvent(b.task.id, value, out);
    assert s'.meta == map[];
    assert s'.state == s.state;
  }

  lemma Add(cfg: Config, stores: seq<Store>, events: seq<Event>, s': Store, e: Event)
    returns (stores': seq<Store>, events': seq<Event>)
    requires IsRun(cfg, stores, events) && Step(cfg, stores[|events|], e, s')
    requires e.CommandEvent? ==> forall k :: 0 <= k < |events| && events[k].CommandEvent? ==> events[k].now <= e.now
    ensures stores' == stores + [s'] && events' == events + [e]
    ensures IsRun(cfg, stores', events') && |stores'| == |stores| + 1
  {
    stores', events' := stores + [s'], events + [e];
    forall k | 0 <= k < |events'| ensures Step(cfg, stores'[k], events'[k], stores'[k + 1]) {
      if k < |events| { assert Step(cfg, stores[k], events[k], stores[k + 1]); }
    }
  }

  /** The calls of a run were made at these times, not before each other. */
  ghost predicate NotAfter(events: seq<Event>, now: int) {
    forall k :: 0 <= k < |events| && events[k].CommandEvent? ==> events[k].now <= now
  }

  /** A late response for a, and the call that stores the family and sends b. */
  lemma FirstCalls(cfg: Config, env: Env, command: Command, task: Task, a: Element, b: Element, value: Json)
    returns (stores: seq<Store>, events: seq<Event>)
    requires cfg.scheduler.RoundRobin? && TwoSubTasks(env, command, task, a, b)
    ensures IsRun(cfg, stores, events) && |events| == 2 && NotAfter(events, 0)
    ensures WaitsForB(stores[2], command, task, a, b, 0, 1)
  {
    stores, events := LateResponse(cfg, task, a, b, value);
    var s', e := CreatesForB(cfg, env, stores[1], command, task, a, b);
    stores, events := Add(cfg, stores, events, s', e);
  }

  lemma CreatesForB(cfg: Config, env: Env, s: Store, command: Command, task: Task, a: Element, b: Element)
    returns (s': Store, e: Event)
    requires cfg.scheduler.RoundRobin? && TwoSubTasks(env, command, task, a, b)
    requires Absent(s, task, a, b, SubTaskState(None, 0)) && s.result.Keys == {a.task.id}
    ensures Step(cfg, s, e, s') && e.CommandEvent? && e.now == 0
    ensures WaitsForB(s', command, task, a, b, 0, 1)
  {
    StoredWaits(s, command, task, a, b);
    s', e := Creates(cfg, env, s, command, task, a, b, 0, 1, SubTaskState(None, 0));
  }

  lemma StoredWaits(s: Store, command: Command, task: Task, a: Element, b: Element)
    requires a.task.id != b.task.id && Absent(s, task, a, b, SubTaskState(None, 0)) && s.result.Keys == {a.task.id}
    ensures WaitsForB(Tried(Stored(s, command, task, a, b, 0), b.task.id, 0), command, task, a, b, 0, 1)
  {
  }

  lemma AddSend(cfg: Config, env: Env, command: Command, task: Task, a: Element, b: Element, stores: seq<Store>,
                events: seq<Event>, last: int, now: int, tries: int)
    returns (stores': seq<Store>, events': seq<Event>)
    requires cfg.scheduler.RoundRobin? && TwoSubTasks(env, command, task, a, b)
    requires IsRun(cfg, stores, events) && NotAfter(events, last) && now >= last && now - last > cfg.timeout
    requires WaitsForB(stores[|events|], command, task, a, b, last, tries)
    ensures IsRun(cfg, stores', events') && |events'| == |events| + 1 && NotAfter(events', now)
    ensures WaitsForB(stores'[|events'|], command, task, a, b, now, tries + 1)
  {
    var s', e := SendsB(cfg, env, stores[|events|], command, task, a, b, last, now, tries);
    stores', events' := Add(cfg, stores, events, s', e);
  }

  /** The first life: these two, two quiet calls that send b again, and the response for b, which finishes. */
  lemma FirstLife(cfg: Config, env: Env, command: Command, task: Task, a: Element, b: Element, value: Json)
    returns (stores: seq<Store>, events: seq<Event>, now: int)
    requires cfg.scheduler.RoundRobin? && TwoSubTasks(env, command, task, a, b)
    ensures IsRun(cfg, stores, events) && |events| == 5 && NotAfter(events, now)
    ensures Absent(stores[5], task, a, b, SubTaskState(Some(now), 3)) && stores[5].result.Keys == {}
  {
    var d := if cfg.timeout < 0 then 0 else cfg.timeout + 1;
    now := d + d;
    stores, events := FirstCalls(cfg, env, command, task, a, b, value);
    stores, events := AddSend(cfg, env, command, task, a, b, stores, events, 0, d, 1);
    stores, events := AddSend(cfg, env, command, task, a, b, stores, events, d, now, 2);
    var s', e := FinishesB(cfg, stores[4], command, task, a, b, now, 3, value);
    stores, events := Add(cfg, stores, events, s', e);
  }

  /** After it, the call that stores the family again sends a. Both children wait, and b is two tries ahead. */
  lemma UnfairRun(cfg: Config, env: Env, command: Command, task: Task, a: Element, b: Element, value: Json)
    returns (stores: seq<Store>, events: seq<Event>)
    requires cfg.scheduler.RoundRobin? && TwoSubTasks(env, command, task, a, b)
    ensures IsRun(cfg, stores, events) && |events| == 6 && Commands(events[5], task.id)
    ensures task.id !in stores[5].meta && task.id in stores[6].meta
    ensures a.task.id in Unanswered(stores[6], task.id) && b.task.id in Unanswered(stores[6], task.id)
    ensures DispatchCount(events[..5], b.task.id) == DispatchCount(events[..5], a.task.id) + 3
    ensures StateOf(stores[6], b.task.id).tryCount == StateOf(stores[6], a.task.id).tryCount + 2
    ensures !FairNow(stores[6], task.id)
  {
    var now;
    stores, events, now := FirstLife(cfg, env, command, task, a, b, value);
    TriesAreDispatches(cfg, stores, events, a.task.id);
    TriesAreDispatches(cfg, stores, events, b.task.id);
    var first := events;
    var d := if cfg.timeout < 0 then 0 else cfg.timeout + 1;
    BothWait(stores[5], command, task, a, b, now + d);
    var s6, e6 := Creates(cfg, env, stores[5], command, task, a, b, now + d, 0, SubTaskState(Some(now), 3));
    stores, events := Add(cfg, stores, events, s6, e6);
    assert events[..5] == first;
    OldTriesAreUnfair(cfg, stores, events, task.id, 5, a.task.id, b.task.id);
  }

  lemma BothWait(s: Store, command: Command, task: Task, a: Element, b: Element, now: int)
    requires s.result.Keys == {}
    ensures var s' := Tried(Stored(s, command, task, a, b, now), a.task.id, now);
            && task.id in s'.meta
            && a.task.id in Unanswered(s', task.id) && b.task.id in Unanswered(s', task.id)
            && StateOf(s', a.task.id).tryCount == StateOf(s, a.task.id).tryCount + 1
            && (a.task.id != b.task.id ==> StateOf(s', b.task.id) == StateOf(s, b.task.id))
  {
    FamilyMembers(command, task, a, b);
    var s' := Tried(Stored(s, command, task, a, b, now), a.task.id, now);
    assert s'.meta[task.id].children == [a, b] && a in [a, b] && b in [a, b];
  }

  /** A group of two devices with one service. */
  const REPOSITORY := Repository({"user"}, map["group" := ["first", "second"]],
                                 map["first" := "type", "second" := "type"],
                                 map["type" := [SERVICE]], (a, b) => true, false)
  const SERVICE := Service("service", REQUEST, [Variable("function", [], [])], [])
  const COMMAND := Command(3, "function", [], "group", "", "", -1)
  const TASK := Task("task", "user", 0, "")

  lemma DeviceHasService(deviceId: string)
    requires deviceId in REPOSITORY.devices
    ensures DeviceServices(REPOSITORY, COMMAND, deviceId) == Ok([SERVICE])
  {
    assert ContainsCriteria(REPOSITORY, COMMAND, SERVICE.inputs[0]);
    assert Matches(REPOSITORY, COMMAND, SERVICE);
    assert [SERVICE][..0] == [];
    assert FilteredServices(REPOSITORY, COMMAND, []) == [];
    assert FilteredServices(REPOSITORY, COMMAND, [SERVICE]) == Insert(SERVICE, []);
  }

  lemma {:induction false} PureStays(id: string)
    requires '$' !in id
    ensures PureId(id) == id
  {
    if id != "" {
      PureStays(id[1..]);
      assert id == [id[0]] + id[1..];
    }
  }

  lemma OneDeviceMore(repo: Repository, command: Command, task: Task, devices: seq<string>, deviceId: string,
                      service: Service, before: seq<Element>)
    requires GroupSubTasks(repo, command, task, devices) == Ok(before)
    requires DeviceServices(repo, command, deviceId) == Ok([service])
    ensures GroupSubTasks(repo, command, task, devices + [deviceId])
         == Ok(before + [SubTask(command, task, deviceId, service.id, |devices|, 0)])
  {
    assert (devices + [deviceId])[..|devices|] == devices;
    assert DeviceSubTasks(command, task, deviceId, |devices|, [service])
        == [SubTask(command, task, deviceId, service.id, |devices|, 0)];
  }

  /** The sub-tasks of a group of two devices with one service each. */
  lemma GroupOfTwo(repo: Repository, command: Command, task: Task, first: string, second: string, service: Service)
    requires '_' !in task.id && '$' !in first && '$' !in second
    requires DeviceServices(repo, command, first) == Ok([service])
    requires DeviceServices(repo, command, second) == Ok([service])
    requires command.deviceGroupId != "" && command.deviceGroupId in repo.groups && task.tenantId in repo.tokens
    requires repo.groups[command.deviceGroupId] == [first] + [second]
    ensures var a := SubTask(command, task, first, service.id, 0, 0);
            var b := SubTask(command, task, second, service.id, 1, 0);
            SubTasksOf(repo, command, task) == Ok([a, b]) && a.task.id != b.task.id
  {
    var a := SubTask(command, task, first, service.id, 0, 0);
    var b := SubTask(command, task, second, service.id, 1, 0);
    assert GroupSubTasks(repo, command, task, []) == Ok([]);
    assert [] + [a] == [a] && [] + [first] == [first];
    OneDeviceMore(repo, command, task, [], first, service, []);
    OneDeviceMore(repo, command, task, [first], second, service, [a]);
    PureStays(first);
    PureStays(second);
    assert RawSubTasks(repo, command, task) == Ok([a] + [b]);
    assert SubTasksOf(repo, command, task).value == [a, b];
    if a.task.id == b.task.id { SubTaskIdIsInjective(task.id, 0, 0, task.id, 1, 0); }
  }

  /** Whatever the timeout, there is a run of ROUND_ROBIN in which the second life of a task starts unfair. */
  lemma SecondLifeCanBeUnfair(cfg: Config) returns (stores: seq<Store>, events: seq<Event>)
    requires cfg.scheduler.RoundRobin?
    ensures IsRun(cfg, stores, events) && |events| == 6 && Commands(events[5], TASK.id)
    ensures TASK.id !in stores[5].meta && TASK.id in stores[6].meta && !FairNow(stores[6], TASK.id)
  {
    DeviceHasService("first");
    DeviceHasService("second");
    assert ["first"] + ["second"] == ["first", "second"];
    GroupOfTwo(REPOSITORY, COMMAND, TASK, "first", "second", SERVICE);
    var env := Env(REPOSITORY, e => Ok(Request));
    var a := SubTask(COMMAND, TASK, "first", SERVICE.id, 0, 0);
    var b := SubTask(COMMAND, TASK, "second", SERVICE.id, 1, 0);
    stores, events := UnfairRun(cfg, env, COMMAND, TASK, a, b, Null);
  }
}
