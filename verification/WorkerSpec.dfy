/** What the worker reports and sends, and the measure that ends its chain of calls. */
module WorkerSpec {
  import opened Values
  import opened Messages
  import opened Storage
  import opened SubTasks
  import opened Scheduling
  import opened Steps
  import opened Runs
  import opened Lives

  /** What Camunda is given as the result variable: one value, or the list. */
  datatype Payload = Single(value: Json) | Many(values: seq<Json>)

  /** `handleVersioning`: commands before version 2 know one result only. */
  function Versioned(version: int, results: seq<Json>): Payload {
    if version < 2 && |results| > 0 then Single(results[0]) else Many(results)
  }

  /** The results Camunda can read from the variable. */
  function Carried(p: Payload): seq<Json> {
    if p.Single? then [p.value] else p.values
  }

  /** Before version 2 the variable is the first result alone, if there is one; else it is all of them. */
  ghost predicate IsPayload(p: Payload, version: int, results: seq<Json>) {
    if version < 2 && |results| > 0 then p == Single(results[0]) else p == Many(results)
  }

  lemma VersionedIs(version: int, results: seq<Json>)
    ensures IsPayload(Versioned(version, results), version, results)
  {
  }

  /** The variable carries a result whenever there is one, and all of them from version 2 on. */
  lemma VersionedCarries(version: int, results: seq<Json>)
    ensures Carried(Versioned(version, results)) <= results
    ensures |Carried(Versioned(version, results))| == 0 <==> |results| == 0
    ensures version >= 2 ==> Carried(Versioned(version, results)) == results
  {
  }

  /** Calls the worker makes: on Camunda, and for a sub-task on the producer or the event store. */
  datatype Effect =
    | Completed(taskId: string, payload: Payload)
    | Failed(taskId: string, error: string)
    | RetrySet(taskId: string, retries: int)
    | Sent(id: string)

  /** A message on its way, and the answer of an event store if it comes at once. */
  datatype Delivery = Delivery(id: string, answer: Option<Json>)

  /** What a response tells Camunda. */
  function Finishing(out: ResponseOutput): seq<Effect> {
    if out.Finished? then [Completed(out.parent.task.id, Versioned(out.parent.command.version, out.results))] else []
  }

  /** What goes out and what comes back, one message after the other, where a response starts no further
      call: an answer that comes at once is a response, with its outcome, before the next message is sent. */
  datatype Delivered = Delivered(events: seq<Event>, log: seq<Effect>)

  function One(d: Delivery, out: ResponseOutput): Delivered {
    if d.answer.None? then Delivered([], [Sent(d.id)])
    else Delivered([ResponseEvent(d.id, d.answer.value, out)], [Sent(d.id)] + Finishing(out))
  }

  function Then(a: Delivered, b: Delivered): Delivered {
    Delivered(a.events + b.events, a.log + b.log)
  }

  /** `outs` holds the outcome of the response to each message that is answered. */
  function Deliver(deliveries: seq<Delivery>, outs: seq<ResponseOutput>): Delivered
    requires |outs| == |deliveries|
  {
    if |deliveries| == 0 then Delivered([], [])
    else
      var n := |deliveries| - 1;
      Then(Deliver(deliveries[..n], outs[..n]), One(deliveries[n], outs[n]))
  }

  lemma {:induction false} DeliverMore(deliveries: seq<Delivery>, outs: seq<ResponseOutput>, d: Delivery,
                                       out: ResponseOutput)
    requires |outs| == |deliveries|
    ensures Deliver(deliveries + [d], outs + [out]) == Then(Deliver(deliveries, outs), One(d, out))
  {
    assert (deliveries + [d])[..|deliveries|] == deliveries && (outs + [out])[..|outs|] == outs;
  }

  lemma ThenAssociates(a: Delivered, b: Delivered, c: Delivered)
    ensures Then(Then(a, b), c) == Then(a, Then(b, c))
  {
    assert a.events + b.events + c.events == a.events + (b.events + c.events);
    assert a.log + b.log + c.log == a.log + (b.log + c.log);
  }

  lemma {:induction false} DeliverOneMore(start: Delivered, deliveries: seq<Delivery>,
                                          outs: seq<ResponseOutput>, d: Delivery, out: ResponseOutput)
    requires |outs| == |deliveries|
    ensures Then(Then(start, Deliver(deliveries, outs)), One(d, out))
         == Then(start, Deliver(deliveries + [d], outs + [out]))
  {
    DeliverMore(deliveries, outs, d, out);
    ThenAssociates(start, Deliver(deliveries, outs), One(d, out));
  }

  /** From `start` on, exactly these deliveries follow. */
  ghost predicate DeliversAll(start: Delivered, deliveries: seq<Delivery>, outs: seq<ResponseOutput>,
                              end: Delivered) {
    |outs| == |deliveries| && end == Then(start, Deliver(deliveries, outs))
  }

  lemma {:induction false} DeliverMaybe(start: Delivered, deliveries: seq<Delivery>, outs: seq<ResponseOutput>,
                                        one: seq<Delivery>, before: Delivered, more: seq<ResponseOutput>,
                                        after: Delivered)
    requires DeliversAll(start, deliveries, outs, before) && |one| == |more| <= 1
    requires after == if |one| == 0 then before else Then(before, One(one[0], more[0]))
    ensures DeliversAll(start, deliveries + one, outs + more, after)
  {
    if |one| == 0 {
      assert deliveries + one == deliveries && outs + more == outs;
    } else {
      assert one == [one[0]] && more == [more[0]];
      DeliverOneMore(start, deliveries, outs, one[0], more[0]);
    }
  }

  /** The effect completes the task with these results, as its version reads them. */
  ghost predicate IsCompletion(effect: Effect, taskId: string, version: int, results: seq<Json>) {
    effect.Completed? && effect.taskId == taskId && IsPayload(effect.payload, version, results)
  }

  function SentCount(log: seq<Effect>, id: string): nat {
    if |log| == 0 then 0
    else SentCount(log[..|log| - 1], id) + if log[|log| - 1] == Sent(id) then 1 else 0
  }

  lemma SentOneMore(log: seq<Effect>, e: Effect, id: string)
    ensures SentCount(log + [e], id) == SentCount(log, id) + if e == Sent(id) then 1 else 0
  {
    assert (log + [e])[..|log|] == log;
  }

  /** Deliveries of messages for one sub-task. */
  function DeliveriesFor(deliveries: seq<Delivery>, id: string): nat {
    if |deliveries| == 0 then 0
    else
      var n := |deliveries| - 1;
      DeliveriesFor(deliveries[..n], id) + if deliveries[n].id == id then 1 else 0
  }

  lemma OneSends(log: seq<Effect>, d: Delivery, out: ResponseOutput, id: string)
    ensures SentCount(log + One(d, out).log, id) == SentCount(log, id) + if d.id == id then 1 else 0
  {
    SentOneMore(log, Sent(d.id), id);
    if |One(d, out).log| == 2 {
      SentOneMore(log + [Sent(d.id)], One(d, out).log[1], id);
      assert log + One(d, out).log == log + [Sent(d.id)] + [One(d, out).log[1]];
    }
  }

  lemma DeliverLast(deliveries: seq<Delivery>, outs: seq<ResponseOutput>)
    requires |outs| == |deliveries|
    ensures |deliveries| == 0 ==> Deliver(deliveries, outs).log == []
    ensures |deliveries| > 0 ==>
      var n := |deliveries| - 1;
      Deliver(deliveries, outs).log == Deliver(deliveries[..n], outs[..n]).log + One(deliveries[n], outs[n]).log
  {
  }

  /** Every delivery is sent once, whatever the responses to them do. */
  lemma {:induction false} DeliverSends(deliveries: seq<Delivery>, outs: seq<ResponseOutput>, id: string)
    requires |outs| == |deliveries|
    ensures SentCount(Deliver(deliveries, outs).log, id) == DeliveriesFor(deliveries, id)
  {
    var log := Deliver(deliveries, outs).log;
    DeliverLast(deliveries, outs);
    if |deliveries| > 0 {
      var n := |deliveries| - 1;
      var before := Deliver(deliveries[..n], outs[..n]).log;
      DeliverSends(deliveries[..n], outs[..n], id);
      OneSends(before, deliveries[n], outs[n], id);
    }
  }

  /** The k-th delivery is answered, and the answer finishes a task; e is its completion. */
  ghost predicate FinishesAt(deliveries: seq<Delivery>, outs: seq<ResponseOutput>, k: nat, e: Effect)
    requires |outs| == |deliveries|
  {
    && k < |deliveries| && deliveries[k].answer.Some? && outs[k].Finished?
    && IsCompletion(e, outs[k].parent.task.id, outs[k].parent.command.version, outs[k].results)
  }

  lemma OneCompletes(deliveries: seq<Delivery>, outs: seq<ResponseOutput>, k: nat, e: Effect)
    requires |outs| == |deliveries| && k < |deliveries| && e.Completed?
    ensures e in One(deliveries[k], outs[k]).log <==> FinishesAt(deliveries, outs, k, e)
  {
  }

  /** What is completed on the way is exactly the tasks the responses finish, with their results. */
  lemma {:induction false} DeliverCompletes(deliveries: seq<Delivery>, outs: seq<ResponseOutput>, e: Effect)
    requires |outs| == |deliveries| && e.Completed?
    ensures e in Deliver(deliveries, outs).log <==> exists k: nat :: FinishesAt(deliveries, outs, k, e)
  {
    DeliverLast(deliveries, outs);
    if |deliveries| > 0 {
      var n := |deliveries| - 1;
      var init, initOuts := deliveries[..n], outs[..n];
      DeliverCompletes(init, initOuts, e);
      OneCompletes(deliveries, outs, n, e);
      forall k: nat | k < n ensures FinishesAt(deliveries, outs, k, e) <==> FinishesAt(init, initOuts, k, e) {}
      if k: nat :| FinishesAt(init, initOuts, k, e) { assert FinishesAt(deliveries, outs, k, e); }
      if k: nat :| FinishesAt(deliveries, outs, k, e) && k < n { assert FinishesAt(init, initOuts, k, e); }
    }
  }

  lemma DispatchOneMore(events: seq<Event>, e: Event, id: string)
    ensures DispatchCount(events + [e], id) == DispatchCount(events, id) + if Dispatches(e, id) then 1 else 0
  {
    assert (events + [e])[..|events|] == events;
  }

  /** Messages are sent after their try was recorded: never more of a sub-task than its dispatches. */
  ghost predicate SentAreDispatched(log: seq<Effect>, events: seq<Event>) {
    forall id {:trigger SentCount(log, id)} :: SentCount(log, id) <= DispatchCount(events, id)
  }

  /** Nothing is completed without a result. */
  ghost predicate NoneEmpty(log: seq<Effect>) {
    forall k :: 0 <= k < |log| && log[k].Completed? ==> |Carried(log[k].payload)| > 0
  }

  /** A further step of the run, or a further effect, that keeps both. */
  lemma EventKeeps(log: seq<Effect>, events: seq<Event>, e: Event)
    requires SentAreDispatched(log, events)
    ensures SentAreDispatched(log, events + [e])
  {
    forall id ensures SentCount(log, id) <= DispatchCount(events + [e], id) { DispatchOneMore(events, e, id); }
  }

  lemma EffectKeeps(log: seq<Effect>, events: seq<Event>, effect: Effect)
    requires SentAreDispatched(log, events)
    requires effect.Sent? ==> SentCount(log, effect.id) < DispatchCount(events, effect.id)
    ensures SentAreDispatched(log + [effect], events)
  {
    forall id ensures SentCount(log + [effect], id) <= DispatchCount(events, id) { SentOneMore(log, effect, id); }
  }

  lemma RunGrows(cfg: Config, stores: seq<Store>, events: seq<Event>, e: Event, s': Store)
    requires IsRun(cfg, stores, events) && Step(cfg, stores[|events|], e, s')
    requires e.CommandEvent? ==> forall k :: 0 <= k < |events| && events[k].CommandEvent? ==> events[k].now <= e.now
    ensures IsRun(cfg, stores + [s'], events + [e])
  {
    var stores', events' := stores + [s'], events + [e];
    forall k | 0 <= k < |events'| ensures Step(cfg, stores'[k], events'[k], stores'[k + 1]) {
      if k < |events| { assert stores'[k] == stores[k] && stores'[k + 1] == stores[k + 1] && events'[k] == events[k]; }
    }
  }

  /** Answers a chain of calls for the task can still give: its children without a result, or one more
      than the children of the family the next call will store. */
  function Work(cfg: Config, env: Env, s: Store, command: Command, task: Task): nat {
    if !(cfg.scheduler.Sequential? || cfg.scheduler.RoundRobin?) then 1
    else if task.id in s.meta then |Missing(s.result, s.meta[task.id].children)|
    else
      match SubTasksOf(env.repo, command, task)
      case Err(_) => 0
      case Ok(children) => |children| + 1
  }

  /** The same for a response, once its value is stored. */
  function ResponseWork(cfg: Config, s: Store, id: string, value: Json): nat {
    if (cfg.scheduler.Sequential? || cfg.scheduler.RoundRobin?) && id in s.meta
    then |Missing(WithResult(s, id, value).result, s.meta[id].children)| else 0
  }

  lemma {:induction false} AnswerShrinks(result: map<string, SubResult>, children: seq<Element>, id: string,
                                         r: SubResult)
    ensures |Missing(result[id := r], children)| <= |Missing(result, children)| <= |children|
    ensures id !in result && id in Ids(children) ==> |Missing(result[id := r], children)| < |Missing(result, children)|
  {
    if |children| > 0 {
      AnswerShrinks(result, children[..|children| - 1], id, r);
      assert children == children[..|children| - 1] + [children[|children| - 1]];
    }
  }

  /** A dispatched sub-task leaves less work when its answer comes: the family it answers to is the one
      the call has found or stored, so the chain never stores it again. */
  lemma DispatchShrinks(cfg: Config, env: Env, s: Store, command: Command, task: Task, caller: Caller, now: int,
                        s': Store, out: Output, value: Json)
    requires OneAtATime(cfg) && Agree(s) && '_' !in task.id && Process(cfg, env, s, command, task, caller, now, s', out)
    requires |out.next| > 0
    ensures ResponseWork(cfg, s', out.next[0].metadata.task.id, value) < Work(cfg, env, s, command, task)
  {
    var e := CommandEvent(command, task, caller, now, out);
    var id := out.next[0].metadata.task.id;
    assert Step(cfg, s, e, s');
    StepTries(cfg, s, e, s');
    StepAgrees(cfg, s, e, s');
    DispatchIsOwned(cfg, s, e, s', id);
    SameFamily(s', task.id, id);
    var children := s'.meta[task.id].children;
    AnswerShrinks(s'.result, children, id, SubResult(false, value));
    if task.id in s.meta {
      OwnerOf(task.id, "");
      LifeStep(cfg, s, e, s', task.id);
      MissingIff(s.result, children, out.next[0].metadata);
    } else {
      CreatedIsFound(cfg, env, s, command, task, caller, now, s', out);
    }
  }

  lemma SameFamily(s: Store, taskId: string, id: string)
    requires Agree(s) && taskId in s.meta && id in Ids(s.meta[taskId].children)
    ensures id in s.meta && s.meta[id] == s.meta[taskId]
  {
    assert Family(s, taskId);
    assert id in Members(s.meta[taskId]);
  }

  lemma CreatedIsFound(cfg: Config, env: Env, s: Store, command: Command, task: Task, caller: Caller, now: int,
                       s': Store, out: Output)
    requires Process(cfg, env, s, command, task, caller, now, s', out) && task.id !in s.meta && task.id in s'.meta
    ensures SubTasksOf(env.repo, command, task) == Ok(s'.meta[task.id].children)
  {
    ProcessShape(cfg, env, s, command, task, caller, now, s', out);
    ShapeCreates(cfg, env, s, command, task, caller, now, s', out.completed);
  }

  lemma ShapeCreates(cfg: Config, env: Env, s: Store, command: Command, task: Task, caller: Caller, now: int,
                     s': Store, completed: bool)
    requires Shape(cfg, env, s, command, task, caller, now, s', completed) && task.id !in s.meta && task.id in s'.meta
    ensures SubTasksOf(env.repo, command, task) == Ok(s'.meta[task.id].children)
  {
  }

  /** The parent of a pending response has as much work left as the response. */
  lemma PendingWork(cfg: Config, env: Env, s: Store, id: string, value: Json, s': Store, out: ResponseOutput,
                    command: Command)
    requires OneAtATime(cfg) && Agree(s) && (s', out) == Respond(s, id, value) && out.Pending?
    ensures '_' !in out.parent.task.id && out.parent.task.id in s'.meta
    ensures Work(cfg, env, s', command, out.parent.task) == ResponseWork(cfg, s, id, value)
  {
    RespondEffect(s, id, value, s', out);
    ParentEntry(s, id);
    ParentOwnsItself(s, id);
  }
}
