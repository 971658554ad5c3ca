/** `CmdWorker` of lib/worker.go: calls and responses drive the scheduler, and the answer of an event
    service drives it again from within a call. */
module Worker {
  import opened Values
  import opened Messages
  import opened Storage
  import opened Scheduling
  import SubTasks
  import opened DeviceGroupsObject
  import opened Steps
  import opened Runs
  import opened WorkerSpec
  import opened NoEmptyCompletion
  import opened Decisions

  /** What the surroundings answer, each time they are asked: `tick` counts the questions. One task may be
      read as a command at one time and refused at another, for `setPayloadParameter` leaves both open. */
  datatype World = World(
    env: nat -> Env,
    now: nat -> int,
    hasToken: nat -> bool,
    lastEventValue: nat -> Option<Json>,
    completes: nat -> bool,
    incident: Task -> Option<string>,
    commandRequest: (nat, Task) -> Result<Command>)

  class CmdWorker {
    const world: World
    const optimistic: bool
    const timescale: bool
    const groups: DeviceGroups
    var tick: nat
    var log: seq<Effect>
    /** The run of the scheduler so far. */
    ghost var stores: seq<Store>
    ghost var events: seq<Event>

    ghost predicate Valid()
      reads this, groups.db
    {
      && groups.db.Valid()
      && (forall i: nat, j: nat :: i <= j ==> world.now(i) <= world.now(j))
      && IsRun(groups.cfg, stores, events) && stores[|events|] == groups.db.view
      && (forall k :: 0 <= k < |events| && events[k].CommandEvent? ==> events[k].now <= world.now(tick))
      && (OneAtATime(groups.cfg) ==> SentAreDispatched(log, events))
      && (OneAtATime(groups.cfg) && !optimistic ==> NoneEmpty(log))
      && (optimistic ==> forall k :: 0 <= k < |events| && events[k].CommandEvent? ==> events[k].command.retries == -1)
    }

    constructor (cfg: Config, world: World, optimistic: bool, timescale: bool)
      requires forall i: nat, j: nat :: i <= j ==> world.now(i) <= world.now(j)
      ensures Valid() && events == [] && log == [] && groups.cfg == cfg && fresh(groups) && fresh(groups.db)
      ensures this.world == world && this.optimistic == optimistic && this.timescale == timescale
    {
      var db := new KeyValueStore();
      this.world, this.optimistic, this.timescale := world, optimistic, timescale;
      groups := new DeviceGroups(cfg, db);
      tick, log, stores, events := 0, [], [EMPTY_STORE], [];
    }

    predicate IsSequential() {
      groups.cfg.scheduler.Sequential? || groups.cfg.scheduler.RoundRobin?
    }

    /** Under the optimistic strategy a command is repeated forever. */
    function Effective(command: Command): Command {
      if optimistic then command.(retries := -1) else command
    }

    lemma EffectiveIs(command: Command)
      ensures Effective(command).(retries := command.retries) == command
      ensures Effective(command).retries == if optimistic then -1 else command.retries
    {
    }

    /** The measure of the chain of calls, at this moment. */
    ghost function TaskWork(task: Task): nat
      reads this, groups.db
    {
      var request := world.commandRequest(tick, task);
      if request.Ok? then Work(groups.cfg, world.env(tick + 1), groups.db.view, Effective(request.value), task) else 0
    }

    method Report(effect: Effect)
      requires Valid()
      requires OneAtATime(groups.cfg) && effect.Sent? ==> SentCount(log, effect.id) < DispatchCount(events, effect.id)
      requires OneAtATime(groups.cfg) && !optimistic && effect.Completed? ==> |Carried(effect.payload)| > 0
      modifies this`log
      ensures Valid() && log == old(log) + [effect]
    {
      if OneAtATime(groups.cfg) { EffectKeeps(log, events, effect); }
      log := log + [effect];
    }

    /** `ProcessCommand` as the next step of the run. */
    method ProcessCommand(command: Command, task: Task, caller: Caller) returns (out: Output, now: int)
      requires Valid() && '_' !in task.id && (optimistic ==> command.retries == -1)
      modifies this`tick, this`stores, this`events, groups.db
      ensures Valid()
      ensures Process(groups.cfg, world.env(old(tick)), old(groups.db.view), command, task, caller, now, groups.db.view,
                      out)
      ensures events == old(events) + [CommandEvent(command, task, caller, now, out)] && tick == old(tick) + 1
      ensures stores == old(stores) + [groups.db.view]
    {
      now := world.now(tick);
      ghost var s := groups.db.view;
      out := groups.ProcessCommand(world.env(tick), command, task, caller, now);
      ghost var e := CommandEvent(command, task, caller, now, out);
      assert Step(groups.cfg, s, e, groups.db.view);
      RunGrows(groups.cfg, stores, events, e, groups.db.view);
      if OneAtATime(groups.cfg) { EventKeeps(log, events, e); }
      assert world.now(tick) <= world.now(tick + 1);
      stores, events, tick := stores + [groups.db.view], events + [e], tick + 1;
    }

    /** `ProcessResponse` as the next step of the run. */
    method ProcessResponse(id: string, value: Json) returns (out: ResponseOutput)
      requires Valid()
      modifies this`stores, this`events, groups.db
      ensures Valid() && (groups.db.view, out) == Respond(old(groups.db.view), id, value)
      ensures events == old(events) + [ResponseEvent(id, value, out)] && stores == old(stores) + [groups.db.view]
    {
      ghost var s := groups.db.view;
      out := groups.ProcessResponse(id, value);
      ghost var e := ResponseEvent(id, value, out);
      assert Step(groups.cfg, s, e, groups.db.view);
      RunGrows(groups.cfg, stores, events, e, groups.db.view);
      if OneAtATime(groups.cfg) { EventKeeps(log, events, e); }
      stores, events := stores + [groups.db.view], events + [e];
    }

    /** Whatever else happens, the run and the effects only grow. */
    twostate predicate Grown()
      reads this
    {
      old(events) <= events && old(stores) <= stores && old(log) <= log && old(tick) <= tick
    }

    /** The task is refused with one failure; or the next event is the call for it, and all that this call
        leads to follows. The predicates below say what, down to the end of the chain: log0 and the first k
        events, or events0, are what was there before, log1 and events1 what is there after. */
    ghost predicate Starts(t: nat, task: Task, caller: Caller, log0: seq<Effect>, k: nat, log1: seq<Effect>,
                           events1: seq<Event>)
      decreases |events1| - k, 5
    {
      if world.incident(task).Some? || world.commandRequest(t, task).Err? then
        |events1| == k && log1 == log0 + [Failed(task.id, FailureOf(task))]
      else
        var command := world.commandRequest(t, task).value;
        && |events1| > k && IsCallFor(events1[k], Effective(command), task, caller)
        && Performs(t + 1, command, task, log0, k, log1, events1)
    }

    method ExecuteTask(task: Task, caller: Caller)
      requires Valid() && '_' !in task.id
      modifies this, groups.db
      ensures Valid() && Grown()
      ensures Starts(old(tick), task, caller, old(log), |old(events)|, log, events)
      decreases TaskWork(task), 5
    {
      var incident := world.incident(task);
      if incident.Some? {
        Report(Failed(task.id, FailureOf(task)));
        return;
      }
      var request := GetCommandRequest(task);
      if request.Err? {
        Report(Failed(task.id, FailureOf(task)));
        return;
      }
      ExecuteCommand(request.value, task, caller);
    }

    method GetCommandRequest(task: Task) returns (request: Result<Command>)
      requires Valid()
      modifies this`tick
      ensures Valid() && tick == old(tick) + 1 && request == world.commandRequest(old(tick), task)
    {
      request := world.commandRequest(tick, task);
      assert world.now(tick) <= world.now(tick + 1);
      tick := tick + 1;
    }

    function FailureOf(task: Task): string {
      if world.incident(task).Some? then "user triggered incident: " + world.incident(task).value
      else "invalid task format (json)"
    }

    predicate IsCallFor(e: Event, command: Command, task: Task, caller: Caller) {
      e.CommandEvent? && e.command == command && e.task == task && e.caller == caller
    }

    method ExecuteCommand(command: Command, task: Task, caller: Caller)
      requires Valid() && '_' !in task.id
      modifies this, groups.db
      ensures Valid() && Grown()
      ensures |events| > |old(events)| && IsCallFor(events[|old(events)|], Effective(command), task, caller)
      ensures Performs(old(tick), command, task, old(log), |old(events)|, log, events)
      decreases Work(groups.cfg, world.env(tick), groups.db.view, Effective(command), task), 4
    {
      ghost var work := Work(groups.cfg, world.env(tick), groups.db.view, Effective(command), task);
      var out := Call(Effective(command), task, caller);
      ghost var called := events;
      Finish(command, task, out, work);
      assert events[..|called|] == called;
    }

    /** After the call at k Camunda is told its conclusion, and its messages are sent. */
    ghost predicate Performs(t: nat, command: Command, task: Task, log0: seq<Effect>, k: nat, log1: seq<Effect>,
                             events1: seq<Event>)
      decreases |events1| - k, 4
    {
      && |events1| > k && events1[k].CommandEvent?
      && Follows(t + 1, command, task, events1[k].out, log0, events1[..k + 1], log1, events1)
    }

    /** Camunda is told the conclusion of a call; then its messages are sent, unless it has ended the task. */
    ghost predicate Follows(t: nat, command: Command, task: Task, out: Output, log0: seq<Effect>, events0: seq<Event>,
                            log1: seq<Effect>, events1: seq<Event>)
      decreases |events1| - |events0|, 3
    {
      if Goes(t, out)
      then
        Sends(if optimistic then t + 1 else t, out.next, log0 + Conclusion(command, task, out), events0, log1, events1)
      else log1 == log0 + Conclusion(command, task, out) && events1 == events0
    }

    /** What `ExecuteCommand` does after the call. */
    method Finish(command: Command, task: Task, out: Output, ghost work: nat)
      requires Valid() && MaySendAll(out.next, work)
      requires OneAtATime(groups.cfg) ==> out.setRetry.None?
      requires OneAtATime(groups.cfg) && out.completed && out.error.None? ==> |out.results| > 0
      modifies this, groups.db
      ensures Valid() && Grown()
      ensures Follows(old(tick), command, task, out, old(log), old(events), log, events)
      decreases work, 3
    {
      ghost var t, log0, events0 := tick, log, events;
      var go := Conclude(command, task, out, work);
      ghost var t1, concluded := tick, log;
      if go { SendMessages(out.next, work); }
      Followed(t, t1, command, task, out, log0, concluded, events0, log, events);
    }

    lemma Followed(t: nat, t1: nat, command: Command, task: Task, out: Output, log0: seq<Effect>,
                   concluded: seq<Effect>, events0: seq<Event>, log1: seq<Effect>, events1: seq<Event>)
      requires concluded == log0 + Conclusion(command, task, out)
      requires if Goes(t, out)
               then t1 == (if optimistic then t + 1 else t) && Sends(t1, out.next, concluded, events0, log1, events1)
               else log1 == concluded && events1 == events0
      ensures Follows(t, command, task, out, log0, events0, log1, events1)
    {
    }

    /** After a call without an error that has not completed its task, or has done so ahead of time, the
        messages are sent. */
    predicate Goes(t: nat, out: Output) {
      out.error.None? && if optimistic then world.completes(t) else !out.completed
    }

    /** Effects on Camunda of a call, before its messages. */
    function Conclusion(command: Command, task: Task, out: Output): seq<Effect> {
      (if out.setRetry.Some? then [RetrySet(task.id, out.setRetry.value)] else [])
      + if out.error.Some? then [Failed(task.id, out.error.value)]
        else if optimistic || out.completed then [Completed(task.id, Versioned(command.version, out.results))]
        else []
    }

    /** The conclusion in full: the reported retries, if there are any, and then the error, or the completion with
        the results as the version of the command reads them, or nothing. */
    lemma ConclusionIs(command: Command, task: Task, out: Output)
      ensures var c := Conclusion(command, task, out);
              var retries := if out.setRetry.Some? then [RetrySet(task.id, out.setRetry.value)] else [];
              && retries <= c
              && (out.error.Some? ==> c == retries + [Failed(task.id, out.error.value)])
              && (out.error.None? && (optimistic || out.completed) ==>
                   |c| == |retries| + 1 && IsCompletion(c[|retries|], task.id, command.version, out.results))
              && (out.error.None? && !optimistic && !out.completed ==> c == retries)
    {
      VersionedIs(command.version, out.results);
    }

    /** What a call tells Camunda, and whether its messages are still to be sent. */
    method Conclude(command: Command, task: Task, out: Output, ghost work: nat) returns (go: bool)
      requires Valid()
      requires OneAtATime(groups.cfg) ==> out.setRetry.None?
      requires OneAtATime(groups.cfg) && out.completed && out.error.None? ==> |out.results| > 0
      modifies this`tick, this`log
      ensures Valid() && log == old(log) + Conclusion(command, task, out) && go == Goes(old(tick), out)
      ensures tick == old(tick) + if out.error.None? && (optimistic || out.completed) then 1 else 0
      ensures old(MaySendAll(out.next, work)) ==> MaySendAll(out.next, work)
    {
      ghost var start := log;
      if out.setRetry.Some? {
        Report(RetrySet(task.id, out.setRetry.value));
      }
      if out.error.Some? {
        Report(Failed(task.id, out.error.value));
        NotSent(start, Failed(task.id, out.error.value));
        return false;
      }
      if optimistic || out.completed {
        VersionedCarries(command.version, out.results);
        Report(Completed(task.id, Versioned(command.version, out.results)));
        NotSent(start, Completed(task.id, Versioned(command.version, out.results)));
        go := Complete();
        go := go && optimistic;
      } else {
        go := true;
      }
    }

    lemma NotSent(log: seq<Effect>, effect: Effect)
      requires !effect.Sent?
      ensures forall id {:trigger SentCount(log + [effect], id)} :: SentCount(log + [effect], id) == SentCount(log, id)
    {
      forall id ensures SentCount(log + [effect], id) == SentCount(log, id) { SentOneMore(log, effect, id); }
    }

    /** Whether Camunda accepts the completion. */
    method Complete() returns (done: bool)
      requires Valid()
      modifies this`tick
      ensures Valid() && tick == old(tick) + 1 && done == world.completes(old(tick))
    {
      done := world.completes(tick);
      assert world.now(tick) <= world.now(tick + 1);
      tick := tick + 1;
    }

    /** `ProcessCommand`, with what the worker may rely on next. */
    method Call(command: Command, task: Task, caller: Caller) returns (out: Output)
      requires Valid() && '_' !in task.id && (optimistic ==> command.retries == -1)
      modifies this`tick, this`stores, this`events, groups.db
      ensures Valid() && tick == old(tick) + 1
      ensures |events| == |old(events)| + 1 && old(events) <= events && stores == old(stores) + [groups.db.view]
      ensures IsCallFor(events[|old(events)|], command, task, caller) && events[|old(events)|].out == out
      ensures OneAtATime(groups.cfg) ==> out.setRetry.None?
      ensures OneAtATime(groups.cfg) && out.completed && out.error.None? ==> |out.results| > 0
      ensures MaySendAll(out.next, old(Work(groups.cfg, world.env(tick), groups.db.view, command, task)))
    {
      ghost var s, before, env := groups.db.view, events, world.env(tick);
      RunAgrees();
      SentSoFar();
      var now;
      out, now := ProcessCommand(command, task, caller);
      if OneAtATime(groups.cfg) {
        CallFacts(groups.cfg, env, s, before, command, task, caller, now, groups.db.view, out);
        EndsWithResults(groups.cfg, stores, events, |before|);
      }
    }

    /** The token and the last value of an event service. */
    method GetLastEventValue() returns (hasToken: bool, answer: Option<Json>)
      requires Valid()
      modifies this`tick
      ensures Valid() && tick == old(tick) + 1
      ensures hasToken == world.hasToken(old(tick)) && answer == world.lastEventValue(old(tick))
    {
      hasToken, answer := world.hasToken(tick), world.lastEventValue(tick);
      assert world.now(tick) <= world.now(tick + 1);
      tick := tick + 1;
    }

    /** Whether the event store is asked for the message. */
    function Question(message: RequestInfo): nat {
      if message.kind.Event? && timescale then 1 else 0
    }

    function Questions(next: seq<RequestInfo>): nat {
      if |next| == 0 then 0 else Questions(next[..|next| - 1]) + Question(next[|next| - 1])
    }

    /** The message goes out: a request always, an event if there is a token for its tenant. */
    function OneDelivery(message: RequestInfo, t: nat): seq<Delivery> {
      if message.kind.Request? then [Delivery(message.metadata.task.id, None)]
      else if timescale && world.hasToken(t) then [Delivery(message.metadata.task.id, world.lastEventValue(t))]
      else []
    }

    /** The messages that go out, when the first question is number t. */
    function Deliveries(next: seq<RequestInfo>, t: nat): seq<Delivery> {
      if |next| == 0 then []
      else
        var n := |next| - 1;
        Deliveries(next[..n], t) + OneDelivery(next[n], t + Questions(next[..n]))
    }

    /** The message goes out, as this delivery: a request without an answer; an event only with an event store
        and a token, and with the answer to its own question, the first of those for the messages before it. */
    ghost predicate GoesOut(message: RequestInfo, question: nat, d: Delivery) {
      && d.id == message.metadata.task.id
      && if message.kind.Request? then d.answer.None?
         else timescale && world.hasToken(question) && d.answer == world.lastEventValue(question)
    }

    ghost predicate GoesOutAt(next: seq<RequestInfo>, t: nat, k: nat, d: Delivery) {
      k < |next| && GoesOut(next[k], t + Questions(next[..k]), d)
    }

    lemma OneDeliveryIs(message: RequestInfo, question: nat, d: Delivery)
      ensures d in OneDelivery(message, question) <==> GoesOut(message, question, d)
    {
    }

    /** What goes out is exactly what some message goes out as. */
    lemma {:induction false} DeliveriesAre(next: seq<RequestInfo>, t: nat, d: Delivery)
      ensures d in Deliveries(next, t) <==> exists k: nat :: GoesOutAt(next, t, k, d)
    {
      if |next| > 0 {
        var n := |next| - 1;
        DeliveriesAre(next[..n], t, d);
        OneDeliveryIs(next[n], t + Questions(next[..n]), d);
        forall k: nat
          ensures GoesOutAt(next, t, k, d)
             <==> GoesOutAt(next[..n], t, k, d) || (k == n && GoesOut(next[n], t + Questions(next[..n]), d))
        {
          if k < n { assert next[..n][..k] == next[..k]; }
        }
        assert Deliveries(next, t) == Deliveries(next[..n], t) + OneDelivery(next[n], t + Questions(next[..n]));
        assert GoesOut(next[n], t + Questions(next[..n]), d) ==> GoesOutAt(next, t, n, d);
        if k: nat :| GoesOutAt(next[..n], t, k, d) { assert GoesOutAt(next, t, k, d); }
      }
    }

    ghost predicate LeavesAt(next: seq<RequestInfo>, t: nat, k: nat) {
      exists d :: GoesOutAt(next, t, k, d)
    }

    /** How many of the first k messages go out. */
    ghost function OutBefore(next: seq<RequestInfo>, t: nat, k: nat): nat {
      if k == 0 then 0 else OutBefore(next, t, k - 1) + if LeavesAt(next, t, k - 1) then 1 else 0
    }

    lemma OneDeliveryCounts(next: seq<RequestInfo>, t: nat, k: nat)
      requires k < |next|
      ensures |OneDelivery(next[k], t + Questions(next[..k]))| == if LeavesAt(next, t, k) then 1 else 0
    {
      var one := OneDelivery(next[k], t + Questions(next[..k]));
      if |one| > 0 { assert GoesOutAt(next, t, k, one[0]); }
    }

    lemma {:induction false} OutBeforeCounts(next: seq<RequestInfo>, t: nat, k: nat)
      requires k <= |next|
      ensures |Deliveries(next[..k], t)| == OutBefore(next, t, k)
    {
      if k > 0 {
        OutBeforeCounts(next, t, k - 1);
        OneMoreDelivery(next, k - 1, t);
        OneDeliveryCounts(next, t, k - 1);
      }
    }

    lemma {:induction false} DeliveriesGrow(next: seq<RequestInfo>, t: nat, k: nat, n: nat)
      requires k <= n <= |next|
      ensures Deliveries(next[..k], t) <= Deliveries(next[..n], t)
    {
      if k < n {
        DeliveriesGrow(next, t, k, n - 1);
        OneMoreDelivery(next, n - 1, t);
      }
    }

    /** Each message that goes out does so once, after exactly those before it that go out. */
    lemma DeliveriesInOrder(next: seq<RequestInfo>, t: nat, k: nat, d: Delivery)
      requires GoesOutAt(next, t, k, d)
      ensures |Deliveries(next, t)| == OutBefore(next, t, |next|)
      ensures OutBefore(next, t, k) < |Deliveries(next, t)| && Deliveries(next, t)[OutBefore(next, t, k)] == d
    {
      assert next[..|next|] == next;
      OutBeforeCounts(next, t, |next|);
      OutBeforeCounts(next, t, k);
      DeliveriesGrow(next, t, k + 1, |next|);
      OneMoreDelivery(next, k, t);
      OneDeliveryIs(next[k], t + Questions(next[..k]), d);
    }

    /** A response is the next event; it finishes its task, or runs the parent again, or does nothing. */
    ghost predicate Reacts(t: nat, id: string, value: Json, log0: seq<Effect>, events0: seq<Event>,
                           log1: seq<Effect>, events1: seq<Event>)
      decreases |events1| - |events0|, 0
    {
      && |events1| > |events0| && events1[..|events0|] == events0
      && var e := events1[|events0|];
      && e.ResponseEvent? && e.id == id && e.value == value
      && if e.response.Pending? && OneAtATime(groups.cfg)
         then Starts(t, e.response.parent.task, Response, log0, |events0| + 1, log1, events1)
         else |events1| == |events0| + 1 && log1 == log0 + Finishing(e.response)
    }

    /** The message is sent, and an answer that comes at once is a response. */
    ghost predicate DeliversOne(t: nat, d: Delivery, log0: seq<Effect>, events0: seq<Event>,
                                log1: seq<Effect>, events1: seq<Event>)
      decreases |events1| - |events0|, 1
    {
      if d.answer.None? then log1 == log0 + [Sent(d.id)] && events1 == events0
      else Reacts(t, d.id, d.answer.value, log0 + [Sent(d.id)], events0, log1, events1)
    }

    /** All messages are delivered; where responses start calls there is at most one. */
    ghost predicate Sends(t: nat, next: seq<RequestInfo>, log0: seq<Effect>, events0: seq<Event>,
                          log1: seq<Effect>, events1: seq<Event>)
      decreases |events1| - |events0|, 2
    {
      var deliveries := Deliveries(next, t);
      if !OneAtATime(groups.cfg) then
        exists outs :: DeliversAll(Delivered(events0, log0), deliveries, outs, Delivered(events1, log1))
      else if |deliveries| == 0 then log1 == log0 && events1 == events0
      else DeliversOne(t + Questions(next), deliveries[0], log0, events0, log1, events1)
    }

    /** The try of the message is recorded, and its answer leaves less than this work. */
    ghost predicate MaySend(id: string, work: nat)
      reads this, groups.db
    {
      if OneAtATime(groups.cfg) then
        && SentCount(log, id) < DispatchCount(events, id)
        && forall v :: ResponseWork(groups.cfg, groups.db.view, id, v) < work
      else 0 < work
    }

    /** At most one message, if responses start calls. */
    ghost predicate MaySendAll(next: seq<RequestInfo>, work: nat)
      reads this, groups.db
    {
      if OneAtATime(groups.cfg) then |next| == 0 || (|next| == 1 && MaySend(next[0].metadata.task.id, work))
      else 0 < work
    }

    /** Send one message and handle the answer that comes at once. */
    method DeliverMessage(id: string, answer: Option<Json>, ghost work: nat) returns (ghost out: ResponseOutput)
      requires Valid() && MaySend(id, work)
      modifies this, groups.db
      ensures Valid() && Grown()
      ensures DeliversOne(old(tick), Delivery(id, answer), old(log), old(events), log, events)
      ensures !OneAtATime(groups.cfg) ==>
        && tick == old(tick)
        && Delivered(events, log) == Then(Delivered(old(events), old(log)), One(Delivery(id, answer), out))
      decreases work, 0
    {
      out := NotFound;
      Report(Sent(id));
      if answer.Some? {
        assert ResponseWork(groups.cfg, groups.db.view, id, answer.value) < work;
        HandleTaskResponse(id, answer.value);
        out := events[|old(events)|].response;
        if !OneAtATime(groups.cfg) { assert events == old(events) + [ResponseEvent(id, answer.value, out)]; }
      }
    }

    /** The message has been delivered, if it goes out. `outs` is the outcome of its response. */
    ghost predicate SentOne(message: RequestInfo, t: nat, before: Delivered, outs: seq<ResponseOutput>, t': nat,
                            after: Delivered) {
      var one := OneDelivery(message, t);
      && (!OneAtATime(groups.cfg) ==> t' == t + Question(message))
      && if |one| == 0 then outs == [] && after == before
         else
           && |outs| == 1
           && DeliversOne(t + Question(message), one[0], before.log, before.events, after.log, after.events)
           && (!OneAtATime(groups.cfg) ==> after == Then(before, One(one[0], outs[0])))
    }

    /** One message of a call. */
    method SendMessage(message: RequestInfo, ghost work: nat) returns (ghost outs: seq<ResponseOutput>)
      requires Valid() && MaySend(message.metadata.task.id, work)
      modifies this, groups.db
      ensures Valid() && Grown()
      ensures SentOne(message, old(tick), Delivered(old(events), old(log)), outs, tick, Delivered(events, log))
      decreases work, 1
    {
      var id := message.metadata.task.id;
      outs := [];
      if message.kind.Request? {
        ghost var out := DeliverMessage(id, None, work);
        outs := [out];
      } else if timescale {
        var hasToken, answer := GetLastEventValue();
        if hasToken {
          ghost var out := DeliverMessage(id, answer, work);
          outs := [out];
        }
      }
    }

    /** The messages of one call. `work` bounds the chain of calls their answers start. */
    method SendMessages(next: seq<RequestInfo>, ghost work: nat)
      requires Valid() && MaySendAll(next, work)
      modifies this, groups.db
      ensures Valid() && Grown()
      ensures Sends(old(tick), next, old(log), old(events), log, events)
      decreases work, 2
    {
      ghost var t, outs: seq<ResponseOutput> := tick, [];
      ghost var start := Delivered(events, log);
      NoMessages(next, t, start);
      for k := 0 to |next|
        invariant Valid() && Grown()
        invariant OneAtATime(groups.cfg) && k < |next| ==> MaySend(next[0].metadata.task.id, work)
        invariant SentSome(next, k, t, start, outs, tick, Delivered(events, log))
      {
        ghost var tick0, before := tick, Delivered(events, log);
        ghost var more := SendMessage(next[k], work);
        MoreMessages(next, k, t, start, outs, tick0, before, more, tick, Delivered(events, log));
        outs := outs + more;
      }
      AllMessages(next, t, start, outs, tick, Delivered(events, log));
    }

    /** The first k messages have been delivered. */
    ghost predicate SentSome(next: seq<RequestInfo>, k: nat, t: nat, start: Delivered, outs: seq<ResponseOutput>,
                             t': nat, end: Delivered) {
      if OneAtATime(groups.cfg) then
        if k == 0 then t' == t && end == start else Sends(t, next, start.log, start.events, end.log, end.events)
      else SentAll(next, k, t, start, outs, t', end)
    }

    ghost predicate SentAll(next: seq<RequestInfo>, k: nat, t: nat, start: Delivered, outs: seq<ResponseOutput>,
                            t': nat, end: Delivered) {
      k <= |next| && t' == t + Questions(next[..k]) && DeliversAll(start, Deliveries(next[..k], t), outs, end)
    }

    lemma {:induction false} NoMessages(next: seq<RequestInfo>, t: nat, start: Delivered)
      ensures SentSome(next, 0, t, start, [], t, start)
      ensures |next| == 0 ==> Questions(next) == 0 && Deliveries(next, t) == []
    {
      assert next[..0] == [] && Deliveries([], t) == [] && Questions([]) == 0;
      assert Then(start, Delivered([], [])) == start;
    }

    lemma {:induction false} AllMessages(next: seq<RequestInfo>, t: nat, start: Delivered, outs: seq<ResponseOutput>,
                                         t': nat, end: Delivered)
      requires SentSome(next, |next|, t, start, outs, t', end)
      ensures Sends(t, next, start.log, start.events, end.log, end.events)
    {
      assert next[..|next|] == next;
      NoMessages(next, t, start);
    }

    lemma {:induction false} MoreMessages(next: seq<RequestInfo>, k: nat, t: nat, start: Delivered,
                                          outs: seq<ResponseOutput>, tick0: nat, before: Delivered,
                                          more: seq<ResponseOutput>, tick1: nat, after: Delivered)
      requires k < |next| && (OneAtATime(groups.cfg) ==> |next| == 1)
      requires SentSome(next, k, t, start, outs, tick0, before) && SentOne(next[k], tick0, before, more, tick1, after)
      ensures SentSome(next, k + 1, t, start, outs + more, tick1, after)
    {
      if OneAtATime(groups.cfg) {
        OnlyMessage(next, t, before.log, before.events, after.log, after.events);
      } else {
        NextMessage(next, k, t, start, outs, tick0, before, more, tick1, after);
      }
    }

    lemma {:induction false} OnlyMessage(next: seq<RequestInfo>, t: nat, log0: seq<Effect>, events0: seq<Event>,
                                         log1: seq<Effect>, events1: seq<Event>)
      requires OneAtATime(groups.cfg) && |next| == 1
      requires var deliveries := OneDelivery(next[0], t);
               if |deliveries| == 0 then log1 == log0 && events1 == events0
               else DeliversOne(t + Question(next[0]), deliveries[0], log0, events0, log1, events1)
      ensures Sends(t, next, log0, events0, log1, events1)
    {
      assert next[..0] == [] && Questions([]) == 0 && Deliveries([], t) == [];
      assert Deliveries(next, t) == OneDelivery(next[0], t) && Questions(next) == Question(next[0]);
    }

    lemma {:induction false} NextMessage(next: seq<RequestInfo>, k: nat, t: nat, start: Delivered,
                                         outs: seq<ResponseOutput>, tick0: nat, before: Delivered,
                                         more: seq<ResponseOutput>, tick1: nat, after: Delivered)
      requires k < |next|
      requires SentAll(next, k, t, start, outs, tick0, before) && tick1 == tick0 + Question(next[k])
      requires var one := OneDelivery(next[k], tick0);
               if |one| == 0 then more == [] && after == before
               else |more| == 1 && after == Then(before, One(one[0], more[0]))
      ensures SentAll(next, k + 1, t, start, outs + more, tick1, after)
    {
      OneMoreDelivery(next, k, t);
      var deliveries, one := Deliveries(next[..k], t), OneDelivery(next[k], tick0);
      DeliverMaybe(start, deliveries, outs, one, before, more, after);
    }

    lemma {:induction false} OneMoreDelivery(next: seq<RequestInfo>, k: nat, t: nat)
      requires k < |next|
      ensures Questions(next[..k + 1]) == Questions(next[..k]) + Question(next[k])
      ensures Deliveries(next[..k + 1], t) == Deliveries(next[..k], t) + OneDelivery(next[k], t + Questions(next[..k]))
    {
      assert next[..k + 1][..k] == next[..k];
    }

    lemma SentSoFar()
      requires Valid()
      ensures OneAtATime(groups.cfg) ==>
        forall id {:trigger SentCount(log, id)} :: SentCount(log, id) <= DispatchCount(events, id)
    {
    }

    /** What a call of SEQUENTIAL or ROUND_ROBIN lets the worker do next. */
    lemma CallFacts(cfg: Config, env: Env, s: Store, before: seq<Event>, command: Command, task: Task, caller: Caller,
                    now: int, s': Store, out: Output)
      requires OneAtATime(cfg) && Agree(s) && '_' !in task.id
      requires Process(cfg, env, s, command, task, caller, now, s', out)
      ensures |out.next| <= 1 && out.setRetry.None?
      ensures |out.next| == 1 ==>
        var id := out.next[0].metadata.task.id;
        && DispatchCount(before + [CommandEvent(command, task, caller, now, out)], id) == DispatchCount(before, id) + 1
        && forall v :: ResponseWork(cfg, s', id, v) < Work(cfg, env, s, command, task)
    {
      ProcessIsCalled(cfg, env, s, command, task, caller, now, s', out);
      CalledDispatches(cfg, env, s, command, task, caller, now, s', out);
      if |out.next| == 1 {
        var id := out.next[0].metadata.task.id;
        DispatchOneMore(before, CommandEvent(command, task, caller, now, out), id);
        forall v ensures ResponseWork(cfg, s', id, v) < Work(cfg, env, s, command, task) {
          DispatchShrinks(cfg, env, s, command, task, caller, now, s', out, v);
        }
      }
    }

    lemma RunAgrees()
      requires Valid()
      ensures Agree(groups.db.view)
    {
      AgreementHolds(groups.cfg, stores, events, |events|);
    }

    /** The same told from the store before: with every child answered the task is completed, with one result
        a child; an unknown or, where responses start no calls, unfinished one changes nothing else; else the
        parent is called again. */
    ghost predicate Reports(t: nat, s: Store, id: string, log0: seq<Effect>, events0: seq<Event>, log1: seq<Effect>,
                            events1: seq<Event>) {
      if id in s.meta && AllAnswered(s, id) then
        var m := s.meta[id];
        && |events1| == |events0| + 1 && events1[|events0|].ResponseEvent? && events1[|events0|].response.Finished?
        && var results := events1[|events0|].response.results;
        && |results| == |m.children|
        && |log1| == |log0| + 1 && log1[..|log0|] == log0
        && IsCompletion(log1[|log0|], m.parent.task.id, m.parent.command.version, results)
      else if id in s.meta && OneAtATime(groups.cfg) then
        Starts(t, s.meta[id].parent.task, Response, log0, |events0| + 1, log1, events1)
      else |events1| == |events0| + 1 && log1 == log0
    }

    lemma ReactionReports(t: nat, s: Store, id: string, value: Json, out: ResponseOutput, log0: seq<Effect>,
                          events0: seq<Event>, log1: seq<Effect>, events1: seq<Event>)
      requires out == Respond(s, id, value).1 && (out.Finished? ==> |out.results| == |s.meta[id].children|)
      requires Reacts(t, id, value, log0, events0, log1, events1) && events1[|events0|].response == out
      ensures Reports(t, s, id, log0, events0, log1, events1)
    {
      RespondFinishesIff(s, id, value);
      if out.Finished? {
        VersionedIs(out.parent.command.version, out.results);
        assert Finishing(out) == [Completed(out.parent.task.id, Versioned(out.parent.command.version, out.results))];
      }
    }

    method HandleTaskResponse(id: string, output: Json)
      requires Valid()
      modifies this, groups.db
      ensures Valid() && Grown()
      ensures Reacts(old(tick), id, output, old(log), old(events), log, events)
      ensures Reports(old(tick), old(groups.db.view), id, old(log), old(events), log, events)
      ensures events[|old(events)|] == ResponseEvent(id, output, Respond(old(groups.db.view), id, output).1)
      ensures !OneAtATime(groups.cfg) ==> tick == old(tick)
      decreases ResponseWork(groups.cfg, groups.db.view, id, output), 6
    {
      ghost var s, log0, events0, t := groups.db.view, log, events, tick;
      var out := Answer(id, output);
      if out.Finished? {
        VersionedCarries(out.parent.command.version, out.results);
        Report(Completed(out.parent.task.id, Versioned(out.parent.command.version, out.results)));
      } else if out.Pending? && IsSequential() {
        ghost var answered := events;
        ExecuteTask(out.parent.task, Response);
        assert answered <= events;
      }
      ReactionReports(t, s, id, output, out, log0, events0, log, events);
    }

    /** `ProcessResponse`, with what the worker may rely on next. */
    method Answer(id: string, value: Json) returns (out: ResponseOutput)
      requires Valid()
      modifies this`stores, this`events, groups.db
      ensures Valid() && old(stores) <= stores && events == old(events) + [ResponseEvent(id, value, out)]
      ensures (groups.db.view, out) == Respond(old(groups.db.view), id, value)
      ensures out.Finished? ==>
        id in old(groups.db.view).meta && |out.results| == |old(groups.db.view).meta[id].children|
      ensures OneAtATime(groups.cfg) && out.Finished? ==> |out.results| > 0
      ensures OneAtATime(groups.cfg) && out.Pending? ==>
        && '_' !in out.parent.task.id
        && TaskWork(out.parent.task) <= old(ResponseWork(groups.cfg, groups.db.view, id, value))
    {
      ghost var s, before := groups.db.view, events;
      RunAgrees();
      out := ProcessResponse(id, value);
      if out.Finished? { FinishedCarriesEveryChild(groups.cfg, stores, events, |before|); }
      if OneAtATime(groups.cfg) {
        if out.Finished? { EndsWithResults(groups.cfg, stores, events, |before|); }
        if out.Pending? {
          var request := world.commandRequest(tick, out.parent.task);
          PendingWork(groups.cfg, world.env(tick + 1), s, id, value, groups.db.view, out,
                      if request.Ok? then Effective(request.value) else out.parent.command);
        }
      }
    }
  }

  /** Under the optimistic strategy no call of SEQUENTIAL or ROUND_ROBIN gives up a task that has an open
      sub-task, however often that was sent. */
  lemma OptimisticNeverGivesUp(w: CmdWorker, n: nat, env: Env)
    requires w.Valid() && w.optimistic && CallAt(w.groups.cfg, w.stores, w.events, n, env)
    requires !IgnoredAt(w.groups.cfg, w.stores, w.events, n)
    requires !CannotCall(env, w.stores[n], w.events[n].command, w.events[n].task)
    ensures w.events[n].out.completed <==> !exists x :: OpenAt(w.stores, w.events, n, env, x)
  {
    GivesUpIff(w.groups.cfg, w.stores, w.events, n, env);
  }

  /** With R retries the worker never sends more than R + 1 messages for a sub-task, whatever responses,
      deliveries and event values it gets. */
  lemma SentBound(w: CmdWorker, id: string, retries: nat)
    requires w.Valid() && OneAtATime(w.groups.cfg) && BoundedRetries(w.events, SubTasks.Owner(id), retries)
    ensures SentCount(w.log, id) <= retries + 1
  {
    DispatchBound(w.groups.cfg, w.stores, w.events, id, retries);
    assert SentCount(w.log, id) <= DispatchCount(w.events, id);
  }
}
