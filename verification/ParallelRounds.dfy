/** PARALLEL keeps its retry count in Camunda: every round reports `task.Retries + 1`, and Camunda
    hands the last reported value back with the next delivery. */
module ParallelRounds {
  import opened Values
  import opened Messages
  import opened Storage
  import opened SubTasks
  import opened Scheduling
  import opened Steps
  import opened Runs

  function Metadatas(requests: seq<RequestInfo>): seq<Element> {
    seq(|requests|, k requires 0 <= k < |requests| => requests[k].metadata)
  }

  /** The results a call finds. */
  function KnownResults(s: Store, taskId: string): seq<Json> {
    if taskId in s.meta then Results(s.result, s.meta[taskId].children) else []
  }

  /** A call of PARALLEL that opened its sub-tasks and made their messages: with rounds left it sends
      them all and counts the round, without it sends none and gives the task up. */
  ghost predicate Round(cfg: Config, s: Store, taskId: string, counter: int, retries: int, s1: Store, s': Store,
                        out: Output) {
    && s1 == s.(meta := s1.meta) && taskId in s1.meta && (taskId in s.meta ==> s1 == s)
    && s' == (if out.completed then ClearTask(s1, taskId) else s1)
    && out.results == KnownResults(s, taskId)
    && if retries != -1 && retries < counter then
         && out.completed && out.next == [] && out.setRetry.None?
         && (out.error.Some? <==> |out.results| == 0)
       else
         && Metadatas(out.next) == Candidates(s, s1, taskId) && out.setRetry == Some(counter + 1)
         && (out.completed <==> |out.next| == 0) && out.error.None?
  }

  /** The call reports an error and sends nothing. */
  predicate Fails(out: Output) {
    out.error.Some? && out.next == [] && out.setRetry.None? && !out.completed
  }

  lemma AllAtOnceIsRound(cfg: Config, s: Store, s1: Store, requests: seq<RequestInfo>, results: seq<Json>, task: Task,
                         retries: int, s': Store, out: Output)
    requires s1 == s.(meta := s1.meta) && task.id in s1.meta && (task.id in s.meta ==> s1 == s)
    requires Metadatas(requests) == Candidates(s, s1, task.id)
    requires (s', out) == AllAtOnce(s1, requests, results, task, retries) && results == KnownResults(s, task.id)
    ensures Round(cfg, s, task.id, task.retries, retries, s1, s', out)
  {
  }

  lemma ProcessIsRound(cfg: Config, env: Env, s: Store, command: Command, task: Task, now: int, s': Store, out: Output)
    requires cfg.scheduler.Parallel? && Process(cfg, env, s, command, task, CamundaLoop, now, s', out)
    ensures Fails(out)
      || Round(cfg, s, task.id, task.retries, command.retries, OpenSubTasks(env, s, command, task).0, s', out)
  {
    var (s1, open) := OpenSubTasks(env, s, command, task);
    OpenedCandidates(env, s, command, task);
    if open.Ok? && Requests(env, open.value.missing).Ok? {
      RequestsCover(env, open.value.missing);
      assert Metadatas(Requests(env, open.value.missing).value) == open.value.missing;
      AllAtOnceIsRound(cfg, s, s1, Requests(env, open.value.missing).value, open.value.results, task, command.retries,
                       s', out);
    }
  }

  /** The retry value Camunda holds for a task: the last one reported, at first 0. */
  function Counter(events: seq<Event>, taskId: string): int {
    if |events| == 0 then 0
    else
      var e := events[|events| - 1];
      if Commands(e, taskId) && e.out.setRetry.Some? then e.out.setRetry.value
      else Counter(events[..|events| - 1], taskId)
  }

  /** Camunda delivers the task, with the value it holds. */
  ghost predicate Echoed(events: seq<Event>, taskId: string) {
    forall k :: 0 <= k < |events| && Commands(events[k], taskId) ==>
      events[k].caller.CamundaLoop? && events[k].task.retries == Counter(events[..k], taskId)
  }

  predicate IsRound(e: Event, taskId: string) {
    Commands(e, taskId) && e.out.setRetry.Some?
  }

  /** Rounds of a task so far. */
  function Rounds(events: seq<Event>, taskId: string): nat {
    if |events| == 0 then 0
    else Rounds(events[..|events| - 1], taskId) + if IsRound(events[|events| - 1], taskId) then 1 else 0
  }

  lemma EchoedPrefix(events: seq<Event>, taskId: string, n: nat)
    requires Echoed(events, taskId) && n <= |events|
    ensures Echoed(events[..n], taskId)
  {
    forall k | 0 <= k < n && Commands(events[..n][k], taskId)
      ensures events[..n][k].caller.CamundaLoop? && events[..n][k].task.retries == Counter(events[..n][..k], taskId)
    {
      assert events[..n][..k] == events[..k] && events[..n][k] == events[k];
    }
  }

  lemma CallIsRound(cfg: Config, stores: seq<Store>, events: seq<Event>, taskId: string, n: nat) returns (s1: Store)
    requires IsRun(cfg, stores, events) && cfg.scheduler.Parallel? && Echoed(events, taskId)
    requires n < |events| && Commands(events[n], taskId)
    ensures var e := events[n];
            || Fails(e.out)
            || Round(cfg, stores[n], taskId, Counter(events[..n], taskId), e.command.retries, s1, stores[n + 1], e.out)
  {
    var e := events[n];
    assert Step(cfg, stores[n], e, stores[n + 1]);
    var env :| Process(cfg, env, stores[n], e.command, e.task, e.caller, e.now, stores[n + 1], e.out);
    ProcessIsRound(cfg, env, stores[n], e.command, e.task, e.now, stores[n + 1], e.out);
    s1 := OpenSubTasks(env, stores[n], e.command, e.task).0;
  }

  /** Camunda's value counts the rounds. */
  lemma {:induction false} CounterIsRounds(cfg: Config, stores: seq<Store>, events: seq<Event>, taskId: string)
    requires IsRun(cfg, stores, events) && cfg.scheduler.Parallel? && Echoed(events, taskId)
    ensures Counter(events, taskId) == Rounds(events, taskId)
  {
    if |events| > 0 {
      var n := |events| - 1;
      Prefix(cfg, stores, events, n);
      EchoedPrefix(events, taskId, n);
      CounterIsRounds(cfg, stores[..n + 1], events[..n], taskId);
      if Commands(events[n], taskId) {
        var s1 := CallIsRound(cfg, stores, events, taskId, n);
      }
    }
  }

  /** With at most R retries there are at most R + 1 rounds. */
  lemma {:induction false} RoundBound(cfg: Config, stores: seq<Store>, events: seq<Event>, taskId: string, retries: nat)
    requires IsRun(cfg, stores, events) && cfg.scheduler.Parallel? && Echoed(events, taskId)
    requires BoundedRetries(events, taskId, retries)
    ensures Rounds(events, taskId) <= retries + 1
  {
    if |events| > 0 {
      var n := |events| - 1;
      Prefix(cfg, stores, events, n);
      EchoedPrefix(events, taskId, n);
      RoundBound(cfg, stores[..n + 1], events[..n], taskId, retries);
      CounterIsRounds(cfg, stores[..n + 1], events[..n], taskId);
      if Commands(events[n], taskId) {
        var s1 := CallIsRound(cfg, stores, events, taskId, n);
      }
    }
  }

  /** With R retries a call is a round exactly while at most R have been, unless it fails; it sends one message
      for every child without a result, or for every child of the family it stores, in their order. */
  lemma RoundsCoverUnanswered(cfg: Config, stores: seq<Store>, events: seq<Event>, taskId: string, n: nat)
    requires IsRun(cfg, stores, events) && cfg.scheduler.Parallel? && Echoed(events, taskId)
    requires n < |events| && Commands(events[n], taskId) && !Fails(events[n].out)
    ensures IsRound(events[n], taskId)
       <==> events[n].command.retries == -1 || Rounds(events[..n], taskId) <= events[n].command.retries
    ensures |events[n].out.next| > 0 ==>
      taskId in stores[n + 1].meta && Metadatas(events[n].out.next) == Candidates(stores[n], stores[n + 1], taskId)
  {
    Prefix(cfg, stores, events, n);
    EchoedPrefix(events, taskId, n);
    CounterIsRounds(cfg, stores[..n + 1], events[..n], taskId);
    var s1 := CallIsRound(cfg, stores, events, taskId, n);
  }

  /** After R + 1 rounds the next delivery ends the task: it completes with the results there are, or
      reports an error, for without a result there is nothing to complete with. */
  lemma LastRoundEnds(cfg: Config, stores: seq<Store>, events: seq<Event>, taskId: string, retries: nat, n: nat)
    requires IsRun(cfg, stores, events) && cfg.scheduler.Parallel? && Echoed(events, taskId)
    requires BoundedRetries(events, taskId, retries) && n < |events| && Commands(events[n], taskId)
    requires Rounds(events[..n], taskId) > retries
    ensures events[n].out.next == []
    ensures (events[n].out.completed && |events[n].out.results| > 0) || events[n].out.error.Some?
  {
    Prefix(cfg, stores, events, n);
    EchoedPrefix(events, taskId, n);
    CounterIsRounds(cfg, stores[..n + 1], events[..n], taskId);
    var s1 := CallIsRound(cfg, stores, events, taskId, n);
  }

  /** Whatever a call of PARALLEL decides: the results it hands on are the last response of each answered child,
      in child order; a call that stores the family has none. */
  lemma ResultsAreAnswers(cfg: Config, stores: seq<Store>, events: seq<Event>, n: nat)
    requires IsRun(cfg, stores, events) && cfg.scheduler.Parallel? && n < |events|
    requires events[n].CommandEvent? && events[n].caller.CamundaLoop? && !Fails(events[n].out)
    ensures events[n].task.id !in stores[n].meta ==> events[n].out.results == []
    ensures events[n].task.id in stores[n].meta ==>
      var answered := Answered(stores[n].result, stores[n].meta[events[n].task.id].children);
      && |events[n].out.results| == |answered|
      && forall k :: 0 <= k < |answered| ==>
           Some(events[n].out.results[k]) == LastResponse(events[..n], answered[k].task.id)
  {
    var e := events[n];
    assert Step(cfg, stores[n], e, stores[n + 1]);
    var env :| Process(cfg, env, stores[n], e.command, e.task, e.caller, e.now, stores[n + 1], e.out);
    ProcessIsRound(cfg, env, stores[n], e.command, e.task, e.now, stores[n + 1], e.out);
    if e.task.id in stores[n].meta { ResultsAreConserved(cfg, stores, events, n, e.task.id); }
  }
}
