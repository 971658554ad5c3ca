/** Whole runs of the scheduler: any sequence of `ProcessCommand` and `ProcessResponse` calls on one
    store, each atomic, with a clock that does not run backwards. */
module Runs {
  import opened Values
  import opened Messages
  import opened Storage
  import opened SubTasks
  import opened Scheduling
  import opened Steps

  datatype Event =
    | CommandEvent(command: Command, task: Task, caller: Caller, now: int, out: Output)
    | ResponseEvent(id: string, value: Json, response: ResponseOutput)

  /** The repository and the messages may differ from call to call. */
  ghost predicate Step(cfg: Config, s: Store, e: Event, s': Store) {
    match e
    case CommandEvent(command, task, caller, now, out) =>
      '_' !in task.id && exists env :: Process(cfg, env, s, command, task, caller, now, s', out)
    case ResponseEvent(id, value, response) => (s', response) == Respond(s, id, value)
  }

  ghost predicate Monotone(events: seq<Event>) {
    forall k, l :: 0 <= k < l < |events| && events[k].CommandEvent? && events[l].CommandEvent? ==>
      events[k].now <= events[l].now
  }

  ghost predicate IsRun(cfg: Config, stores: seq<Store>, events: seq<Event>) {
    && |stores| == |events| + 1 && stores[0] == EMPTY_STORE && Monotone(events)
    && forall k :: 0 <= k < |events| ==> Step(cfg, stores[k], events[k], stores[k + 1])
  }

  lemma Prefix(cfg: Config, stores: seq<Store>, events: seq<Event>, n: nat)
    requires IsRun(cfg, stores, events) && n <= |events|
    ensures IsRun(cfg, stores[..n + 1], events[..n])
  {
  }

  lemma StepAgrees(cfg: Config, s: Store, e: Event, s': Store)
    requires Agree(s) && Step(cfg, s, e, s')
    ensures Agree(s')
    ensures Frame(s, s', if e.CommandEvent? then e.task.id else Owner(e.id))
  {
    if e.CommandEvent? {
      var env :| Process(cfg, env, s, e.command, e.task, e.caller, e.now, s', e.out);
      ProcessEffect(cfg, env, s, e.command, e.task, e.caller, e.now, s', e.out);
    } else {
      RespondEffect(s, e.id, e.value, s', e.response);
    }
  }

  /** Family agreement: in every run, metadata found under the id of a task or of a sub-task is one
      family, stored alike under its parent and under every child. */
  lemma {:induction false} AgreementHolds(cfg: Config, stores: seq<Store>, events: seq<Event>, k: nat)
    requires IsRun(cfg, stores, events) && k < |stores|
    ensures Agree(stores[k])
  {
    if k > 0 {
      AgreementHolds(cfg, stores, events, k - 1);
      StepAgrees(cfg, stores[k - 1], events[k - 1], stores[k]);
    }
  }

  /** The call sent a message for the sub-task. */
  predicate Dispatches(e: Event, id: string) {
    e.CommandEvent? && |e.out.next| > 0 && e.out.next[0].metadata.task.id == id
  }

  function DispatchCount(events: seq<Event>, id: string): nat {
    if |events| == 0 then 0
    else DispatchCount(events[..|events| - 1], id) + if Dispatches(events[|events| - 1], id) then 1 else 0
  }

  /** What a step does to try counts. */
  lemma StepTries(cfg: Config, s: Store, e: Event, s': Store)
    requires OneAtATime(cfg) && Agree(s) && Step(cfg, s, e, s')
    ensures e.CommandEvent? ==> Dispatch(cfg, s, e.task.id, e.command.retries, e.now, s', e.out)
    ensures e.ResponseEvent? ==> s'.state == s.state
  {
    if e.CommandEvent? {
      var env :| Process(cfg, env, s, e.command, e.task, e.caller, e.now, s', e.out);
      ProcessIsCalled(cfg, env, s, e.command, e.task, e.caller, e.now, s', e.out);
      CalledDispatches(cfg, env, s, e.command, e.task, e.caller, e.now, s', e.out);
    } else {
      RespondEffect(s, e.id, e.value, s', e.response);
    }
  }

  /** Tries are recorded exactly: across clearing and re-fetching, the stored count of a sub-task is the
      number of its dispatches so far, and its last try is not before any of them. */
  lemma {:induction false} TriesAreDispatches(cfg: Config, stores: seq<Store>, events: seq<Event>, id: string)
    requires IsRun(cfg, stores, events) && OneAtATime(cfg)
    ensures StateOf(stores[|events|], id).tryCount == DispatchCount(events, id)
    ensures forall k :: 0 <= k < |events| && Dispatches(events[k], id) ==>
      var last := StateOf(stores[|events|], id).lastTry; last.Some? && events[k].now <= last.value
  {
    if |events| > 0 {
      var n := |events| - 1;
      Prefix(cfg, stores, events, n);
      TriesAreDispatches(cfg, stores[..n + 1], events[..n], id);
      AgreementHolds(cfg, stores, events, n);
      StepTries(cfg, stores[n], events[n], stores[n + 1]);
      var e := events[n];
      forall k | 0 <= k < |events| && Dispatches(events[k], id)
        ensures var last := StateOf(stores[|events|], id).lastTry; last.Some? && events[k].now <= last.value
      {
        if k < n { assert events[..n][k] == events[k]; }
      }
    }
  }

  /** No call for the task allows more retries than these, or retries without end. */
  ghost predicate BoundedRetries(events: seq<Event>, taskId: string, retries: int) {
    forall k :: 0 <= k < |events| && events[k].CommandEvent? && events[k].task.id == taskId ==>
      events[k].command.retries != -1 && events[k].command.retries <= retries
  }

  /** A dispatched sub-task belongs to the task of the call. */
  lemma DispatchIsOwned(cfg: Config, s: Store, e: Event, s': Store, id: string)
    requires OneAtATime(cfg) && Agree(s) && Step(cfg, s, e, s') && Dispatches(e, id)
    ensures Owner(id) == e.task.id && e.task.id in s'.meta && id in Ids(s'.meta[e.task.id].children)
  {
    StepTries(cfg, s, e, s');
    StepAgrees(cfg, s, e, s');
    var element := e.out.next[0].metadata;
    var m := s'.meta[e.task.id];
    MissingIff(s.result, m.children, element);
    assert Family(s', e.task.id);
    assert element in m.children && id in Members(m);
    OwnerOfMember(m, id);
    ParentEntry(s', e.task.id);
    OwnerOf(e.task.id, "");
  }

  /** Dispatch bound: with at most R retries, -1 excepted, a sub-task is dispatched at most R + 1 times in the
      whole run, however often its task is cleared and fetched again. */
  lemma {:induction false} DispatchBound(cfg: Config, stores: seq<Store>, events: seq<Event>, id: string, retries: int)
    requires IsRun(cfg, stores, events) && OneAtATime(cfg)
    requires BoundedRetries(events, Owner(id), retries)
    ensures DispatchCount(events, id) <= if retries < 0 then 0 else retries + 1
  {
    if |events| > 0 {
      var n := |events| - 1;
      Prefix(cfg, stores, events, n);
      DispatchBound(cfg, stores[..n + 1], events[..n], id, retries);
      if Dispatches(events[n], id) {
        AgreementHolds(cfg, stores, events, n);
        StepTries(cfg, stores[n], events[n], stores[n + 1]);
        DispatchIsOwned(cfg, stores[n], events[n], stores[n + 1], id);
        TriesAreDispatches(cfg, stores[..n + 1], events[..n], id);
      }
    }
  }

  /** Spacing: two dispatches of one sub-task are more than the running timeout apart. */
  lemma DispatchSpacing(cfg: Config, stores: seq<Store>, events: seq<Event>, id: string, k: nat, l: nat)
    requires IsRun(cfg, stores, events) && OneAtATime(cfg)
    requires k < l < |events| && Dispatches(events[k], id) && Dispatches(events[l], id)
    ensures events[l].now - events[k].now > cfg.timeout
  {
    Prefix(cfg, stores, events, l);
    TriesAreDispatches(cfg, stores[..l + 1], events[..l], id);
    assert events[..l][k] == events[k];
    AgreementHolds(cfg, stores, events, l);
    StepTries(cfg, stores[l], events[l], stores[l + 1]);
  }

  /** The call is a finished response for the task. */
  predicate Finishes(e: Event, taskId: string) {
    e.ResponseEvent? && e.response.Finished? && e.response.parent.task.id == taskId
  }

  /** The call is a `ProcessCommand` for the task. */
  predicate Commands(e: Event, taskId: string) {
    e.CommandEvent? && e.task.id == taskId
  }

  /** Only a call for a task can create a family of it. */
  lemma OnlyCallsCreate(cfg: Config, s: Store, e: Event, s': Store, taskId: string)
    requires Agree(s) && Step(cfg, s, e, s') && !Commands(e, taskId)
    requires Owner(taskId) == taskId && taskId !in s.meta
    ensures taskId !in s'.meta
  {
    if e.CommandEvent? {
      StepAgrees(cfg, s, e, s');
      assert Get(s'.meta, taskId) == Get(s.meta, taskId);
    } else {
      RespondEffect(s, e.id, e.value, s', e.response);
    }
  }

  /** A finished response finds the family and leaves nothing of it. */
  lemma FinishClears(cfg: Config, s: Store, e: Event, s': Store, taskId: string)
    requires Agree(s) && Step(cfg, s, e, s') && Finishes(e, taskId)
    ensures taskId in s.meta && taskId !in s'.meta && Owner(taskId) == taskId
  {
    RespondEffect(s, e.id, e.value, s', e.response);
    ParentEntry(s, e.id);
    ParentOwnsItself(s, e.id);
  }

  /** A family that was absent and is there later has appeared in between. */
  lemma {:induction false} Appears(stores: seq<Store>, taskId: string, a: nat, b: nat) returns (m: nat)
    requires a <= b < |stores| && taskId !in stores[a].meta && taskId in stores[b].meta
    ensures a <= m < b && taskId !in stores[m].meta && taskId in stores[m + 1].meta
    decreases b - a
  {
    if taskId in stores[a + 1].meta { m := a; } else { m := Appears(stores, taskId, a + 1, b); }
  }

  /** Single finish: between two finished responses for one task, a call has created its family anew. */
  lemma SingleFinish(cfg: Config, stores: seq<Store>, events: seq<Event>, taskId: string, k: nat, l: nat)
    returns (m: nat)
    requires IsRun(cfg, stores, events) && k < l < |events|
    requires Finishes(events[k], taskId) && Finishes(events[l], taskId)
    ensures k < m < l && Commands(events[m], taskId)
    ensures taskId !in stores[m].meta && taskId in stores[m + 1].meta
  {
    AgreementHolds(cfg, stores, events, k);
    AgreementHolds(cfg, stores, events, l);
    FinishClears(cfg, stores[k], events[k], stores[k + 1], taskId);
    FinishClears(cfg, stores[l], events[l], stores[l + 1], taskId);
    m := Appears(stores, taskId, k + 1, l);
    AgreementHolds(cfg, stores, events, m);
    if !Commands(events[m], taskId) {
      OnlyCallsCreate(cfg, stores[m], events[m], stores[m + 1], taskId);
    }
  }

  /** The value of the last response for an id. */
  function LastResponse(events: seq<Event>, id: string): Option<Json> {
    if |events| == 0 then None
    else
      var e := events[|events| - 1];
      if e.ResponseEvent? && e.id == id then Some(e.value) else LastResponse(events[..|events| - 1], id)
  }

  /** Only a response for its id writes a result. */
  lemma OnlyResponsesWrite(cfg: Config, s: Store, e: Event, s': Store, id: string)
    requires Agree(s) && Step(cfg, s, e, s') && id in s'.result
    ensures if e.ResponseEvent? && e.id == id then s'.result[id] == SubResult(false, e.value)
            else id in s.result && s'.result[id] == s.result[id]
  {
    if e.CommandEvent? {
      var env :| Process(cfg, env, s, e.command, e.task, e.caller, e.now, s', e.out);
      ProcessEffect(cfg, env, s, e.command, e.task, e.caller, e.now, s', e.out);
    } else {
      RespondShape(s, e.id, e.value);
      if e.response.Finished? { ClearOnlyRemoves(WithResult(s, e.id, e.value), s.meta[e.id].parent.task.id); }
    }
  }

  /** Stored results are the last responses, never marked failed. */
  lemma {:induction false} ResultsAreResponses(cfg: Config, stores: seq<Store>, events: seq<Event>, id: string)
    requires IsRun(cfg, stores, events) && id in stores[|events|].result
    ensures !stores[|events|].result[id].failed
    ensures LastResponse(events, id) == Some(stores[|events|].result[id].value)
  {
    var n := |events| - 1;
    var e := events[n];
    AgreementHolds(cfg, stores, events, n);
    OnlyResponsesWrite(cfg, stores[n], e, stores[n + 1], id);
    if !(e.ResponseEvent? && e.id == id) {
      Prefix(cfg, stores, events, n);
      ResultsAreResponses(cfg, stores[..n + 1], events[..n], id);
    }
  }

  /** The children with a stored result, in order. */
  function Answered(result: map<string, SubResult>, children: seq<Element>): seq<Element> {
    if |children| == 0 then []
    else
      var last := children[|children| - 1];
      Answered(result, children[..|children| - 1]) + if last.task.id in result then [last] else []
  }

  ghost predicate NoneFailed(result: map<string, SubResult>) {
    forall id :: id in result ==> !result[id].failed
  }

  /** The result list is the values of the answered children, in order. */
  lemma {:induction false} AnsweredResults(result: map<string, SubResult>, children: seq<Element>)
    requires NoneFailed(result)
    ensures forall e :: e in Answered(result, children) ==> e.task.id in result
    ensures |Results(result, children)| == |Answered(result, children)|
    ensures forall k :: 0 <= k < |Answered(result, children)| ==>
      Results(result, children)[k] == result[Answered(result, children)[k].task.id].value
  {
    if |children| > 0 { AnsweredResults(result, children[..|children| - 1]); }
  }

  lemma SplitOneMore(answered: seq<Element>, missing: seq<Element>, children: seq<Element>, e: Element)
    requires multiset(answered) + multiset(missing) == multiset(children)
    ensures multiset(answered + [e]) + multiset(missing) == multiset(children + [e])
    ensures multiset(answered) + multiset(missing + [e]) == multiset(children + [e])
  {
  }

  /** Every child is answered or missing, once. */
  lemma {:induction false} ChildrenSplit(result: map<string, SubResult>, children: seq<Element>)
    ensures multiset(Answered(result, children)) + multiset(Missing(result, children)) == multiset(children)
  {
    if |children| > 0 {
      var n := |children| - 1;
      var last := children[n];
      ChildrenSplit(result, children[..n]);
      var answered, missing := Answered(result, children[..n]), Missing(result, children[..n]);
      SplitOneMore(answered, missing, children[..n], last);
      assert children == children[..n] + [last];
      if last.task.id in result {
        assert Answered(result, children) == answered + [last] && Missing(result, children) == missing;
      } else {
        assert Answered(result, children) == answered && Missing(result, children) == missing + [last];
      }
    }
  }

  lemma {:induction false} NoneMissing(result: map<string, SubResult>, children: seq<Element>)
    requires |Missing(result, children)| == 0
    ensures Answered(result, children) == children
  {
    if |children| > 0 { NoneMissing(result, children[..|children| - 1]); }
  }

  /** Conservation: in every reachable state the children of a family split into answered and missing
      ones, and the result list is the last response of each answered child, in child order. */
  lemma ResultsAreConserved(cfg: Config, stores: seq<Store>, events: seq<Event>, n: nat, id: string)
    requires IsRun(cfg, stores, events) && n <= |events| && id in stores[n].meta
    ensures var children, result := stores[n].meta[id].children, stores[n].result;
            && multiset(Answered(result, children)) + multiset(Missing(result, children)) == multiset(children)
            && |Results(result, children)| == |Answered(result, children)|
            && forall k :: 0 <= k < |Answered(result, children)| ==>
                 Some(Results(result, children)[k]) == LastResponse(events[..n], Answered(result, children)[k].task.id)
  {
    var children, result := stores[n].meta[id].children, stores[n].result;
    Prefix(cfg, stores, events, n);
    forall x | x in result ensures !result[x].failed && LastResponse(events[..n], x) == Some(result[x].value) {
      ResultsAreResponses(cfg, stores[..n + 1], events[..n], x);
    }
    AnsweredResults(result, children);
    ChildrenSplit(result, children);
  }

  /** A finished response carries the last response of every child, in child order. */
  lemma FinishedCarriesEveryChild(cfg: Config, stores: seq<Store>, events: seq<Event>, n: nat)
    requires IsRun(cfg, stores, events) && n < |events|
    requires events[n].ResponseEvent? && events[n].response.Finished?
    ensures events[n].id in stores[n].meta
    ensures var children, results := stores[n].meta[events[n].id].children, events[n].response.results;
            |results| == |children|
            && forall k :: 0 <= k < |children| ==>
              Some(results[k]) == LastResponse(events[..n + 1], children[k].task.id)
  {
    var s, e := stores[n], events[n];
    assert Step(cfg, s, e, stores[n + 1]);
    RespondShape(s, e.id, e.value);
    var result := WithResult(s, e.id, e.value).result;
    var children := s.meta[e.id].children;
    Prefix(cfg, stores, events, n);
    assert events[..n + 1][..n] == events[..n];
    forall x | x in result ensures !result[x].failed && LastResponse(events[..n + 1], x) == Some(result[x].value) {
      if x != e.id { ResultsAreResponses(cfg, stores[..n + 1], events[..n], x); }
    }
    AnsweredResults(result, children);
    NoneMissing(result, children);
  }

  /** The last response is the last one since step c, or else the last one before. */
  lemma {:induction false} LastResponseSplits(events: seq<Event>, c: nat, id: string)
    requires c <= |events|
    ensures LastResponse(events, id)
         == if LastResponse(events[c..], id).Some? then LastResponse(events[c..], id) else LastResponse(events[..c], id)
  {
    var n := |events| - 1;
    if c <= n {
      LastResponseSplits(events[..n], c, id);
      assert events[c..][..n - c] == events[..n][c..] && events[..n][..c] == events[..c];
      assert events[c..][n - c] == events[n];
    } else {
      assert events[..c] == events;
    }
  }

  lemma {:induction false} LastResponseExists(events: seq<Event>, id: string)
    ensures LastResponse(events, id).Some?
       <==> exists j :: 0 <= j < |events| && events[j].ResponseEvent? && events[j].id == id
  {
    if |events| > 0 {
      var n := |events| - 1;
      LastResponseExists(events[..n], id);
      if j :| 0 <= j < |events| && events[j].ResponseEvent? && events[j].id == id {
        if j < n { assert events[..n][j] == events[j]; }
      }
    }
  }

  lemma ResultWasThereBefore(cfg: Config, stores: seq<Store>, events: seq<Event>, m: nat, id: string)
    requires IsRun(cfg, stores, events) && m < |events| && id in stores[m + 1].result
    requires !(events[m].ResponseEvent? && events[m].id == id)
    ensures id in stores[m].result && stores[m].result[id] == stores[m + 1].result[id]
  {
    AgreementHolds(cfg, stores, events, m);
    OnlyResponsesWrite(cfg, stores[m], events[m], stores[m + 1], id);
  }

  lemma {:induction false} ResultGoesBack(stores: seq<Store>, c: nat, n: nat, id: string)
    requires c <= n < |stores| && id in stores[n].result
    requires forall m :: c <= m < n && id in stores[m + 1].result ==>
      id in stores[m].result && stores[m].result[id] == stores[m + 1].result[id]
    ensures id in stores[c].result && stores[c].result[id] == stores[n].result[id]
  {
    if c < n { ResultGoesBack(stores, c, n - 1, id); }
  }

  /** A result that no response has written since step c was there at step c. */
  lemma ResultWasThere(cfg: Config, stores: seq<Store>, events: seq<Event>, c: nat, n: nat, id: string)
    requires IsRun(cfg, stores, events) && c <= n <= |events| && id in stores[n].result
    requires forall j :: c <= j < n ==> !(events[j].ResponseEvent? && events[j].id == id)
    ensures id in stores[c].result && stores[c].result[id] == stores[n].result[id]
  {
    forall m | c <= m < n && id in stores[m + 1].result
      ensures id in stores[m].result && stores[m].result[id] == stores[m + 1].result[id]
    {
      ResultWasThereBefore(cfg, stores, events, m, id);
    }
    ResultGoesBack(stores, c, n, id);
  }

  /** Step c stores the family of the task, and it lives on to step n. */
  ghost predicate Storing(stores: seq<Store>, events: seq<Event>, taskId: string, c: nat, n: nat)
    requires c < n < |events| && |stores| == |events| + 1
  {
    && Commands(events[c], taskId) && taskId !in stores[c].meta
    && forall m :: c < m <= n ==> taskId in stores[m].meta
  }

  /** A finished response carries, for a child, a result from before its family was stored exactly if no
      response for that child has come since: then the result was left by a late response. */
  lemma StaleIffUnanswered(cfg: Config, stores: seq<Store>, events: seq<Event>, c: nat, n: nat, k: nat)
    requires IsRun(cfg, stores, events) && c < n < |events|
    requires events[n].ResponseEvent? && events[n].response.Finished?
    requires Storing(stores, events, events[n].response.parent.task.id, c, n)
    ensures events[n].id in stores[n].meta
    ensures var children, results := stores[n].meta[events[n].id].children, events[n].response.results;
            && |results| == |children|
            && (k < |children| ==>
                 var id := children[k].task.id;
                 if exists j :: c < j <= n && events[j].ResponseEvent? && events[j].id == id
                 then Some(results[k]) == LastResponse(events[c + 1..n + 1], id)
                 else id in stores[c].result && results[k] == stores[c].result[id].value)
  {
    FinishedCarriesEveryChild(cfg, stores, events, n);
    var children := stores[n].meta[events[n].id].children;
    if k < |children| {
      assert Step(cfg, stores[n], events[n], stores[n + 1]);
      MissingIff(WithResult(stores[n], events[n].id, events[n].value).result, children, children[k]);
      assert children[k] in children;
      CarriedValue(cfg, stores, events, c, n, children[k].task.id);
    }
  }

  lemma CarriedValue(cfg: Config, stores: seq<Store>, events: seq<Event>, c: nat, n: nat, id: string)
    requires IsRun(cfg, stores, events) && c < n < |events| && events[c].CommandEvent?
    requires LastResponse(events[..n + 1], id).Some?
    requires events[n].ResponseEvent? && (events[n].id != id ==> id in stores[n].result)
    ensures if exists j :: c < j <= n && events[j].ResponseEvent? && events[j].id == id
            then LastResponse(events[..n + 1], id) == LastResponse(events[c + 1..n + 1], id)
            else id in stores[c].result && LastResponse(events[..n + 1], id) == Some(stores[c].result[id].value)
  {
    var since := events[c + 1..n + 1];
    assert events[..n + 1][c + 1..] == since && events[..n + 1][..c + 1] == events[..c + 1];
    LastResponseSplits(events[..n + 1], c + 1, id);
    LastResponseExists(since, id);
    if j :| c < j <= n && events[j].ResponseEvent? && events[j].id == id {
      assert since[j - c - 1] == events[j];
    } else {
      ResultWasThere(cfg, stores, events, c, n, id);
      Prefix(cfg, stores, events, n);
      ResultsAreResponses(cfg, stores[..n + 1], events[..n], id);
      assert events[..n + 1][..n] == events[..n];
    }
  }

  /** Every child of the family of id has a result, once this response for id is stored. */
  ghost predicate AllAnswered(s: Store, id: string)
    requires id in s.meta
  {
    forall e :: e in s.meta[id].children ==> e.task.id == id || e.task.id in s.result
  }

  /** A response is for an unknown sub-task, or finishes its family, or leaves it pending: it finishes
      exactly if every other child has a result already. */
  lemma RespondFinishesIff(s: Store, id: string, value: Json)
    ensures var out := Respond(s, id, value).1;
            && (out.NotFound? <==> id !in s.meta)
            && (id in s.meta ==> (out.Finished? <==> AllAnswered(s, id)) && out.parent == s.meta[id].parent)
  {
    if id in s.meta {
      var children, result := s.meta[id].children, WithResult(s, id, value).result;
      forall e ensures e in Missing(result, children) <==> e in children && e.task.id != id && e.task.id !in s.result {
        MissingIff(result, children, e);
      }
      if |Missing(result, children)| > 0 { assert Missing(result, children)[0] in Missing(result, children); }
    }
  }

  /** In every run: a response finishes its task if and only if every child of the stored family is the one it
      answers or has a result; then it carries one result for every child and the family is cleared.
      Otherwise it leaves the task of the stored parent pending. */
  lemma FinishesIffAllAnswered(cfg: Config, stores: seq<Store>, events: seq<Event>, n: nat)
    requires IsRun(cfg, stores, events) && n < |events| && events[n].ResponseEvent?
    ensures events[n].response.NotFound? <==> events[n].id !in stores[n].meta
    ensures events[n].id in stores[n].meta ==>
      var m, response := stores[n].meta[events[n].id], events[n].response;
      && (response.Finished? <==> AllAnswered(stores[n], events[n].id))
      && (response.Finished? ==> |response.results| == |m.children| && m.parent.task.id !in stores[n + 1].meta)
      && (!response.Finished? ==> response == Pending(m.parent))
  {
    var e := events[n];
    assert Step(cfg, stores[n], e, stores[n + 1]);
    RespondFinishesIff(stores[n], e.id, e.value);
    if e.response.Finished? {
      FinishedCarriesEveryChild(cfg, stores, events, n);
      AgreementHolds(cfg, stores, events, n);
      RespondEffect(stores[n], e.id, e.value, stores[n + 1], e.response);
    }
  }
}
