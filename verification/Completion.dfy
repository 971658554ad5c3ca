/** `Camunda.CompleteTask` and `completeTask` of lib/camunda/camunda.go on any number of threads.

    A thread locks the task's topic, asks the completion cache, and completes the task at the
    engine only if the cache has no entry that is still valid. `cache.Use` is taken at its
    contract: the result of a successful call is stored until it expires, an error is not. Time
    passes between any two steps. */
module Completion {
  import Mutex = TopicMutex

  type Topic = Mutex.Topic

  /** The lock and cache key of a task. */
  function Key(tenantId: string, taskId: string): Topic {
    tenantId + "+" + taskId
  }

  /** Where the holder of a topic stands between `Lock` and `Unlock`. */
  datatype Section =
    | Outside
    | Check                  // cache lookup
    | Shard                  // GetShardForUser
    | First                  // first complete request
    | Second                 // second complete request
    | Report                 // the incident after a refused second request
    | Remember               // the request succeeded, the cache entry is not yet written
    | Done

  /** The task a call of `CompleteTask` is about. */
  datatype Call = Call(tenantId: string, taskId: string) {
    function Topic(): Topic {
      Key(tenantId, taskId)
    }
  }

  /** What the world answers to a step of `completeTask`. */
  datatype Answer = Ok | Refused | Broken  // Refused: an HTTP status of 300 or more

  /** What a call has met: the nth of its thread, answered from the cache or not, its shard found or not, and
      the answers to its complete requests. */
  datatype Trace = Trace(nth: nat, hit: bool, found: bool, answers: seq<Answer>)

  /** Which task was completed, under which key, by which call of which thread. */
  datatype Completed = Completed(topic: Topic, call: Call, thread: nat, nth: nat, time: int)

  /** `call` and `trace` are about the current or last call of each thread, `requests` and `incidents` count what
      it has sent. */
  datatype State = State(
    lock: Mutex.State,
    call: seq<Call>,
    trace: seq<Trace>,
    section: seq<Section>,
    requests: seq<nat>,
    incidents: seq<nat>,
    cache: map<Topic, int>,     // time of expiry
    clock: int,
    log: seq<Completed>)        // successful completions at the engine, in order

  predicate WellFormed(s: State) {
    |s.call| == |s.trace| == |s.section| == |s.requests| == |s.incidents| == |s.lock.pc|
  }

  /** A thread starts its next call when it leaves Idle. */
  function TraceAfter(s: State, i: nat): seq<Trace>
    requires WellFormed(s) && i < |s.lock.pc|
  {
    if s.lock.pc[i].Idle? then s.trace[i := Trace(s.trace[i].nth + 1, false, false, [])] else s.trace
  }

  /** A step of the lock. A call locks the key of its task; it returns, and then unlocks, only when its section
      is done. */
  ghost predicate LockStep(s: State, i: nat, s': State)
    requires WellFormed(s) && i < |s.lock.pc|
  {
    && Mutex.Next(s.lock, i, s'.lock)
    && |s'.lock.pc| == |s.lock.pc|
    && (s.lock.pc[i].Held? ==> s.section[i] == Done)
    && |s'.call| == |s.call| && s'.call == s.call[i := s'.call[i]]
    && (if s.lock.pc[i].Idle? then s'.lock.pc[i] == Mutex.LockEntry(s'.call[i].Topic()) else s'.call[i] == s.call[i])
    && s' == s.(lock := s'.lock, call := s'.call, clock := s'.clock,
                trace := TraceAfter(s, i),
                section := s.section[i := if s'.lock.pc[i].Held? then Check else Outside],
                requests := s.requests[i := 0], incidents := s.incidents[i := 0])
  }

  /** A step of the holder of topic t. `half` is half the fetch-lock duration. */
  function SectionStep(s: State, i: nat, t: Topic, half: int, now: int, a: Answer): State
    requires WellFormed(s) && i < |s.section|
  {
    var at := s.(clock := now);
    match s.section[i]
    case Check =>
      var hit := t in s.cache && now < s.cache[t];
      at.(section := s.section[i := if hit then Done else Shard], trace := s.trace[i := s.trace[i].(hit := hit)])
    case Shard =>
      at.(section := s.section[i := if a.Ok? then First else Done], trace := s.trace[i := s.trace[i].(found := a.Ok?)])
    case First => Sent(at, i, t, a, Second)
    case Second => Sent(at, i, t, a, if a.Refused? then Report else Done)
    case Report => at.(section := s.section[i := Done], incidents := s.incidents[i := s.incidents[i] + 1])
    case Remember => at.(section := s.section[i := Done], cache := s.cache[t := now + half])
    case _ => at
  }

  /** A complete request and its answer. */
  function Sent(s: State, i: nat, t: Topic, a: Answer, otherwise: Section): State
    requires WellFormed(s) && i < |s.section|
  {
    var trace := s.trace[i].(answers := s.trace[i].answers + [a]);
    var s' := s.(requests := s.requests[i := s.requests[i] + 1], trace := s.trace[i := trace]);
    if a.Ok? then
      s'.(section := s.section[i := Remember], log := s.log + [Completed(t, s.call[i], i, trace.nth, s.clock)])
    else s'.(section := s.section[i := otherwise])
  }

  ghost predicate Next(s: State, half: int, s': State) {
    && WellFormed(s) && s'.clock >= s.clock
    && ((exists i: nat :: i < |s.lock.pc| && LockStep(s, i, s'))
        || (exists i: nat, a :: i < |s.lock.pc| && s.lock.pc[i].Held?
             && s' == SectionStep(s, i, s.lock.pc[i].topic, half, s'.clock, a)))
  }

  ghost predicate Init(s: State) {
    && WellFormed(s) && Mutex.Init(s.lock) && s.cache == map[] && s.log == []
    && (forall i :: 0 <= i < |s.section| ==> s.section[i] == Outside && s.requests[i] == 0 && s.incidents[i] == 0)
    && (forall i :: 0 <= i < |s.trace| ==> s.trace[i] == Trace(0, false, false, []))
  }

  ghost predicate IsRun(run: seq<State>, half: int) {
    && |run| > 0 && Init(run[0])
    && forall k :: 0 < k < |run| ==> Next(run[k - 1], half, run[k])
  }

  /** The requests a call has sent where it stands; at most one incident, after two requests. */
  predicate Counts(p: Section, requests: nat, incidents: nat) {
    match p
    case Outside => requests == 0 && incidents == 0
    case Check => requests == 0 && incidents == 0
    case Shard => requests == 0 && incidents == 0
    case First => requests == 0 && incidents == 0
    case Second => requests == 1 && incidents == 0
    case Report => requests == 2 && incidents == 0
    case Remember => 1 <= requests <= 2 && incidents == 0
    case Done => requests <= 2 && incidents <= 1 && (incidents == 1 ==> requests == 2)
  }

  ghost predicate SectionInv(s: State) {
    && WellFormed(s)
    && (forall i :: 0 <= i < |s.section| ==> (s.section[i].Outside? <==> !s.lock.pc[i].Held?))
    && (forall i :: 0 <= i < |s.section| ==> Counts(s.section[i], s.requests[i], s.incidents[i]))
  }

  /** Half a lock duration has passed since every completion of t. */
  ghost predicate Expired(s: State, t: Topic, half: int) {
    forall c :: c in s.log && c.topic == t ==> s.clock >= c.time + half
  }

  /** A completion is covered by its cache entry, or its thread is about to write it. */
  ghost predicate Covered(s: State, c: Completed, half: int)
    requires WellFormed(s)
  {
    || (c.topic in s.cache && s.cache[c.topic] >= c.time + half)
    || (exists i :: 0 <= i < |s.section| && s.lock.pc[i] == Mutex.Held(c.topic) && s.section[i] == Remember)
  }

  /** Past the cache lookup, before a successful request. */
  predicate Completing(p: Section) {
    p.Shard? || p.First? || p.Second?
  }

  ghost predicate CacheInv(s: State, half: int)
    requires WellFormed(s)
  {
    && (forall c :: c in s.log ==> c.time <= s.clock && Covered(s, c, half))
    && (forall i :: 0 <= i < |s.section| && s.lock.pc[i].Held? && Completing(s.section[i]) ==>
         Expired(s, s.lock.pc[i].topic, half))
  }

  ghost predicate Spaced(log: seq<Completed>, half: int) {
    forall k, l :: 0 <= k < l < |log| && log[k].topic == log[l].topic ==> log[l].time >= log[k].time + half
  }

  ghost predicate Inv(s: State, half: int) {
    Mutex.Inv(s.lock) && SectionInv(s) && CacheInv(s, half) && Spaced(s.log, half)
  }

  /** Two holders of one topic are one thread. */
  lemma OneHolder(s: State, i: nat, j: nat)
    requires Mutex.Inv(s.lock) && i < |s.lock.pc| && j < |s.lock.pc|
    requires s.lock.pc[i].Held? && s.lock.pc[i] == s.lock.pc[j]
    ensures i == j
  {
    Mutex.InsideOwns(s.lock, i, s.lock.pc[i].topic);
    Mutex.InsideOwns(s.lock, j, s.lock.pc[i].topic);
  }

  lemma LockStepCovered(s: State, half: int, i: nat, s': State, c: Completed)
    requires Inv(s, half) && i < |s.lock.pc| && LockStep(s, i, s') && s'.clock >= s.clock && c in s.log
    requires |s'.lock.pc| == |s.lock.pc| && forall j :: 0 <= j < |s.lock.pc| && j != i ==> s'.lock.pc[j] == s.lock.pc[j]
    ensures c.time <= s'.clock && WellFormed(s') && Covered(s', c, half)
  {
    assert Covered(s, c, half);
    if !(c.topic in s.cache && s.cache[c.topic] >= c.time + half) {
      var j :| 0 <= j < |s.section| && s.lock.pc[j] == Mutex.Held(c.topic) && s.section[j] == Remember;
      assert s'.lock.pc[j] == Mutex.Held(c.topic) && s'.section[j] == Remember;
    }
  }

  /** The steps of the lock keep what the section relies on. */
  lemma LockStepSection(s: State, half: int, i: nat, s': State)
    requires SectionInv(s) && i < |s.lock.pc| && LockStep(s, i, s')
    requires s'.lock.pc == s.lock.pc[i := s'.lock.pc[i]]
    ensures SectionInv(s')
  {
  }

  lemma LockStepInv(s: State, half: int, i: nat, s': State)
    requires Inv(s, half) && i < |s.lock.pc| && LockStep(s, i, s') && s'.clock >= s.clock
    ensures Inv(s', half)
  {
    assert Mutex.Step(s.lock, s'.lock);
    Mutex.StepInv(s.lock, s'.lock);
    Mutex.StepShape(s.lock, i, s'.lock);
    LockStepSection(s, half, i, s');
    LockStepCache(s, half, i, s');
  }

  lemma LockStepCache(s: State, half: int, i: nat, s': State)
    requires Inv(s, half) && i < |s.lock.pc| && LockStep(s, i, s') && s'.clock >= s.clock
    requires WellFormed(s') && s'.lock.pc == s.lock.pc[i := s'.lock.pc[i]]
    ensures CacheInv(s', half)
  {
    forall c | c in s'.log ensures c.time <= s'.clock && Covered(s', c, half) { LockStepCovered(s, half, i, s', c); }
    forall j | 0 <= j < |s'.section| && s'.lock.pc[j].Held? && Completing(s'.section[j])
      ensures Expired(s', s'.lock.pc[j].topic, half)
    {
      assert j != i;
    }
  }

  /** A step of the only holder of its topic. */
  ghost predicate HolderStep(s: State, half: int, i: nat, now: int, a: Answer, s': State) {
    && SectionInv(s) && CacheInv(s, half) && now >= s.clock
    && i < |s.lock.pc| && s.lock.pc[i].Held?
    && (forall j: nat :: j < |s.lock.pc| && s.lock.pc[j] == s.lock.pc[i] ==> j == i)
    && s' == SectionStep(s, i, s.lock.pc[i].topic, half, now, a)
  }

  lemma CoveredStep(s: State, half: int, i: nat, now: int, a: Answer, s': State, c: Completed)
    requires HolderStep(s, half, i, now, a, s') && c in s'.log
    ensures c.time <= s'.clock && Covered(s', c, half)
  {
    if c !in s.log {
      assert s'.lock.pc[i] == Mutex.Held(c.topic) && s'.section[i] == Remember;
    } else if !(c.topic in s.cache && s.cache[c.topic] >= c.time + half) {
      var j :| 0 <= j < |s.section| && s.lock.pc[j] == Mutex.Held(c.topic) && s.section[j] == Remember;
      if j != i { assert s'.section[j] == Remember; }
    }
  }

  /** A cache miss under the lock means that half a lock duration has passed since every completion. */
  lemma ExpiredStep(s: State, half: int, i: nat, now: int, a: Answer, s': State, j: nat)
    requires HolderStep(s, half, i, now, a, s')
    requires j < |s.section| && s.lock.pc[j].Held? && Completing(s'.section[j])
    ensures Expired(s', s.lock.pc[j].topic, half)
  {
    var t := s.lock.pc[j].topic;
    forall c | c in s'.log && c.topic == t ensures s'.clock >= c.time + half {
      assert c in s.log;
      assert Covered(s, c, half);
    }
  }

  /** The counts of the holder fit where it stands after its step. */
  lemma CountsStep(s: State, half: int, i: nat, now: int, a: Answer, s': State)
    requires SectionInv(s) && i < |s.lock.pc| && s.lock.pc[i].Held?
    requires s' == SectionStep(s, i, s.lock.pc[i].topic, half, now, a)
    ensures SectionInv(s')
  {
    SectionFrame(s, half, i, now, a, s');
    CountsAt(s, half, i, now, a, s');
    CountsElsewhere(s, i, s');
  }

  lemma CountsAt(s: State, half: int, i: nat, now: int, a: Answer, s': State)
    requires WellFormed(s) && WellFormed(s') && HeldBy(s, i) && |s'.section| == |s.section| && s.section[i] != Outside
    requires s' == SectionStep(s, i, s.lock.pc[i].topic, half, now, a)
    requires Counts(s.section[i], s.requests[i], s.incidents[i])
    ensures s'.section[i] != Outside && Counts(s'.section[i], s'.requests[i], s'.incidents[i])
  {
  }

  lemma CountsElsewhere(s: State, i: nat, s': State)
    requires SectionInv(s) && WellFormed(s') && HeldBy(s, i) && s'.lock == s.lock
    requires s'.section == s.section[i := s'.section[i]] && s'.section[i] != Outside
    requires s'.requests == s.requests[i := s'.requests[i]] && s'.incidents == s.incidents[i := s'.incidents[i]]
    requires Counts(s'.section[i], s'.requests[i], s'.incidents[i])
    ensures SectionInv(s')
  {
    forall j | 0 <= j < |s'.section| ensures Counts(s'.section[j], s'.requests[j], s'.incidents[j]) {
      assert Counts(s.section[j], s.requests[j], s.incidents[j]);
    }
  }

  lemma SectionStepInv(s: State, half: int, i: nat, now: int, a: Answer, s': State)
    requires HolderStep(s, half, i, now, a, s')
    ensures SectionInv(s') && CacheInv(s', half)
  {
    CountsStep(s, half, i, now, a, s');
    CacheStep(s, half, i, now, a, s');
  }

  lemma CacheStep(s: State, half: int, i: nat, now: int, a: Answer, s': State)
    requires HolderStep(s, half, i, now, a, s') && WellFormed(s')
    ensures CacheInv(s', half)
  {
    forall c | c in s'.log ensures c.time <= s'.clock && Covered(s', c, half) {
      CoveredStep(s, half, i, now, a, s', c);
    }
    forall j: nat | j < |s'.section| && s'.lock.pc[j].Held? && Completing(s'.section[j])
      ensures Expired(s', s'.lock.pc[j].topic, half)
    {
      ExpiredStep(s, half, i, now, a, s', j);
    }
  }

  lemma SpacedStep(s: State, half: int, i: nat, now: int, a: Answer, s': State)
    requires HolderStep(s, half, i, now, a, s') && Spaced(s.log, half)
    ensures Spaced(s'.log, half)
  {
    forall k, l | 0 <= k < l < |s'.log| && s'.log[k].topic == s'.log[l].topic
      ensures s'.log[l].time >= s'.log[k].time + half
    {
      assert s.log[k] in s.log;
    }
  }

  lemma HolderStepInv(s: State, half: int, i: nat, now: int, a: Answer, s': State)
    requires Inv(s, half) && now >= s.clock && i < |s.lock.pc| && s.lock.pc[i].Held?
    requires s' == SectionStep(s, i, s.lock.pc[i].topic, half, now, a)
    ensures Inv(s', half)
  {
    forall j: nat | j < |s.lock.pc| && s.lock.pc[j] == s.lock.pc[i] ensures j == i { OneHolder(s, i, j); }
    SectionStepInv(s, half, i, now, a, s');
    SpacedStep(s, half, i, now, a, s');
    assert s'.lock == s.lock;
  }

  lemma StepInv(s: State, half: int, s': State)
    requires Inv(s, half) && Next(s, half, s')
    ensures Inv(s', half)
  {
    if i: nat :| i < |s.lock.pc| && LockStep(s, i, s') {
      LockStepInv(s, half, i, s');
    } else {
      var i: nat, a :| i < |s.lock.pc| && s.lock.pc[i].Held?
                       && s' == SectionStep(s, i, s.lock.pc[i].topic, half, s'.clock, a);
      HolderStepInv(s, half, i, s'.clock, a, s');
    }
  }

  lemma {:induction false} RunInv(run: seq<State>, half: int)
    requires IsRun(run, half)
    ensures Inv(run[|run| - 1], half)
  {
    if |run| == 1 {
      Mutex.InitInv(run[0].lock);
    } else {
      RunInv(run[..|run| - 1], half);
      StepInv(run[|run| - 2], half, run[|run| - 1]);
    }
  }

  /** Once-only completion: in every run of any number of concurrent calls, two successful engine
      completions of one key are at least half the fetch-lock duration apart. */
  lemma CompletionsAreSpaced(run: seq<State>, half: int, k: nat, l: nat)
    requires IsRun(run, half) && k < l < |run[|run| - 1].log|
    requires run[|run| - 1].log[k].topic == run[|run| - 1].log[l].topic
    ensures run[|run| - 1].log[l].time >= run[|run| - 1].log[k].time + half
  {
    RunInv(run, half);
  }

  /** No call sends more than two complete requests or raises more than one incident. */
  lemma RequestsPerCall(run: seq<State>, half: int, i: nat)
    requires IsRun(run, half) && i < |run[|run| - 1].lock.pc|
    ensures var s := run[|run| - 1];
            |s.requests| == |s.incidents| == |s.lock.pc| && s.requests[i] <= 2 && s.incidents[i] <= 1
  {
    RunInv(run, half);
    var s := run[|run| - 1];
    assert Counts(s.section[i], s.requests[i], s.incidents[i]);
  }

  ghost predicate HeldBy(s: State, i: nat) {
    WellFormed(s) && i < |s.lock.pc| && s.lock.pc[i].Held?
  }

  /** A call that has found its task in the cache stays as it is until it unlocks. */
  lemma DoneStep(s: State, half: int, s': State, i: nat)
    requires Next(s, half, s') && i < |s.section| && s.section[i] == Done && s.lock.pc[i].Held?
    requires WellFormed(s') && i < |s'.lock.pc| && s'.lock.pc[i].Held?
    ensures s'.section[i] == Done && s'.requests[i] == s.requests[i] && s'.incidents[i] == s.incidents[i]
  {
    if j: nat :| j < |s.lock.pc| && LockStep(s, j, s') {
      Mutex.StepShape(s.lock, j, s'.lock);
    }
  }

  /** A call is answered from the cache. */
  ghost predicate Hits(s: State, s': State, i: nat) {
    HeldBy(s, i) && HeldBy(s', i) && s.section[i] == Check && s'.section[i] == Done
  }

  lemma HitInRun(run: seq<State>, half: int, k: nat, i: nat)
    requires IsRun(run, half) && k + 1 < |run| && Hits(run[k], run[k + 1], i)
    ensures run[k + 1].requests[i] == 0 && run[k + 1].incidents[i] == 0
    ensures var t := run[k].lock.pc[i].topic; t in run[k].cache && run[k + 1].clock < run[k].cache[t]
  {
    CheckCounts(run[..k + 1], half, i);
    assert Next(run[k], half, run[k + 1]);
    HitStep(run[k], half, run[k + 1], i);
  }

  lemma CheckCounts(run: seq<State>, half: int, i: nat)
    requires IsRun(run, half) && HeldBy(run[|run| - 1], i) && run[|run| - 1].section[i] == Check
    ensures run[|run| - 1].requests[i] == 0 && run[|run| - 1].incidents[i] == 0
  {
    RunInv(run, half);
    var s := run[|run| - 1];
    assert Counts(s.section[i], s.requests[i], s.incidents[i]);
  }

  /** The call is done without a request or an incident. */
  ghost predicate Silent(s: State, i: nat) {
    HeldBy(s, i) && s.section[i] == Done && s.requests[i] == 0 && s.incidents[i] == 0
  }

  lemma SilentStep(run: seq<State>, half: int, m: nat, i: nat)
    requires IsRun(run, half) && m + 1 < |run| && HeldBy(run[m], i) && HeldBy(run[m + 1], i)
    ensures Silent(run[m], i) ==> Silent(run[m + 1], i)
  {
    assert Next(run[m], half, run[m + 1]);
    if Silent(run[m], i) { DoneStep(run[m], half, run[m + 1], i); }
  }

  lemma {:induction false} StaysSilent(run: seq<State>, k: nat, l: nat, i: nat)
    requires k <= l < |run| && Silent(run[k], i)
    requires forall m :: k <= m < l && Silent(run[m], i) ==> Silent(run[m + 1], i)
    ensures Silent(run[l], i)
  {
    if k < l { StaysSilent(run, k, l - 1, i); }
  }

  /** A call answered from the cache sends no request and raises no incident, up to its unlock. */
  lemma CachedCallSendsNothing(run: seq<State>, half: int, k: nat, l: nat, i: nat)
    requires IsRun(run, half) && k < l < |run| && Hits(run[k], run[k + 1], i)
    requires forall m :: k <= m <= l ==> HeldBy(run[m], i)
    ensures Silent(run[l], i)
  {
    HitInRun(run, half, k, i);
    forall m | k < m < l && Silent(run[m], i) ensures Silent(run[m + 1], i) { SilentStep(run, half, m, i); }
    StaysSilent(run, k + 1, l, i);
  }

  lemma HitStep(s: State, half: int, s': State, i: nat)
    requires Next(s, half, s') && WellFormed(s') && i < |s.section| && i < |s'.lock.pc|
    requires s.lock.pc[i].Held? && s'.lock.pc[i].Held?
    requires s.section[i] == Check && s'.section[i] == Done
    ensures s'.requests[i] == s.requests[i] && s'.incidents[i] == s.incidents[i]
    ensures var t := s.lock.pc[i].topic; t in s.cache && s'.clock < s.cache[t]
  {
    if j: nat :| j < |s.lock.pc| && LockStep(s, j, s') {
      Mutex.StepShape(s.lock, j, s'.lock);
    }
  }

  /** A cached key, and one about to be cached, has a completion behind it. */
  ghost predicate Backed(s: State) {
    && WellFormed(s)
    && (forall t :: t in s.cache ==> WasCompleted(s, t))
    && (forall i :: 0 <= i < |s.section| && s.section[i] == Remember && s.lock.pc[i].Held? ==>
         WasCompleted(s, s.lock.pc[i].topic))
  }

  ghost predicate WasCompleted(s: State, t: Topic) {
    exists c :: c in s.log && c.topic == t
  }

  lemma StillCompleted(s: State, s': State, t: Topic)
    requires s.log <= s'.log && WasCompleted(s, t)
    ensures WasCompleted(s', t)
  {
    var c :| c in s.log && c.topic == t;
    assert c in s'.log;
  }

  lemma BackedLockStep(s: State, s': State, j: nat)
    requires Backed(s) && j < |s.lock.pc| && LockStep(s, j, s')
    ensures Backed(s')
  {
    Mutex.StepShape(s.lock, j, s'.lock);
    forall t | WasCompleted(s, t) ensures WasCompleted(s', t) { StillCompleted(s, s', t); }
  }

  lemma BackedSectionStep(s: State, half: int, i: nat, now: int, a: Answer, s': State)
    requires Backed(s) && HeldBy(s, i) && s' == SectionStep(s, i, s.lock.pc[i].topic, half, now, a)
    ensures Backed(s')
  {
    var t := s.lock.pc[i].topic;
    forall u | WasCompleted(s, u) ensures WasCompleted(s', u) { StillCompleted(s, s', u); }
    assert forall j :: 0 <= j < |s.section| && j != i ==> s'.section[j] == s.section[j];
    HolderCompleted(s, half, i, now, a, s');
    assert forall u :: u in s'.cache ==> u == t || u in s.cache;
  }

  /** Behind the entry a holder is about to write, or writes, there is a completion of its key. */
  lemma HolderCompleted(s: State, half: int, i: nat, now: int, a: Answer, s': State)
    requires Backed(s) && HeldBy(s, i) && s' == SectionStep(s, i, s.lock.pc[i].topic, half, now, a)
    ensures s.section[i] == Remember || s'.section[i] == Remember ==> WasCompleted(s', s.lock.pc[i].topic)
    ensures s.section[i] != Remember ==> s'.cache == s.cache
  {
    if s.section[i] == Remember {
      StillCompleted(s, s', s.lock.pc[i].topic);
    } else if s'.section[i] == Remember {
      assert Completed(s.lock.pc[i].topic, s.call[i], i, s.trace[i].nth, s'.clock) in s'.log;
    }
  }

  lemma BackedStep(s: State, half: int, s': State)
    requires Backed(s) && Next(s, half, s')
    ensures Backed(s')
  {
    if j: nat :| j < |s.lock.pc| && LockStep(s, j, s') {
      BackedLockStep(s, s', j);
    } else {
      var i: nat, a :| i < |s.lock.pc| && s.lock.pc[i].Held?
                       && s' == SectionStep(s, i, s.lock.pc[i].topic, half, s'.clock, a);
      BackedSectionStep(s, half, i, s'.clock, a, s');
    }
  }

  lemma {:induction false} RunBacked(run: seq<State>, half: int)
    requires IsRun(run, half)
    ensures Backed(run[|run| - 1])
  {
    if |run| > 1 {
      RunBacked(run[..|run| - 1], half);
      BackedStep(run[|run| - 2], half, run[|run| - 1]);
    }
  }

  /** The key belongs to this task of this tenant only. */
  ghost predicate IsUnique(tenantId: string, taskId: string) {
    forall tenant, task :: Key(tenant, task) == Key(tenantId, taskId) ==> tenant == tenantId && task == taskId
  }

  /** A task shares lock and cache entry with no other exactly if neither its id nor its tenant's holds a '+'. */
  lemma KeyIsUniqueIff(tenantId: string, taskId: string)
    ensures IsUnique(tenantId, taskId) <==> '+' !in tenantId && '+' !in taskId
  {
    if '+' in tenantId {
      var k :| 0 <= k < |tenantId| && tenantId[k] == '+';
      assert Key(tenantId[..k], tenantId[k + 1..] + "+" + taskId) == Key(tenantId, taskId);
    } else if '+' in taskId {
      var k :| 0 <= k < |taskId| && taskId[k] == '+';
      assert Key(tenantId + "+" + taskId[..k], taskId[k + 1..]) == Key(tenantId, taskId);
    } else {
      forall tenant, task | Key(tenant, task) == Key(tenantId, taskId) ensures tenant == tenantId && task == taskId {
        if |tenant| < |tenantId| {
          KeySplitsLate(tenant, task, tenantId, taskId);
        } else if |tenantId| < |tenant| {
          KeySplitsLate(tenantId, taskId, tenant, task);
        }
        var key := Key(tenantId, taskId);
        assert key[..|tenant|] == tenant && key[..|tenant|] == tenantId;
        assert key[|tenant| + 1..] == task && key[|tenant| + 1..] == taskId;
      }
    }
  }

  /** A key that splits at two places has a '+' in the longer tenant id and in the longer task id. */
  lemma KeySplitsLate(tenant1: string, task1: string, tenant2: string, task2: string)
    requires Key(tenant1, task1) == Key(tenant2, task2) && |tenant1| < |tenant2|
    ensures '+' in task1 && '+' in tenant2
  {
    assert Key(tenant2, task2)[|tenant2|] == '+' == Key(tenant1, task1)[|tenant1|];
    assert Key(tenant1, task1)[|tenant2|] == task1[|tenant2| - |tenant1| - 1];
    assert Key(tenant2, task2)[|tenant1|] == tenant2[|tenant1|];
  }

  /** Tasks of two tenants that share a key. */
  lemma KeysCanCollide()
    ensures Key("a", "b+c") == Key("a+b", "c")
  {
    assert "a" + "+" + "b+c" == "a+b" + "+" + "c";
  }

  /** A thread in `Lock`, or holding, has the key of its call; a completion has that of its task. */
  ghost predicate Named(s: State) {
    && WellFormed(s)
    && (forall i :: 0 <= i < |s.call| && ForCall(s.lock.pc[i]) ==> s.lock.pc[i].topic == s.call[i].Topic())
    && (forall c :: c in s.log ==> c.topic == c.call.Topic())
  }

  predicate ForCall(p: Mutex.Pc) {
    p.LockEntry? || p.LockCount? || p.LockFound? || p.LockWait? || p.LockFresh? || p.LockFinish? || p.Held?
  }

  lemma NamedLockStep(s: State, j: nat, s': State)
    requires Named(s) && j < |s.lock.pc| && LockStep(s, j, s')
    ensures Named(s')
  {
    Mutex.StepShape(s.lock, j, s'.lock);
    if ForCall(s'.lock.pc[j]) && !s.lock.pc[j].Idle? { TopicStays(s.lock, j, s'.lock); }
    forall i | 0 <= i < |s'.call| && ForCall(s'.lock.pc[i]) ensures s'.lock.pc[i].topic == s'.call[i].Topic() {
      if i != j { assert s'.lock.pc[i] == s.lock.pc[i] && s'.call[i] == s.call[i]; }
    }
  }

  /** A thread keeps its topic until it has unlocked. */
  lemma TopicStays(s: Mutex.State, j: nat, s': Mutex.State)
    requires j < |s.pc| && Mutex.Next(s, j, s') && ForCall(s'.pc[j]) && !s.pc[j].Idle?
    ensures ForCall(s.pc[j]) && s'.pc[j].topic == s.pc[j].topic
  {
  }

  /** A step of a holder leaves the other threads alone, and logs at most its own completion. */
  lemma SectionFrame(s: State, half: int, i: nat, now: int, a: Answer, s': State)
    requires WellFormed(s) && HeldBy(s, i) && s' == SectionStep(s, i, s.lock.pc[i].topic, half, now, a)
    ensures s'.lock == s.lock && s'.call == s.call
    ensures |s'.trace| == |s.trace| && s'.trace == s.trace[i := s'.trace[i]] && s'.trace[i].nth == s.trace[i].nth
    ensures |s'.section| == |s.section| && s'.section == s.section[i := s'.section[i]]
    ensures |s'.requests| == |s.requests| && s'.requests == s.requests[i := s'.requests[i]]
    ensures |s'.incidents| == |s.incidents| && s'.incidents == s.incidents[i := s'.incidents[i]]
    ensures s'.log == s.log || s'.log == s.log + [Completed(s.lock.pc[i].topic, s.call[i], i, s.trace[i].nth, now)]
  {
    if s.section[i] == First || s.section[i] == Second { SentFrame(s.(clock := now), i, s.lock.pc[i].topic, a); }
  }

  lemma SentFrame(s: State, i: nat, t: Topic, a: Answer)
    requires WellFormed(s) && i < |s.section|
    ensures forall otherwise :: SentFrom(s, i, t, a, Sent(s, i, t, a, otherwise))
  {
  }

  ghost predicate SentFrom(s: State, i: nat, t: Topic, a: Answer, s': State)
    requires WellFormed(s) && i < |s.section|
  {
    && s'.lock == s.lock && s'.call == s.call && WellFormed(s')
    && s'.trace == s.trace[i := s'.trace[i]] && s'.trace[i].nth == s.trace[i].nth
    && s'.section == s.section[i := s'.section[i]] && s'.requests == s.requests[i := s'.requests[i]]
    && s'.incidents == s.incidents
    && (s'.log == s.log || s'.log == s.log + [Completed(t, s.call[i], i, s.trace[i].nth, s.clock)])
  }

  lemma NamedSectionStep(s: State, half: int, i: nat, now: int, a: Answer, s': State)
    requires Named(s) && HeldBy(s, i) && s' == SectionStep(s, i, s.lock.pc[i].topic, half, now, a)
    ensures Named(s')
  {
    assert ForCall(s.lock.pc[i]);
    SectionFrame(s, half, i, now, a, s');
    assert WellFormed(s');
    forall c | c in s'.log ensures c.topic == c.call.Topic() {
      if c !in s.log { assert c == Completed(s.lock.pc[i].topic, s.call[i], i, s.trace[i].nth, now); }
    }
  }

  lemma NamedStep(s: State, half: int, s': State)
    requires Named(s) && Next(s, half, s')
    ensures Named(s')
  {
    if j: nat :| j < |s.lock.pc| && LockStep(s, j, s') {
      NamedLockStep(s, j, s');
    } else {
      var i: nat, a :| i < |s.lock.pc| && s.lock.pc[i].Held?
                       && s' == SectionStep(s, i, s.lock.pc[i].topic, half, s'.clock, a);
      NamedSectionStep(s, half, i, s'.clock, a, s');
    }
  }

  lemma {:induction false} RunNamed(run: seq<State>, half: int)
    requires IsRun(run, half)
    ensures Named(run[|run| - 1])
  {
    if |run| > 1 {
      RunNamed(run[..|run| - 1], half);
      NamedStep(run[|run| - 2], half, run[|run| - 1]);
    }
  }

  /** A call for this task is answered from the cache, in step k. */
  ghost predicate IsHit(run: seq<State>, half: int, k: nat, i: nat, call: Call) {
    IsRun(run, half) && k + 1 < |run| && Hits(run[k], run[k + 1], i) && run[k].call[i] == call
  }

  /** This very task has been completed. */
  ghost predicate HasCompleted(s: State, call: Call) {
    exists c :: c in s.log && c.call == call
  }

  lemma HitIsOwn(run: seq<State>, half: int, k: nat, i: nat, call: Call)
    requires IsHit(run, half, k, i, call) && IsUnique(call.tenantId, call.taskId)
    ensures HasCompleted(run[k], call)
  {
    HitInRun(run, half, k, i);
    RunBacked(run[..k + 1], half);
    RunNamed(run[..k + 1], half);
    var t := call.Topic();
    assert run[k].lock.pc[i].topic == t && WasCompleted(run[k], t);
    var c :| c in run[k].log && c.topic == t;
    assert Key(c.call.tenantId, c.call.taskId) == Key(call.tenantId, call.taskId);
  }

  /** Nobody is in the lock, and the only thread of the run is idle. */
  ghost predicate Resting(s: State) {
    && WellFormed(s) && s.lock.pc == [Mutex.Idle] && s.section == [Outside] && s.requests == [0] && s.incidents == [0]
    && !s.lock.global && s.lock.shared.count == map[] && s.lock.shared.mux == map[]
  }

  /** The only thread holds the key of its call and is about to ask the cache. */
  ghost predicate Asking(s: State, call: Call) {
    var t, m := call.Topic(), |s.lock.shared.heap| - 1;
    && WellFormed(s) && s.lock.pc == [Mutex.Held(t)] && s.section == [Check] && s.requests == [0] && s.incidents == [0]
    && s.call == [call] && m >= 0 && s.lock.shared.heap[m]
    && !s.lock.global && s.lock.shared.count == map[t := 1] && s.lock.shared.mux == map[t := m]
  }

  lemma Extend(run: seq<State>, half: int, s': State)
    requires IsRun(run, half) && Next(run[|run| - 1], half, s')
    ensures IsRun(run + [s'], half)
  {
    forall k | 0 < k < |run + [s']| ensures Next((run + [s'])[k - 1], half, (run + [s'])[k]) {
      if k < |run| { assert Next(run[k - 1], half, run[k]); }
    }
  }

  /** The state after a step of the lock by the only thread. */
  function Locked(s: State, lock: Mutex.State, call: Call): State
    requires WellFormed(s) && |s.lock.pc| == 1
  {
    s.(lock := lock, call := [call], trace := TraceAfter(s, 0),
       section := [if |lock.pc| > 0 && lock.pc[0].Held? then Check else Outside], requests := [0], incidents := [0])
  }

  lemma LockNext(run: seq<State>, half: int, call: Call) returns (run': seq<State>)
    requires IsRun(run, half)
    requires var s := run[|run| - 1];
             && WellFormed(s) && |s.lock.pc| == 1 && Mutex.Enabled(s.lock, 0)
             && (s.lock.pc[0].Held? ==> s.section[0] == Done)
             && (!s.lock.pc[0].Idle? ==> s.call == [call])
    ensures IsRun(run', half) && run <= run' && |run'| == |run| + 1
    ensures var s := run[|run| - 1];
            run'[|run|] == Locked(s, Mutex.After(s.lock, 0, call.Topic()), call)
  {
    var s := run[|run| - 1];
    var lock := Mutex.After(s.lock, 0, call.Topic());
    var s' := Locked(s, lock, call);
    assert Mutex.Next(s.lock, 0, lock);
    assert s.call[0 := call] == [call];
    assert LockStep(s, 0, s');
    Extend(run, half, s');
    run' := run + [s'];
  }

  lemma LockPhase(run: seq<State>, half: int, call: Call) returns (run': seq<State>)
    requires IsRun(run, half) && Resting(run[|run| - 1])
    ensures IsRun(run', half) && run <= run' && Asking(run'[|run'| - 1], call)
    ensures var s, s' := run[|run| - 1], run'[|run'| - 1]; s'.cache == s.cache && s'.log == s.log && s'.clock == s.clock
  {
    var t := call.Topic();
    run' := LockNext(run, half, call);
    assert run'[|run'| - 1].lock.pc == [Mutex.LockEntry(t)];
    run' := LockNext(run', half, call);
    assert run'[|run'| - 1].lock.pc == [Mutex.LockCount(t)];
    run' := LockNext(run', half, call);
    ghost var m := |run[|run| - 1].lock.shared.heap|;
    assert run'[|run'| - 1].lock.pc == [Mutex.LockFresh(t, m)];
    run' := LockNext(run', half, call);
    assert run'[|run'| - 1].lock.pc == [Mutex.LockFinish(t, m)];
    run' := LockNext(run', half, call);
    assert run'[|run'| - 1].lock.pc == [Mutex.Held(t)];
  }

  lemma SectionNext(run: seq<State>, half: int, a: Answer) returns (run': seq<State>)
    requires IsRun(run, half) && HeldBy(run[|run| - 1], 0)
    ensures IsRun(run', half) && run <= run' && |run'| == |run| + 1
    ensures var s := run[|run| - 1]; run'[|run|] == SectionStep(s, 0, s.lock.pc[0].topic, half, s.clock, a)
  {
    var s := run[|run| - 1];
    var s' := SectionStep(s, 0, s.lock.pc[0].topic, half, s.clock, a);
    Extend(run, half, s');
    run' := run + [s'];
  }

  /** Holding the key, with nothing more to do. */
  ghost predicate Leaving(s: State, call: Call) {
    var t, m := call.Topic(), |s.lock.shared.heap| - 1;
    && WellFormed(s) && s.lock.pc == [Mutex.Held(t)] && s.section == [Done] && s.call == [call]
    && m >= 0 && s.lock.shared.heap[m]
    && !s.lock.global && s.lock.shared.count == map[t := 1] && s.lock.shared.mux == map[t := m]
  }

  lemma CompletePhase(run: seq<State>, half: int, call: Call) returns (run': seq<State>)
    requires IsRun(run, half) && Asking(run[|run| - 1], call) && call.Topic() !in run[|run| - 1].cache
    ensures IsRun(run', half) && run <= run' && Leaving(run'[|run'| - 1], call)
    ensures var s, s' := run[|run| - 1], run'[|run'| - 1];
            && s'.cache == s.cache[call.Topic() := s.clock + half] && s'.clock == s.clock
            && |s'.log| == |s.log| + 1 && s'.log[..|s.log|] == s.log && s'.log[|s.log|].call == call
  {
    run' := SectionNext(run, half, Ok);
    assert run'[|run'| - 1].section == [Shard];
    run' := SectionNext(run', half, Ok);
    assert run'[|run'| - 1].section == [First];
    run' := SectionNext(run', half, Ok);
    assert run'[|run'| - 1].section == [Remember];
    run' := SectionNext(run', half, Ok);
    assert run'[|run'| - 1].section == [Done];
  }

  lemma UnlockPhase(run: seq<State>, half: int, call: Call) returns (run': seq<State>)
    requires IsRun(run, half) && Leaving(run[|run| - 1], call)
    ensures IsRun(run', half) && run <= run' && Resting(run'[|run'| - 1])
    ensures var s, s' := run[|run| - 1], run'[|run'| - 1]; s'.cache == s.cache && s'.log == s.log && s'.clock == s.clock
  {
    var t, m := call.Topic(), |run[|run| - 1].lock.shared.heap| - 1;
    run' := LockNext(run, half, call);
    assert run'[|run'| - 1].lock.pc == [Mutex.UnlockEntry(t)];
    run' := LockNext(run', half, call);
    assert run'[|run'| - 1].lock.pc == [Mutex.UnlockCount(t)];
    run' := LockNext(run', half, call);
    assert run'[|run'| - 1].lock.pc == [Mutex.UnlockMux(t, m)];
    run' := LockNext(run', half, call);
    assert run'[|run'| - 1].lock.pc == [Mutex.UnlockExit];
    run' := LockNext(run', half, call);
    assert run'[|run'| - 1].lock.pc == [Mutex.Idle];
  }

  /** A task is answered from the cache although only another one, with the same key, was ever completed. */
  lemma OtherAnswers(half: int, done: Call, call: Call) returns (run: seq<State>, k: nat)
    requires half > 0 && done.Topic() == call.Topic()
    ensures IsHit(run, half, k, 0, call)
    ensures |run[k].log| == 1 && run[k].log[0].call == done
  {
    var s := State(Mutex.State(false, Mutex.Shared(map[], map[], []), [Mutex.Idle]), [done],
                   [Trace(0, false, false, [])], [Outside], [0], [0], map[], 0, []);
    run := [s];
    assert IsRun(run, half) && Resting(s);
    run := LockPhase(run, half, done);
    run := CompletePhase(run, half, done);
    run := UnlockPhase(run, half, done);
    run := LockPhase(run, half, call);
    k := |run| - 1;
    var s' := run[k];
    assert |s'.log| == 1 && s'.log[0].call == done;
    run := SectionNext(run, half, Ok);
    assert run[k] == s';
    assert run[k + 1].section == [Done];
  }

  /** In every run, a call for this task that is answered from the cache comes after a completion of this
      very task. */
  ghost predicate AlwaysOwn(half: int, call: Call) {
    forall run, k: nat, i: nat :: IsHit(run, half, k, i, call) ==> HasCompleted(run[k], call)
  }

  /** What is remembered of a task is its own completion, in every run, exactly if neither its id nor its
      tenant's holds a '+'. */
  lemma RememberedIsOwnIff(half: int, call: Call)
    requires half > 0
    ensures AlwaysOwn(half, call) <==> '+' !in call.tenantId && '+' !in call.taskId
  {
    KeyIsUniqueIff(call.tenantId, call.taskId);
    if IsUnique(call.tenantId, call.taskId) {
      forall run, k: nat, i: nat | IsHit(run, half, k, i, call) ensures HasCompleted(run[k], call) {
        HitIsOwn(run, half, k, i, call);
      }
    } else {
      var tenant, task :| Key(tenant, task) == Key(call.tenantId, call.taskId)
                          && !(tenant == call.tenantId && task == call.taskId);
      var run, k := OtherAnswers(half, Call(tenant, task), call);
      assert IsHit(run, half, k, 0, call) && !HasCompleted(run[k], call);
    }
  }

  /** Two tasks of two tenants: the completion of the first answers for the second, which is never completed. */
  lemma OtherTenantAnswers(half: int) returns (run: seq<State>, k: nat)
    requires half > 0
    ensures IsHit(run, half, k, 0, Call("a+b", "c"))
    ensures |run[k].log| == 1 && run[k].log[0].call == Call("a", "b+c")
  {
    KeysCanCollide();
    run, k := OtherAnswers(half, Call("a", "b+c"), Call("a+b", "c"));
  }
}
