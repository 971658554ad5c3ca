/** The keyed lock of lib/camunda/topicmutex.go.

    `Lock` and `Unlock` run on any number of threads. Every operation on a Go mutex is a step of
    its own; the map accesses between two of them run under `global` and form one step. Mutex
    objects are numbered in order of allocation, so that a lock that is deleted from `mux` and
    created again is a different object. */
module TopicMutex {

  type Topic = string
  type MutexId = nat

  /** The part of the lock the threads share: `heap[m]` tells whether mutex object `m` is locked. */
  datatype Shared = Shared(count: map<Topic, int>, mux: map<Topic, MutexId>, heap: seq<bool>)

  /** Where a thread stands. */
  datatype Pc =
    | Idle
    | LockEntry(topic: Topic)                // at global.Lock() of Lock
    | LockCount(topic: Topic)                // holds global, before the maps are read
    | LockFound(topic: Topic, m: MutexId)    // holds global, found m, at global.Unlock()
    | LockWait(topic: Topic, m: MutexId)     // at mux.Lock() on an object others share
    | LockFresh(topic: Topic, m: MutexId)    // holds global, at mux.Lock() on its new object
    | LockFinish(topic: Topic, m: MutexId)   // holds global and m, at global.Unlock()
    | Held(topic: Topic)                     // Lock has returned
    | UnlockEntry(topic: Topic)              // at global.Lock() of Unlock
    | UnlockCount(topic: Topic)              // holds global, before the maps are read
    | UnlockMux(topic: Topic, m: MutexId)    // holds global, at mux.Unlock()
    | UnlockExit                             // holds global, at the deferred global.Unlock()
  {
    /** Inside `Lock`, with the mutex object it has found or made. */
    predicate Locking() {
      LockFound? || LockWait? || LockFresh? || LockFinish?
    }

    predicate HoldsGlobal() {
      LockCount? || LockFound? || LockFresh? || LockFinish? || UnlockCount? || UnlockMux? || UnlockExit?
    }

    /** The thread is counted in count[t]: it waits for t or holds it. */
    predicate Counted(t: Topic) {
      (LockFound? || LockWait? || LockFresh? || LockFinish? || Held? || UnlockEntry? || UnlockCount?) && topic == t
    }

    /** Between `Lock(t)` returning and `Unlock(t)` giving the mutex object back. */
    predicate Inside(t: Topic) {
      (Held? || UnlockEntry? || UnlockCount?) && topic == t
    }
  }

  datatype State = State(global: bool, shared: Shared, pc: seq<Pc>)

  function CountOf(sh: Shared, t: Topic): int {
    if t in sh.count then sh.count[t] else 0
  }

  /** Lines 35-43: count the caller, then find the topic's mutex object or make one. */
  function Register(sh: Shared, t: Topic): (Shared, MutexId, bool) {
    var count := sh.count[t := CountOf(sh, t) + 1];
    if t in sh.mux then
      (sh.(count := count), sh.mux[t], true)
    else
      (Shared(count, sh.mux[t := |sh.heap|], sh.heap + [false]), |sh.heap|, false)
  }

  /** Lines 52-59: give the count back; drop the entries of a topic nobody is interested in. */
  function Deregister(sh: Shared, t: Topic): (Shared, Pc) {
    var count := CountOf(sh, t) - 1;
    var counts := if count < 1 then sh.count - {t} else sh.count[t := count];
    if t in sh.mux then
      (sh.(count := counts, mux := if count < 1 then sh.mux - {t} else sh.mux), UnlockMux(t, sh.mux[t]))
    else
      (sh.(count := counts), UnlockExit)
  }

  /** The lock as the object the Go methods change. `Lock` and `Unlock` run these two sections while
      they hold `global`. */
  class TopicMutexObject {
    var count: map<Topic, int>
    var mux: map<Topic, MutexId>
    var heap: seq<bool>

    function View(): Shared
      reads this
    {
      Shared(count, mux, heap)
    }

    constructor ()
      ensures View() == Shared(map[], map[], [])
    {
      count, mux, heap := map[], map[], [];
    }

    /** The section of `Lock`, up to the branch on `found`. */
    method LockSection(topic: Topic) returns (m: MutexId, found: bool)
      modifies this
      ensures (View(), m, found) == Register(old(View()), topic)
    {
      count := count[topic := (if topic in count then count[topic] else 0) + 1];
      found := topic in mux;
      if found {
        m := mux[topic];
      } else {
        m := |heap|;
        heap := heap + [false];
        mux := mux[topic := m];
      }
    }

    /** The section of `Unlock`, up to mux.Unlock(); `next` is that call or the deferred one. */
    method UnlockSection(topic: Topic) returns (next: Pc)
      modifies this
      ensures (View(), next) == Deregister(old(View()), topic)
    {
      var c := (if topic in count then count[topic] else 0) - 1;
      count := count[topic := c];
      if c < 1 {
        count := count - {topic};
      }
      next := UnlockExit;
      if topic in mux {
        next := UnlockMux(topic, mux[topic]);
        if c < 1 {
          mux := mux - {topic};
        }
      }
      assert c < 1 ==> old(count) - {topic} == count;
    }
  }

  /** Thread i is not stopped at a locked mutex, nor about to unlock one that is not locked, which
      would end the Go program. */
  predicate Enabled(s: State, i: nat)
    requires i < |s.pc|
  {
    match s.pc[i]
    case LockEntry(_) => !s.global
    case UnlockEntry(_) => !s.global
    case LockWait(_, m) => m < |s.shared.heap| && !s.shared.heap[m]
    case LockFresh(_, m) => m < |s.shared.heap| && !s.shared.heap[m]
    case UnlockMux(_, m) => m < |s.shared.heap| && s.shared.heap[m]
    case _ => true
  }

  /** The state after a step of thread i. An idle thread calls `Lock(call)`; only a thread that holds
      a topic calls `Unlock`, and it unlocks that topic. */
  function After(s: State, i: nat, call: Topic): State
    requires i < |s.pc| && Enabled(s, i)
  {
    match s.pc[i]
    case Idle => s.(pc := s.pc[i := LockEntry(call)])
    case LockEntry(t) => s.(global := true, pc := s.pc[i := LockCount(t)])
    case LockCount(t) =>
      var (sh, m, found) := Register(s.shared, t);
      s.(shared := sh, pc := s.pc[i := if found then LockFound(t, m) else LockFresh(t, m)])
    case LockFound(t, m) => s.(global := false, pc := s.pc[i := LockWait(t, m)])
    case LockWait(t, m) => s.(shared := SetMutex(s.shared, m, true), pc := s.pc[i := Held(t)])
    case LockFresh(t, m) => s.(shared := SetMutex(s.shared, m, true), pc := s.pc[i := LockFinish(t, m)])
    case LockFinish(t, m) => s.(global := false, pc := s.pc[i := Held(t)])
    case Held(t) => s.(pc := s.pc[i := UnlockEntry(t)])
    case UnlockEntry(t) => s.(global := true, pc := s.pc[i := UnlockCount(t)])
    case UnlockCount(t) =>
      var (sh, p) := Deregister(s.shared, t);
      s.(shared := sh, pc := s.pc[i := p])
    case UnlockMux(t, m) => s.(shared := SetMutex(s.shared, m, false), pc := s.pc[i := UnlockExit])
    case UnlockExit => s.(global := false, pc := s.pc[i := Idle])
  }

  function SetMutex(sh: Shared, m: MutexId, locked: bool): Shared
    requires m < |sh.heap|
  {
    sh.(heap := sh.heap[m := locked])
  }

  ghost predicate Next(s: State, i: nat, s': State)
    requires i < |s.pc|
  {
    Enabled(s, i) && i < |s'.pc| && s' == After(s, i, if s'.pc[i].LockEntry? then s'.pc[i].topic else "")
  }

  ghost predicate Init(s: State) {
    !s.global && s.shared == Shared(map[], map[], []) && forall i :: 0 <= i < |s.pc| ==> s.pc[i] == Idle
  }

  ghost predicate Step(s: State, s': State) {
    exists i: nat :: i < |s.pc| && Next(s, i, s')
  }

  /** A run: each state follows from the one before it by a step of some thread. */
  ghost predicate IsRun(run: seq<State>) {
    && |run| > 0 && Init(run[0])
    && forall k :: 0 < k < |run| ==> Step(run[k - 1], run[k])
  }

  /** Number of threads counted for topic t. */
  function Interest(pc: seq<Pc>, t: Topic): nat {
    if |pc| == 0 then 0
    else Interest(pc[..|pc| - 1], t) + if pc[|pc| - 1].Counted(t) then 1 else 0
  }

  /** Thread i is the one that locked mutex object m and has not unlocked it. */
  predicate Owns(s: State, i: nat, m: MutexId)
    requires i < |s.pc|
  {
    var p := s.pc[i];
    if p.LockFinish? || p.UnlockMux? then p.m == m
    else (p.Held? || p.UnlockEntry? || p.UnlockCount?) && p.topic in s.shared.mux && s.shared.mux[p.topic] == m
  }

  /** `global` is locked exactly while one thread is in a section that holds it. */
  ghost predicate GlobalInv(s: State) {
    && (forall i :: 0 <= i < |s.pc| && s.pc[i].HoldsGlobal() ==> s.global)
    && (s.global ==> exists i :: 0 <= i < |s.pc| && s.pc[i].HoldsGlobal())
    && (forall i, j :: 0 <= i < j < |s.pc| ==> !(s.pc[i].HoldsGlobal() && s.pc[j].HoldsGlobal()))
  }

  /** The counters count, and `mux` holds exactly the counted topics. */
  ghost predicate CountInv(s: State) {
    && (forall t {:trigger t in s.shared.count} :: t in s.shared.count <==> Interest(s.pc, t) > 0)
    && (forall t :: t in s.shared.count ==> s.shared.count[t] == Interest(s.pc, t))
    && s.shared.mux.Keys == s.shared.count.Keys
  }

  /** Every thread that is counted for t refers to the object now in mux[t]. */
  ghost predicate ObjectInv(s: State) {
    && (forall t :: t in s.shared.mux ==> s.shared.mux[t] < |s.shared.heap|)
    && (forall t, u :: t in s.shared.mux && u in s.shared.mux && s.shared.mux[t] == s.shared.mux[u] ==> t == u)
    && (forall i :: 0 <= i < |s.pc| && s.pc[i].Locking() ==>
         s.pc[i].topic in s.shared.mux && s.shared.mux[s.pc[i].topic] == s.pc[i].m)
    && (forall i :: 0 <= i < |s.pc| && s.pc[i].UnlockMux? ==>
         s.pc[i].m < |s.shared.heap| && forall t :: t in s.shared.mux && s.shared.mux[t] == s.pc[i].m ==>
           t == s.pc[i].topic)
    && (forall i :: 0 <= i < |s.pc| && s.pc[i].LockFresh? ==> Interest(s.pc, s.pc[i].topic) == 1)
  }

  /** A mutex object is locked exactly while one thread owns it. */
  ghost predicate OwnerInv(s: State) {
    && (forall i, j, m: nat :: 0 <= i < |s.pc| && 0 <= j < |s.pc| && Owns(s, i, m) && Owns(s, j, m) ==> i == j)
    && (forall i, m: nat :: 0 <= i < |s.pc| && Owns(s, i, m) ==> m < |s.shared.heap| && s.shared.heap[m])
    && (forall m: nat :: m < |s.shared.heap| && s.shared.heap[m] ==> exists i :: 0 <= i < |s.pc| && Owns(s, i, m))
  }

  ghost predicate Inv(s: State) {
    GlobalInv(s) && CountInv(s) && ObjectInv(s) && OwnerInv(s)
  }

  lemma {:induction false} InterestUpdate(pc: seq<Pc>, i: nat, p: Pc, t: Topic)
    requires i < |pc|
    ensures Interest(pc[i := p], t) + (if pc[i].Counted(t) then 1 else 0)
         == Interest(pc, t) + if p.Counted(t) then 1 else 0
  {
    var n := |pc| - 1;
    if i < n {
      assert pc[i := p][..n] == pc[..n][i := p];
      InterestUpdate(pc[..n], i, p, t);
    } else {
      assert pc[i := p][..n] == pc[..n];
    }
  }

  lemma {:induction false} InterestCounts(pc: seq<Pc>, i: nat, t: Topic)
    requires i < |pc| && pc[i].Counted(t)
    ensures Interest(pc, t) > 0
    ensures Interest(pc, t) == 1 ==> forall j :: 0 <= j < |pc| && pc[j].Counted(t) ==> j == i
  {
    forall j | 0 <= j < |pc| && pc[j].Counted(t) && j != i
      ensures Interest(pc, t) > 1
    {
      InterestUpdate(pc, i, Idle, t);
      var pc' := pc[i := Idle];
      InterestUpdate(pc', j, Idle, t);
    }
    InterestUpdate(pc, i, Idle, t);
  }

  lemma {:induction false} InterestZero(pc: seq<Pc>, t: Topic)
    requires forall i :: 0 <= i < |pc| ==> !pc[i].Counted(t)
    ensures Interest(pc, t) == 0
  {
    if |pc| > 0 { InterestZero(pc[..|pc| - 1], t); }
  }

  lemma InitInv(s: State)
    requires Init(s)
    ensures Inv(s)
  {
    forall t { InterestZero(s.pc, t); }
  }

  /** What a step does to the topic maps: only the two sections under `global` change them. */
  ghost predicate Shape(s: State, i: nat, s': State)
    requires i < |s.pc|
  {
    && |s'.pc| == |s.pc| && s'.pc == s.pc[i := s'.pc[i]]
    && var p, p' := s.pc[i], s'.pc[i];
       if p.LockCount? then
         var (sh, m, found) := Register(s.shared, p.topic);
         s'.shared == sh && p' == if found then LockFound(p.topic, m) else LockFresh(p.topic, m)
       else if p.UnlockCount? then
         s'.shared == Deregister(s.shared, p.topic).0 && p' == Deregister(s.shared, p.topic).1
       else
         && s'.shared == s.shared.(heap := s'.shared.heap) && |s'.shared.heap| == |s.shared.heap|
         && (forall t :: p.Counted(t) == p'.Counted(t))
         && (p'.LockFound? || p'.LockWait? || p'.LockFresh? || p'.LockFinish? ==>
              (p.LockFound? || p.LockWait? || p.LockFresh? || p.LockFinish?) && p.topic == p'.topic && p.m == p'.m)
         && !p'.UnlockMux? && !p'.LockFresh?
  }

  lemma StepShape(s: State, i: nat, s': State)
    requires i < |s.pc| && Next(s, i, s')
    ensures Shape(s, i, s')
  {
  }

  /** What the step does to the counters of every topic. */
  lemma InterestStep(s: State, i: nat, s': State)
    requires i < |s.pc| && Shape(s, i, s')
    ensures forall t :: Interest(s'.pc, t) + (if s.pc[i].Counted(t) then 1 else 0)
                     == Interest(s.pc, t) + (if s'.pc[i].Counted(t) then 1 else 0)
  {
    forall t { InterestUpdate(s.pc, i, s'.pc[i], t); }
  }

  lemma GlobalStep(s: State, i: nat, s': State)
    requires i < |s.pc| && Next(s, i, s') && GlobalInv(s)
    ensures GlobalInv(s')
  {
    if s'.global {
      if s'.pc[i].HoldsGlobal() {
      } else {
        assert exists k :: 0 <= k < |s.pc| && s.pc[k].HoldsGlobal();
        var k :| 0 <= k < |s.pc| && s.pc[k].HoldsGlobal();
        assert k != i;
        assert s'.pc[k].HoldsGlobal();
      }
    }
  }

  lemma CountStep(s: State, i: nat, s': State)
    requires i < |s.pc| && Shape(s, i, s') && CountInv(s)
    ensures CountInv(s')
  {
    InterestStep(s, i, s');
    if s.pc[i].UnlockCount? { InterestCounts(s.pc, i, s.pc[i].topic); }
  }

  /** The topic of a counted thread has an entry in both maps; the entry of another thread's topic
      survives every step, with the same mutex object. */
  lemma EntriesStay(s: State, i: nat, s': State, k: nat, t: Topic)
    requires i < |s.pc| && Shape(s, i, s') && CountInv(s)
    requires k < |s.pc| && s.pc[k].Counted(t)
    ensures t in s.shared.mux && s.shared.count[t] > 0
    ensures k != i || !s.pc[i].UnlockCount? ==> t in s'.shared.mux && s'.shared.mux[t] == s.shared.mux[t]
  {
    InterestCounts(s.pc, k, t);
    if s.pc[i].UnlockCount? && s.pc[i].topic == t { InterestCounts(s.pc, i, t); }
  }

  /** Topic entries come and go, but never share a mutex object. */
  lemma MuxStep(s: State, i: nat, s': State)
    requires i < |s.pc| && Shape(s, i, s') && Inv(s)
    ensures forall t :: t in s'.shared.mux ==> s'.shared.mux[t] < |s'.shared.heap|
    ensures forall t, u :: t in s'.shared.mux && u in s'.shared.mux && s'.shared.mux[t] == s'.shared.mux[u] ==> t == u
    ensures forall t :: t in s'.shared.mux && s'.shared.mux[t] < |s.shared.heap| ==>
      t in s.shared.mux && s.shared.mux[t] == s'.shared.mux[t]
    ensures |s.shared.heap| <= |s'.shared.heap|
  {
  }

  lemma ObjectStep(s: State, i: nat, s': State)
    requires i < |s.pc| && Shape(s, i, s') && Inv(s)
    ensures ObjectInv(s')
  {
    MuxStep(s, i, s');
    LockingStep(s, i, s');
    FreshStep(s, i, s');
  }

  /** A thread inside `Lock` keeps referring to the object of its topic. */
  lemma LockingStep(s: State, i: nat, s': State)
    requires i < |s.pc| && Shape(s, i, s') && Inv(s)
    ensures forall k :: 0 <= k < |s'.pc| && s'.pc[k].Locking() ==>
      s'.pc[k].topic in s'.shared.mux && s'.shared.mux[s'.pc[k].topic] == s'.pc[k].m
  {
    forall k: nat | k < |s'.pc| && s'.pc[k].Locking()
      ensures s'.pc[k].topic in s'.shared.mux && s'.shared.mux[s'.pc[k].topic] == s'.pc[k].m
    {
      if k != i || !s.pc[i].LockCount? { EntriesStay(s, i, s', k, s'.pc[k].topic); }
    }
  }

  /** Nobody else is counted for a topic whose object is being made. */
  lemma FreshStep(s: State, i: nat, s': State)
    requires i < |s.pc| && Shape(s, i, s') && Inv(s)
    ensures forall k :: 0 <= k < |s'.pc| && s'.pc[k].LockFresh? ==> Interest(s'.pc, s'.pc[k].topic) == 1
  {
    forall k: nat | k < |s'.pc| && s'.pc[k].LockFresh?
      ensures Interest(s'.pc, s'.pc[k].topic) == 1
    {
      InterestUpdate(s.pc, i, s'.pc[i], s'.pc[k].topic);
    }
  }

  /** Other threads own after the step what they owned before. */
  lemma OthersOwn(s: State, i: nat, s': State, k: nat, m: MutexId)
    requires i < |s.pc| && Next(s, i, s') && CountInv(s)
    requires k < |s.pc| && k != i
    ensures Owns(s', k, m) == Owns(s, k, m)
  {
    StepShape(s, i, s');
    var p := s.pc[k];
    if p.Held? || p.UnlockEntry? || p.UnlockCount? { EntriesStay(s, i, s', k, p.topic); }
  }

  /** Ownership after a step of thread i: it gains the object it locks and loses the one it unlocks. */
  predicate OwnsAfter(s: State, i: nat, k: nat, m: MutexId)
    requires i < |s.pc| && k < |s.pc|
  {
    if k == i && (s.pc[i].LockWait? || s.pc[i].LockFresh?) then m == s.pc[i].m
    else if k == i && s.pc[i].UnlockMux? then false
    else Owns(s, k, m)
  }

  lemma OwnOwn(s: State, i: nat, s': State, m: MutexId)
    requires i < |s.pc| && Next(s, i, s') && Inv(s)
    ensures Owns(s', i, m) == OwnsAfter(s, i, i, m)
  {
    StepShape(s, i, s');
    var p := s.pc[i];
    if p.LockWait? || p.LockFinish? || p.LockFresh? || p.UnlockCount? || p.Held? || p.UnlockEntry? {
      EntriesStay(s, i, s', i, p.topic);
    }
  }

  lemma OwnerStep(s: State, i: nat, s': State)
    requires i < |s.pc| && Next(s, i, s') && Inv(s)
    ensures OwnerInv(s')
  {
    StepShape(s, i, s');
    forall k: nat, m: nat | k < |s.pc|
      ensures Owns(s', k, m) == OwnsAfter(s, i, k, m)
    {
      if k == i { OwnOwn(s, i, s', m); } else { OthersOwn(s, i, s', k, m); }
    }
    forall k: nat, m: nat | k < |s.pc| && Owns(s', k, m)
      ensures m < |s'.shared.heap| && s'.shared.heap[m]
    {
      if s.pc[i].UnlockMux? { assert Owns(s, i, s.pc[i].m); }
      assert OwnsAfter(s, i, k, m);
    }
    forall m: nat | m < |s'.shared.heap| && s'.shared.heap[m]
      ensures exists k :: 0 <= k < |s'.pc| && Owns(s', k, m)
    {
      if (s.pc[i].LockWait? || s.pc[i].LockFresh?) && m == s.pc[i].m {
        assert Owns(s', i, m);
      } else {
        assert m < |s.shared.heap| && s.shared.heap[m];
        var k :| 0 <= k < |s.pc| && Owns(s, k, m);
        assert Owns(s', k, m);
      }
    }
  }

  lemma StepInv(s: State, s': State)
    requires Inv(s) && Step(s, s')
    ensures Inv(s')
  {
    var i: nat :| i < |s.pc| && Next(s, i, s');
    StepShape(s, i, s');
    GlobalStep(s, i, s');
    CountStep(s, i, s');
    ObjectStep(s, i, s');
    OwnerStep(s, i, s');
  }

  lemma {:induction false} RunInv(run: seq<State>)
    requires IsRun(run)
    ensures Inv(run[|run| - 1])
  {
    if |run| == 1 {
      InitInv(run[0]);
    } else {
      RunInv(run[..|run| - 1]);
      StepInv(run[|run| - 2], run[|run| - 1]);
    }
  }

  lemma InsideOwns(s: State, i: nat, t: Topic)
    requires Inv(s) && i < |s.pc| && s.pc[i].Inside(t)
    ensures t in s.shared.mux && Owns(s, i, s.shared.mux[t])
  {
    InterestCounts(s.pc, i, t);
  }

  /** Mutual exclusion: in every run of any number of threads, at most one is inside a topic. */
  lemma MutualExclusion(run: seq<State>, k: nat, i: nat, j: nat, t: Topic)
    requires IsRun(run) && k < |run| && i < |run[k].pc| && j < |run[k].pc|
    requires run[k].pc[i].Inside(t) && run[k].pc[j].Inside(t)
    ensures i == j
  {
    RunInv(run[..k + 1]);
    InsideOwns(run[k], i, t);
    InsideOwns(run[k], j, t);
  }

  /** Who waits for topic t or holds it while no thread is in a `global` section. */
  predicate WaitsOrHolds(p: Pc, t: Topic) {
    (p.LockWait? && p.topic == t) || (p.Held? && p.topic == t) || (p.UnlockEntry? && p.topic == t)
  }

  function WaitersAndHolder(pc: seq<Pc>, t: Topic): nat {
    if |pc| == 0 then 0
    else WaitersAndHolder(pc[..|pc| - 1], t) + if WaitsOrHolds(pc[|pc| - 1], t) then 1 else 0
  }

  lemma {:induction false} InterestIsWaitersAndHolder(pc: seq<Pc>, t: Topic)
    requires forall i :: 0 <= i < |pc| ==> !pc[i].HoldsGlobal()
    ensures Interest(pc, t) == WaitersAndHolder(pc, t)
  {
    if |pc| > 0 { InterestIsWaitersAndHolder(pc[..|pc| - 1], t); }
  }

  /** Counting: while `global` is free, count[t] is the number of waiters and holders of t, and both
      maps hold exactly the topics somebody waits for or holds. With all threads idle, both are empty. */
  lemma Counting(run: seq<State>, k: nat, t: Topic)
    requires IsRun(run) && k < |run| && !run[k].global
    ensures CountOf(run[k].shared, t) == WaitersAndHolder(run[k].pc, t)
    ensures t in run[k].shared.mux <==> WaitersAndHolder(run[k].pc, t) > 0
    ensures t in run[k].shared.count <==> WaitersAndHolder(run[k].pc, t) > 0
    ensures (forall i :: 0 <= i < |run[k].pc| ==> run[k].pc[i] == Idle) ==>
      run[k].shared.mux == map[] && run[k].shared.count == map[]
  {
    RunInv(run[..k + 1]);
    var s := run[k];
    InterestIsWaitersAndHolder(s.pc, t);
    if forall i :: 0 <= i < |s.pc| ==> s.pc[i] == Idle {
      forall u { InterestZero(s.pc, u); }
      assert s.shared.count.Keys == {};
      assert s.shared.mux.Keys == {};
    }
  }

  /** A thread inside a `global` section never blocks there: not at the mutex object it has just made,
      and not by unlocking a mutex that is not locked. */
  lemma GlobalSectionNeverBlocks(run: seq<State>, k: nat, i: nat)
    requires IsRun(run) && k < |run| && i < |run[k].pc| && run[k].pc[i].HoldsGlobal()
    ensures Enabled(run[k], i)
  {
    RunInv(run[..k + 1]);
    var s := run[k];
    if s.pc[i].LockFresh? && s.shared.heap[s.pc[i].m] {
      var t, m := s.pc[i].topic, s.pc[i].m;
      var j :| 0 <= j < |s.pc| && Owns(s, j, m);
      if s.pc[j].Held? || s.pc[j].UnlockEntry? || s.pc[j].UnlockCount? {
        InterestCounts(s.pc, j, s.pc[j].topic);
      }
      InterestCounts(s.pc, i, t);
      assert false;
    }
    if s.pc[i].UnlockMux? { assert Owns(s, i, s.pc[i].m); }
  }

  /** No deadlock: as long as some thread is not idle, some non-idle thread has a step, provided that
      a thread that holds a topic eventually calls `Unlock` (the step from Held). */
  lemma Progress(run: seq<State>, k: nat, i: nat)
    requires IsRun(run) && k < |run| && i < |run[k].pc| && !run[k].pc[i].Idle?
    ensures exists j: nat :: j < |run[k].pc| && !run[k].pc[j].Idle? && Enabled(run[k], j)
  {
    RunInv(run[..k + 1]);
    var s := run[k];
    if s.global {
      var j: nat :| j < |s.pc| && s.pc[j].HoldsGlobal();
      GlobalSectionNeverBlocks(run, k, j);
      assert !s.pc[j].Idle?;
    } else if s.pc[i].LockWait? && s.shared.heap[s.pc[i].m] {
      var j: nat :| j < |s.pc| && Owns(s, j, s.pc[i].m);
      assert Enabled(s, j);
    } else {
        assert Enabled(s, i);
    }
  }

  /** Steps of its own a thread in `Lock` still has to make until it holds, or one in `Unlock` until it is idle. */
  function StepsLeft(p: Pc): nat {
    match p
    case LockEntry(_) => 4
    case LockCount(_) => 3
    case LockFound(_, _) => 2
    case LockFresh(_, _) => 2
    case LockWait(_, _) => 1
    case LockFinish(_, _) => 1
    case UnlockEntry(_) => 4
    case UnlockCount(_) => 3
    case UnlockMux(_, _) => 2
    case UnlockExit => 1
    case _ => 0
  }

  /** In `Lock` of this topic, or holding it. */
  predicate LockingTopic(p: Pc, t: Topic) {
    match p
    case LockEntry(u) => u == t
    case LockCount(u) => u == t
    case LockFound(u, _) => u == t
    case LockFresh(u, _) => u == t
    case LockWait(u, _) => u == t
    case LockFinish(u, _) => u == t
    case Held(u) => u == t
    case _ => false
  }

  /** No step is spent in vain: in `Lock` each brings a thread closer to holding its topic, in `Unlock` to being
      idle, and a thread that holds or is idle leaves by calling `Unlock` of its topic or `Lock`. */
  lemma StepsAdvance(s: State, i: nat, s': State)
    requires i < |s.pc| && Next(s, i, s') && i < |s'.pc|
    ensures forall t :: LockingTopic(s.pc[i], t) && !s.pc[i].Held? ==>
      LockingTopic(s'.pc[i], t) && StepsLeft(s'.pc[i]) < StepsLeft(s.pc[i])
    ensures s.pc[i].Held? ==> s'.pc[i] == UnlockEntry(s.pc[i].topic)
    ensures s.pc[i].Idle? ==> s'.pc[i].LockEntry?
    ensures s.pc[i].UnlockEntry? || s.pc[i].UnlockCount? || s.pc[i].UnlockMux? || s.pc[i].UnlockExit? ==>
      && StepsLeft(s'.pc[i]) < StepsLeft(s.pc[i])
      && (s'.pc[i].UnlockCount? || s'.pc[i].UnlockMux? || s'.pc[i].UnlockExit? || s'.pc[i].Idle?)
  {
  }
}
