/** What one call of `CompleteTask` has done when it returns: which requests it sent, whether it raised an
    incident, whether it completed its task, and for how long that is remembered. */
module CompletionOutcome {
  import opened Completion
  import Mutex = TopicMutex

  /** Where a call stands, by what it has met: a second request follows a first one that did not succeed, an
      incident a second one that was refused. */
  ghost predicate Fits(p: Section, t: Trace, requests: nat, incidents: nat) {
    && requests == |t.answers|
    && (!t.found ==> t.answers == []) && (t.hit ==> !t.found)
    && match p
       case Outside => true
       case Check => !t.hit && !t.found && incidents == 0
       case Shard => !t.hit && !t.found && incidents == 0
       case First => t.found && t.answers == [] && incidents == 0
       case Second => t.found && |t.answers| == 1 && t.answers[0] != Ok && incidents == 0
       case Report => t.found && |t.answers| == 2 && t.answers[0] != Ok && t.answers[1] == Refused && incidents == 0
       case Remember => t.found && EndsWell(t.answers) && incidents == 0
       case Done => if t.found then Ended(t.answers, incidents) else incidents == 0
  }

  /** Success at the first or at the second request. */
  ghost predicate EndsWell(answers: seq<Answer>) {
    answers == [Ok] || (|answers| == 2 && answers[0] != Ok && answers[1] == Ok)
  }

  /** One request exactly if the first succeeds, else two, and an incident exactly if the second is refused. */
  ghost predicate Ended(answers: seq<Answer>, incidents: nat) {
    && 1 <= |answers| <= 2
    && (|answers| == 1 <==> answers[0] == Ok)
    && incidents == if |answers| == 2 && answers[1] == Refused then 1 else 0
  }

  /** Before it holds its key a call has met nothing. */
  ghost predicate Traced(s: State) {
    && SectionInv(s)
    && (forall i :: 0 <= i < |s.section| && ForCall(s.lock.pc[i]) && !s.lock.pc[i].Held? ==>
         !s.trace[i].hit && !s.trace[i].found && s.trace[i].answers == [])
    && (forall i :: 0 <= i < |s.section| && s.lock.pc[i].Held? ==>
         Fits(s.section[i], s.trace[i], s.requests[i], s.incidents[i]))
  }

  lemma TracedLockStep(s: State, j: nat, s': State)
    requires Traced(s) && SectionInv(s') && j < |s.lock.pc| && LockStep(s, j, s')
    ensures Traced(s')
  {
    Mutex.StepShape(s.lock, j, s'.lock);
    if ForCall(s'.lock.pc[j]) && !s.lock.pc[j].Idle? { TopicStays(s.lock, j, s'.lock); }
    forall i | 0 <= i < |s'.section| && i != j
      ensures s'.lock.pc[i] == s.lock.pc[i] && s'.trace[i] == s.trace[i] && s'.section[i] == s.section[i]
      ensures s'.requests[i] == s.requests[i] && s'.incidents[i] == s.incidents[i] {}
    if ForCall(s'.lock.pc[j]) { HeldComesFirst(s.lock, j, s'.lock); }
  }

  /** A thread that now holds, or is on its way to, was not holding before. */
  lemma HeldComesFirst(s: Mutex.State, j: nat, s': Mutex.State)
    requires j < |s.pc| && Mutex.Next(s, j, s') && ForCall(s'.pc[j])
    ensures !s.pc[j].Held?
  {
  }

  lemma FitsStep(s: State, half: int, i: nat, now: int, a: Answer, s': State)
    requires WellFormed(s) && WellFormed(s') && HeldBy(s, i) && i < |s'.section| && s.section[i] != Outside
    requires s' == SectionStep(s, i, s.lock.pc[i].topic, half, now, a)
    requires Fits(s.section[i], s.trace[i], s.requests[i], s.incidents[i])
    ensures Fits(s'.section[i], s'.trace[i], s'.requests[i], s'.incidents[i])
  {
  }

  lemma TracedSectionStep(s: State, half: int, i: nat, now: int, a: Answer, s': State)
    requires Traced(s) && SectionInv(s') && HeldBy(s, i)
    requires s' == SectionStep(s, i, s.lock.pc[i].topic, half, now, a)
    ensures Traced(s')
  {
    SectionFrame(s, half, i, now, a, s');
    FitsStep(s, half, i, now, a, s');
    AllFit(s, i, s');
  }

  lemma AllFit(s: State, i: nat, s': State)
    requires Traced(s) && SectionInv(s') && HeldBy(s, i) && s'.lock == s.lock
    requires forall j :: 0 <= j < |s.section| && j != i ==> s'.trace[j] == s.trace[j] && s'.section[j] == s.section[j]
    requires forall j :: 0 <= j < |s.section| && j != i ==>
      s'.requests[j] == s.requests[j] && s'.incidents[j] == s.incidents[j]
    requires Fits(s'.section[i], s'.trace[i], s'.requests[i], s'.incidents[i])
    ensures Traced(s')
  {
  }

  lemma TracedStep(s: State, half: int, s': State)
    requires Traced(s) && SectionInv(s') && Next(s, half, s')
    ensures Traced(s')
  {
    if j: nat :| j < |s.lock.pc| && LockStep(s, j, s') {
      TracedLockStep(s, j, s');
    } else {
      var i: nat, a :| i < |s.lock.pc| && s.lock.pc[i].Held?
                       && s' == SectionStep(s, i, s.lock.pc[i].topic, half, s'.clock, a);
      TracedSectionStep(s, half, i, s'.clock, a, s');
    }
  }

  lemma InitTraced(s: State)
    requires Init(s)
    ensures Traced(s)
  {
  }

  lemma {:induction false} RunTraced(run: seq<State>, half: int)
    requires IsRun(run, half)
    ensures Traced(run[|run| - 1])
  {
    if |run| == 1 {
      InitTraced(run[0]);
    } else {
      RunTraced(run[..|run| - 1], half);
      RunInv(run, half);
      TracedStep(run[|run| - 2], half, run[|run| - 1]);
    }
  }

  /** This call of the thread has completed its task. */
  ghost predicate CompletedBy(s: State, i: nat)
    requires i < |s.trace|
  {
    exists c :: c in s.log && c.thread == i && c.nth == s.trace[i].nth
  }

  /** A call is in the log exactly if one of its requests succeeded. */
  ghost predicate Logged(s: State) {
    && WellFormed(s)
    && (forall c :: c in s.log ==> c.thread < |s.trace| && c.nth <= s.trace[c.thread].nth)
    && (forall i :: 0 <= i < |s.trace| ==> (CompletedBy(s, i) <==> Ok in s.trace[i].answers))
  }

  lemma LoggedLockStep(s: State, j: nat, s': State)
    requires Logged(s) && j < |s.lock.pc| && LockStep(s, j, s')
    ensures Logged(s')
  {
    Mutex.StepShape(s.lock, j, s'.lock);
    assert s'.log == s.log;
    forall i | 0 <= i < |s'.trace| ensures CompletedBy(s', i) <==> Ok in s'.trace[i].answers {
      if i != j || !s.lock.pc[j].Idle? {
        assert s'.trace[i] == s.trace[i];
        assert CompletedBy(s', i) <==> CompletedBy(s, i);
      }
    }
  }

  /** A step of a holder logs a completion exactly when it gets the answer Ok. */
  lemma AnswersStep(s: State, half: int, i: nat, now: int, a: Answer, s': State)
    requires WellFormed(s) && WellFormed(s') && HeldBy(s, i) && i < |s'.trace|
    requires s' == SectionStep(s, i, s.lock.pc[i].topic, half, now, a)
    ensures if s'.log == s.log then Ok in s'.trace[i].answers <==> Ok in s.trace[i].answers
            else Ok in s'.trace[i].answers
  {
    var answers, t := s.trace[i].answers, s.lock.pc[i].topic;
    if s.section[i] == First || s.section[i] == Second {
      assert s'.trace[i].answers == answers + [a];
      assert s'.log == s.log <==> a != Ok;
    } else {
      assert s'.trace[i].answers == answers && s'.log == s.log;
    }
  }

  lemma LoggedSectionStep(s: State, half: int, i: nat, now: int, a: Answer, s': State)
    requires Logged(s) && HeldBy(s, i) && s' == SectionStep(s, i, s.lock.pc[i].topic, half, now, a)
    ensures Logged(s')
  {
    SectionFrame(s, half, i, now, a, s');
    AnswersStep(s, half, i, now, a, s');
    LogGrows(s, i, s');
  }

  lemma LogGrows(s: State, i: nat, s': State)
    requires Logged(s) && WellFormed(s') && |s'.trace| == |s.trace| && i < |s.trace|
    requires s'.trace[i].nth == s.trace[i].nth && forall j :: 0 <= j < |s.trace| && j != i ==> s'.trace[j] == s.trace[j]
    requires if s'.log == s.log then Ok in s'.trace[i].answers <==> Ok in s.trace[i].answers
             else |s'.log| == |s.log| + 1 && s'.log[..|s.log|] == s.log && Ok in s'.trace[i].answers
                  && s'.log[|s.log|].thread == i && s'.log[|s.log|].nth == s.trace[i].nth
    ensures Logged(s')
  {
    forall j | 0 <= j < |s'.trace| ensures CompletedBy(s', j) <==> Ok in s'.trace[j].answers {
      assert CompletedBy(s, j) <==> Ok in s.trace[j].answers;
      if c :| c in s.log && c.thread == j && c.nth == s.trace[j].nth {
        assert c in s'.log;
      }
      if s'.log != s.log { assert s'.log[|s.log|] in s'.log; }
    }
  }

  lemma LoggedStep(s: State, half: int, s': State)
    requires Logged(s) && Next(s, half, s')
    ensures Logged(s')
  {
    if j: nat :| j < |s.lock.pc| && LockStep(s, j, s') {
      LoggedLockStep(s, j, s');
    } else {
      var i: nat, a :| i < |s.lock.pc| && s.lock.pc[i].Held?
                       && s' == SectionStep(s, i, s.lock.pc[i].topic, half, s'.clock, a);
      LoggedSectionStep(s, half, i, s'.clock, a, s');
    }
  }

  lemma {:induction false} RunLogged(run: seq<State>, half: int)
    requires IsRun(run, half)
    ensures Logged(run[|run| - 1])
  {
    if |run| > 1 {
      RunLogged(run[..|run| - 1], half);
      LoggedStep(run[|run| - 2], half, run[|run| - 1]);
    }
  }

  /** The outcome of a call, in every run: without its shard, or answered from the cache, it sends nothing.
      Else it sends one request if and only if that succeeds and two otherwise, raises one incident if and only
      if the second was refused, and is logged as the completion of its task if and only if one succeeded. */
  lemma CallOutcome(run: seq<State>, half: int, i: nat)
    requires IsRun(run, half) && HeldBy(run[|run| - 1], i) && run[|run| - 1].section[i] == Done
    ensures var s := run[|run| - 1];
            && s.requests[i] == |s.trace[i].answers| && s.incidents[i] <= 1
            && (s.trace[i].hit || !s.trace[i].found ==> s.requests[i] == 0 && s.incidents[i] == 0 && !CompletedBy(s, i))
            && (s.trace[i].found ==>
                 var answers := s.trace[i].answers;
                 && 1 <= |answers| <= 2
                 && (s.requests[i] == 1 <==> answers[0] == Ok)
                 && (s.incidents[i] == 1 <==> |answers| == 2 && answers[1] == Refused)
                 && (CompletedBy(s, i) <==> answers[0] == Ok || (|answers| == 2 && answers[1] == Ok)))
  {
    RunTraced(run, half);
    RunLogged(run, half);
    var s := run[|run| - 1];
    assert Fits(s.section[i], s.trace[i], s.requests[i], s.incidents[i]);
    var answers := s.trace[i].answers;
    assert answers != [] ==> answers == [answers[0]] + answers[1..];
  }

  /** One step of a holder: the lookup is answered from the cache exactly by an entry that is still valid, and
      `found` records whether the shard was found. */
  lemma LookupIff(s: State, half: int, s': State, i: nat)
    requires Next(s, half, s') && HeldBy(s, i) && HeldBy(s', i) && s.section[i] != s'.section[i]
    ensures s.section[i] == Check ==>
      var t := s.lock.pc[i].topic;
      && (s'.section[i] == Done || s'.section[i] == Shard)
      && (s'.section[i] == Done <==> t in s.cache && s'.clock < s.cache[t])
      && (s'.trace[i].hit <==> s'.section[i] == Done)
    ensures s.section[i] == Shard ==>
      && (s'.section[i] == First || s'.section[i] == Done) && (s'.trace[i].found <==> s'.section[i] == First)
    ensures s.section[i] == Remember ==>
      var t := s.lock.pc[i].topic;
      s'.section[i] == Done && t in s'.cache && s'.cache[t] == s'.clock + half
  {
    if j: nat :| j < |s.lock.pc| && LockStep(s, j, s') {
      Mutex.StepShape(s.lock, j, s'.lock);
      if j == i { HeldComesFirst(s.lock, j, s'.lock); }
    }
  }

  /** No entry is valid for longer than half a lock duration from now. */
  ghost predicate Bounded(s: State, half: int) {
    forall t :: t in s.cache ==> s.cache[t] <= s.clock + half
  }

  lemma EntriesGrow(s: State, half: int, s': State)
    requires Next(s, half, s') && Bounded(s, half)
    ensures Bounded(s', half)
    ensures forall t :: t in s.cache ==> t in s'.cache && s'.cache[t] >= s.cache[t]
  {
    if j: nat :| j < |s.lock.pc| && LockStep(s, j, s') {
      assert s'.cache == s.cache;
    }
  }

  lemma {:induction false} RunBounded(run: seq<State>, half: int)
    requires IsRun(run, half)
    ensures Bounded(run[|run| - 1], half)
  {
    if |run| > 1 {
      RunBounded(run[..|run| - 1], half);
      assert Next(run[|run| - 2], half, run[|run| - 1]);
      EntriesGrow(run[|run| - 2], half, run[|run| - 1]);
    }
  }

  lemma EntryStep(run: seq<State>, half: int, t: Topic, l: nat)
    requires IsRun(run, half) && l + 1 < |run| && t in run[l].cache
    ensures t in run[l + 1].cache && run[l + 1].cache[t] >= run[l].cache[t]
  {
    RunBounded(run[..l + 1], half);
    assert Next(run[l], half, run[l + 1]);
    EntriesGrow(run[l], half, run[l + 1]);
  }

  lemma {:induction false} StaysCached(run: seq<State>, t: Topic, k: nat, l: nat)
    requires k <= l < |run| && t in run[k].cache
    requires forall m :: k <= m < l && t in run[m].cache ==>
      t in run[m + 1].cache && run[m + 1].cache[t] >= run[m].cache[t]
    ensures t in run[l].cache && run[l].cache[t] >= run[k].cache[t]
  {
    if k < l { StaysCached(run, t, k, l - 1); }
  }

  /** Once a successful call has been remembered, every lookup of its key within half a lock duration is
      answered from the cache, by whichever thread. */
  lemma RememberedForHalf(run: seq<State>, half: int, k: nat, i: nat, l: nat, j: nat)
    requires IsRun(run, half) && k < l && l + 1 < |run|
    requires HeldBy(run[k], i) && HeldBy(run[k + 1], i)
    requires run[k].section[i] == Remember && run[k + 1].section[i] == Done
    requires HeldBy(run[l], j) && HeldBy(run[l + 1], j) && run[l].section[j] == Check && run[l + 1].section[j] != Check
    requires run[l].lock.pc[j].topic == run[k].lock.pc[i].topic && run[l + 1].clock < run[k + 1].clock + half
    ensures run[l + 1].section[j] == Done && run[l + 1].trace[j].hit
  {
    assert Next(run[k], half, run[k + 1]) && Next(run[l], half, run[l + 1]);
    LookupIff(run[k], half, run[k + 1], i);
    var t := run[k].lock.pc[i].topic;
    forall m | k + 1 <= m < l && t in run[m].cache
      ensures t in run[m + 1].cache && run[m + 1].cache[t] >= run[m].cache[t]
    {
      EntryStep(run, half, t, m);
    }
    StaysCached(run, t, k + 1, l);
    LookupIff(run[l], half, run[l + 1], j);
  }

  /** Steps a holder still has to make, at most. */
  function SectionSteps(p: Section): nat {
    match p
    case Check => 5
    case Shard => 4
    case First => 3
    case Second => 2
    case Report => 1
    case Remember => 1
    case _ => 0
  }

  /** Every step of a holder moves on: a call is done after five steps at most. */
  lemma SectionAdvances(s: State, half: int, i: nat, t: Topic, now: int, a: Answer)
    requires WellFormed(s) && i < |s.section| && s.section[i] != Done && s.section[i] != Outside
    ensures var s' := SectionStep(s, i, t, half, now, a);
            && WellFormed(s') && SectionSteps(s'.section[i]) < SectionSteps(s.section[i]) && s'.section[i] != Outside
            && (s.section[i] == First || s.section[i] == Second ==>
                 s'.requests[i] == s.requests[i] + 1 && s'.trace[i].answers == s.trace[i].answers + [a])
            && (s.section[i] == Shard ==> (s'.section[i] == First <==> a == Ok))
  {
  }
}
