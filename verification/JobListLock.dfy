/** The two-stage lock around the multiplexer's job list: lockJobListLock, lockJobList and
    unlockJobList, run by one service thread and any number of editing threads.

    A step is what a thread does between acquiring the shared mutex and releasing it (by leaving
    the function or by going to sleep on a condition variable).  Each condition variable has an
    explicit wait set.  A signal names the thread it wakes, so a run is a sequence of steps. */
module JobListLock {
  import opened Options

  type Thread = nat

  /** Where a thread is.  `Taking...` covers the test-and-sleep loop: the thread is asleep if it is
      in the wait set and is otherwise about to test the flag (again). */
  datatype Place =
    | Outside
    | AwaitingJobs        // service thread, loop on m_jobsReady
    | TakingLockLock      // inside lockJobListLock
    | HasLockLock         // returned from lockJobListLock
    | TakingList          // inside lockJobList, past its assertion
    | HasList             // returned from lockJobList

  datatype State = State(
    service: Thread,
    place: map<Thread, Place>,
    lockLocked: bool,               // m_jobListLockLocked
    lockLocker: Option<Thread>,     // m_jobListLockLocker
    lockWaiters: set<Thread>,       // asleep on m_jobListLockLocked
    listLocked: bool,               // m_jobListLock
    listLocker: Option<Thread>,     // m_jobListLocker
    listWaiters: set<Thread>,       // asleep on m_jobListLock
    jobsReady: bool,                // m_jobsReady
    readyWaiters: set<Thread>,      // asleep on m_jobsReady
    mapEmpty: bool)                 // m_socketJobMap.empty()
  {
    function At(t: Thread): Place { if t in place then place[t] else Outside }

    ghost predicate Asleep(t: Thread) { t in lockWaiters || t in listWaiters || t in readyWaiters }

    function Move(t: Thread, p: Place): State { this.(place := place[t := p]) }
  }

  function Initial(service: Thread): State {
    State(service, map[], false, None, {}, false, None, {}, false, {}, true)
  }

  datatype Step =
    | AwaitJobs(t: Thread)                  // service thread enters the loop on m_jobsReady
    | TestJobs(t: Thread)                   // tests m_jobsReady: leave or sleep
    | EnterLockLock(t: Thread)              // calls lockJobListLock
    | TestLockLock(t: Thread)               // tests m_jobListLockLocked: take it or sleep
    | EnterList(t: Thread)                  // calls lockJobList, passing its assertion
    | TestList(t: Thread)                   // tests m_jobListLock: take it or sleep
    | InsertSocket(t: Thread)               // the holder adds a map entry
    | SweepMap(t: Thread, empty: bool)      // the service thread erases dead map entries
    | Unlock(t: Thread, woken: Option<Thread>, wokenReady: Option<Thread>)
    | WakeSpuriously(t: Thread)

  /** A signal wakes one waiter, whichever the platform likes, and nobody if nobody waits. */
  ghost predicate Signals(waiters: set<Thread>, woken: Option<Thread>) {
    match woken
    case None => waiters == {}
    case Some(w) => w in waiters
  }

  function Woken(waiters: set<Thread>, woken: Option<Thread>): set<Thread> {
    match woken
    case None => waiters
    case Some(w) => waiters - {w}
  }

  /** Whether the step's thread is at the right place and awake.  The owner assertions of the source
      are NOT part of this: that they hold is a theorem below. */
  ghost predicate Enabled(s: State, step: Step) {
    match step
    case AwaitJobs(t) => t == s.service && s.At(t) == Outside
    case TestJobs(t) => s.At(t) == AwaitingJobs && t !in s.readyWaiters
    case EnterLockLock(t) => s.At(t) == Outside && t != s.service
    case TestLockLock(t) => s.At(t) == TakingLockLock && t !in s.lockWaiters
    case EnterList(t) => s.At(t) == HasLockLock
    case TestList(t) => s.At(t) == TakingList && t !in s.listWaiters
    case InsertSocket(t) => s.At(t) == HasList && t != s.service
    case SweepMap(t, empty) => s.At(t) == HasList && t == s.service && (s.mapEmpty ==> empty)
    case Unlock(t, woken, wokenReady) =>
      && s.At(t) == HasList
      && Signals(s.listWaiters, woken)
      && (if s.jobsReady != !s.mapEmpty then Signals(s.readyWaiters, wokenReady) else wokenReady.None?)
    case WakeSpuriously(t) => s.Asleep(t)
  }

  function Apply(s: State, step: Step): State {
    match step
    case AwaitJobs(t) => s.Move(t, AwaitingJobs)
    case TestJobs(t) =>
      if !s.jobsReady then s.(readyWaiters := s.readyWaiters + {t})
      else s.Move(t, TakingLockLock)
    case EnterLockLock(t) => s.Move(t, TakingLockLock)
    case TestLockLock(t) =>
      if s.lockLocked then s.(lockWaiters := s.lockWaiters + {t})
      else s.(lockLocked := true, lockLocker := Some(t)).Move(t, HasLockLock)
    case EnterList(t) => s.Move(t, TakingList)
    case TestList(t) =>
      if s.listLocked then s.(listWaiters := s.listWaiters + {t})
      else
        s.(listLocked := true, listLocker := s.lockLocker, lockLocker := None,
           lockLocked := false, lockWaiters := {}).Move(t, HasList)
    case InsertSocket(t) => s.(mapEmpty := false)
    case SweepMap(t, empty) => s.(mapEmpty := empty)
    case Unlock(t, woken, wokenReady) =>
      s.(listLocker := None, listLocked := false, listWaiters := Woken(s.listWaiters, woken),
         jobsReady := !s.mapEmpty, readyWaiters := Woken(s.readyWaiters, wokenReady)).Move(t, Outside)
    case WakeSpuriously(t) =>
      s.(lockWaiters := s.lockWaiters - {t}, listWaiters := s.listWaiters - {t},
         readyWaiters := s.readyWaiters - {t})
  }

  /** Every step of the run is enabled where it happens. */
  ghost predicate IsRun(s: State, steps: seq<Step>)
    decreases |steps|
  {
    steps == [] || (Enabled(s, steps[0]) && IsRun(Apply(s, steps[0]), steps[1..]))
  }

  function After(s: State, steps: seq<Step>): State
    decreases |steps|
  {
    if steps == [] then s else After(Apply(s, steps[0]), steps[1..])
  }

  // ---------- the invariant ----------

  ghost predicate OwnersMatch(s: State) {
    && (s.lockLocked <==> s.lockLocker.Some?)
    && (s.listLocked <==> s.listLocker.Some?)
    && (forall t: Thread :: s.At(t) in {HasLockLock, TakingList} <==> s.lockLocker == Some(t))
    && (forall t: Thread :: s.At(t) == HasList <==> s.listLocker == Some(t))
  }

  /** A sleeper is in the loop of its own condition variable, and what it waits for is still false. */
  ghost predicate SleepersBlocked(s: State) {
    && (forall t :: t in s.lockWaiters ==> s.At(t) == TakingLockLock && s.lockLocked)
    && (forall t :: t in s.listWaiters ==> s.At(t) == TakingList && s.listLocked)
    && (forall t :: t in s.readyWaiters ==> s.At(t) == AwaitingJobs && !s.jobsReady)
  }

  ghost predicate Inv(s: State) {
    && OwnersMatch(s)
    && SleepersBlocked(s)
    && (forall t: Thread :: s.At(t) == AwaitingJobs ==> t == s.service)
    && (s.listLocker.None? ==> s.jobsReady == !s.mapEmpty)
  }

  lemma PlacesStep(s: State, step: Step, t: Thread)
    requires Enabled(s, step)
    ensures t != step.t ==> Apply(s, step).At(t) == s.At(t)
  {
  }

  lemma OwnersStepAt(s: State, step: Step, t: Thread)
    requires Inv(s) && Enabled(s, step)
    ensures Apply(s, step).At(t) in {HasLockLock, TakingList} <==> Apply(s, step).lockLocker == Some(t)
    ensures Apply(s, step).At(t) == HasList <==> Apply(s, step).listLocker == Some(t)
  {
    PlacesStep(s, step, t);
    assert s.At(step.t) == HasList <==> s.listLocker == Some(step.t);
    assert s.At(step.t) in {HasLockLock, TakingList} <==> s.lockLocker == Some(step.t);
  }

  lemma OwnersStep(s: State, step: Step)
    requires Inv(s) && Enabled(s, step)
    ensures OwnersMatch(Apply(s, step))
  {
    forall t: Thread
      ensures Apply(s, step).At(t) in {HasLockLock, TakingList} <==> Apply(s, step).lockLocker == Some(t)
      ensures Apply(s, step).At(t) == HasList <==> Apply(s, step).listLocker == Some(t)
    {
      OwnersStepAt(s, step, t);
    }
  }

  lemma SleepersStep(s: State, step: Step)
    requires Inv(s) && Enabled(s, step)
    ensures SleepersBlocked(Apply(s, step))
  {
    var s' := Apply(s, step);
    forall t | t in s'.lockWaiters + s'.listWaiters + s'.readyWaiters
      ensures t in s'.lockWaiters ==> s'.At(t) == TakingLockLock && s'.lockLocked
      ensures t in s'.listWaiters ==> s'.At(t) == TakingList && s'.listLocked
      ensures t in s'.readyWaiters ==> s'.At(t) == AwaitingJobs && !s'.jobsReady
    {
      PlacesStep(s, step, t);
      if step.Unlock? {
        UnlockSleeper(s, step, t);
      }
    }
  }

  /** The thread that an unlock leaves asleep on the list lock: none, as only one can have been. */
  lemma UnlockSleeper(s: State, step: Step, t: Thread)
    requires Inv(s) && Enabled(s, step) && step.Unlock?
    ensures t !in Apply(s, step).listWaiters
    ensures t in Apply(s, step).readyWaiters ==> !Apply(s, step).jobsReady
  {
    if t in s.listWaiters {
      var w := step.woken.value;
      assert s.lockLocker == Some(t) && s.lockLocker == Some(w);
    }
    if t in s.readyWaiters && step.wokenReady.Some? {
      assert s.At(t) == AwaitingJobs && s.At(step.wokenReady.value) == AwaitingJobs;
    }
  }

  lemma InvStep(s: State, step: Step)
    requires Inv(s) && Enabled(s, step)
    ensures Inv(Apply(s, step))
    ensures Apply(s, step).service == s.service
  {
    OwnersStep(s, step);
    SleepersStep(s, step);
    forall t: Thread | Apply(s, step).At(t) == AwaitingJobs
      ensures t == s.service
    {
      PlacesStep(s, step, t);
    }
  }

  lemma {:induction false} InvRun(s: State, steps: seq<Step>)
    requires Inv(s) && IsRun(s, steps)
    ensures Inv(After(s, steps))
    decreases |steps|
  {
    if steps != [] {
      InvStep(s, steps[0]);
      InvRun(Apply(s, steps[0]), steps[1..]);
    }
  }

  // ---------- safety, in every interleaving ----------

  /** At most one thread is between lockJobList and unlockJobList, and it is the recorded owner, so
      the assertion in unlockJobList holds; the thread that called lockJobListLock is the recorded
      owner of that stage, so the assertion in lockJobList holds. */
  lemma {:induction false} MutualExclusion(service: Thread, steps: seq<Step>, t: Thread, u: Thread)
    requires IsRun(Initial(service), steps)
    ensures var s := After(Initial(service), steps);
      && (s.At(t) == HasList && s.At(u) == HasList ==> t == u)
      && (s.At(t) == HasLockLock && s.At(u) == HasLockLock ==> t == u)
      && (Enabled(s, EnterList(t)) ==> s.lockLocker == Some(t))
      && (s.At(t) == HasList ==> s.listLocker == Some(t))
  {
    InvRun(Initial(service), steps);
  }

  /** A signal, rather than a broadcast, is enough on m_jobListLock: at most one thread ever waits
      there.  And no wakeup is lost anywhere: whoever sleeps still has something to sleep for. */
  lemma {:induction false} NoLostWakeup(service: Thread, steps: seq<Step>, t: Thread, u: Thread)
    requires IsRun(Initial(service), steps)
    ensures var s := After(Initial(service), steps);
      && (t in s.listWaiters && u in s.listWaiters ==> t == u)
      && (t in s.listWaiters ==> s.listLocked && s.lockLocker == Some(t))
      && (t in s.lockWaiters ==> s.lockLocked && s.lockLocker.Some? && s.lockLocker.value != t)
      && (t in s.readyWaiters ==> t == service && !s.jobsReady)
      && (t in s.readyWaiters && s.listLocker.None? ==> s.mapEmpty)
  {
    InvRun(Initial(service), steps);
    ServiceFixed(Initial(service), steps);
  }

  lemma {:induction false} ServiceFixed(s: State, steps: seq<Step>)
    requires Inv(s) && IsRun(s, steps)
    ensures After(s, steps).service == s.service
    decreases |steps|
  {
    if steps != [] {
      InvStep(s, steps[0]);
      ServiceFixed(Apply(s, steps[0]), steps[1..]);
    }
  }

  /** No socket is registered: none has been since the map was last swept empty. */
  function NoneRegistered(steps: seq<Step>): bool {
    if steps == [] then true else
    match steps[|steps| - 1]
    case InsertSocket(_) => false
    case SweepMap(_, empty) => empty
    case _ => NoneRegistered(steps[..|steps| - 1])
  }

  lemma {:induction false} AfterLast(s: State, steps: seq<Step>)
    requires steps != [] && IsRun(s, steps)
    ensures var before, last := steps[..|steps| - 1], steps[|steps| - 1];
      IsRun(s, before) && Enabled(After(s, before), last) && After(s, steps) == Apply(After(s, before), last)
    decreases |steps|
  {
    if |steps| == 1 {
      assert steps[1..] == [] && steps[..0] == [];
    } else {
      var before := steps[..|steps| - 1];
      assert before[0] == steps[0] && before[1..] == steps[1..][..|steps| - 2];
      AfterLast(Apply(s, steps[0]), steps[1..]);
    }
  }

  /** The service thread is woken for jobs that are there: whenever the list is free the flag it waits for
      is set if and only if some socket is registered. */
  lemma {:induction false} ReadyIffRegistered(service: Thread, steps: seq<Step>)
    requires IsRun(Initial(service), steps)
    ensures var s := After(Initial(service), steps);
      (s.mapEmpty <==> NoneRegistered(steps)) && (!s.listLocked ==> (s.jobsReady <==> !NoneRegistered(steps)))
  {
    InvRun(Initial(service), steps);
    if steps != [] {
      AfterLast(Initial(service), steps);
      ReadyIffRegistered(service, steps[..|steps| - 1]);
    }
  }

  /** The service thread goes for the list exactly when it looks at the flag and finds it set; if it finds
      it not set it goes to sleep. */
  lemma ServiceWaitsForJobs(s: State, step: Step)
    requires Inv(s) && Enabled(s, step)
    ensures var t, s' := s.service, Apply(s, step);
      && (s.At(t) in {Outside, AwaitingJobs} ==>
            (s'.At(t) !in {Outside, AwaitingJobs} <==> step == TestJobs(t) && s.jobsReady))
      && (s.At(t) in {Outside, AwaitingJobs} && s'.At(t) !in {Outside, AwaitingJobs} ==> s'.At(t) == TakingLockLock)
      && (step == TestJobs(t) && !s.jobsReady ==> s'.At(t) == AwaitingJobs && t in s'.readyWaiters)
      && (step == AwaitJobs(t) ==> s'.At(t) == AwaitingJobs && t !in s'.readyWaiters)
  {
    PlacesStep(s, step, s.service);
  }

  /** No thread spins: one that tests a flag gets on or goes to sleep, and stays asleep until it is woken. */
  lemma TestsOnceOrSleeps(s: State, step: Step, t: Thread)
    requires Inv(s) && Enabled(s, step)
    ensures (step == TestJobs(t) || step == TestLockLock(t) || step == TestList(t)) ==>
      (Apply(s, step).Asleep(t) <==> Apply(s, step).At(t) == s.At(t))
    ensures s.Asleep(t) && !Apply(s, step).Asleep(t) ==>
      step == WakeSpuriously(t) || (step.TestList? && !s.listLocked && t in s.lockWaiters) || (step.Unlock? && (step.woken == Some(t) || step.wokenReady == Some(t)))
  {
    PlacesStep(s, step, t);
  }

  // ---------- no overtaking ----------

  /** Which thread, if any, acquires the job list in this step. */
  function Acquirer(s: State, step: Step): Option<Thread> {
    if step.TestList? && !s.listLocked then Some(step.t) else None
  }

  /** Nobody acquires the job list during the run. */
  ghost predicate NoneAcquire(s: State, steps: seq<Step>)
    decreases |steps|
  {
    steps == [] || (Acquirer(s, steps[0]).None? && NoneAcquire(Apply(s, steps[0]), steps[1..]))
  }

  lemma {:induction false} ClaimKept(s: State, steps: seq<Step>, t: Thread)
    requires Inv(s) && IsRun(s, steps) && NoneAcquire(s, steps) && s.lockLocker == Some(t)
    ensures After(s, steps).lockLocker == Some(t)
    decreases |steps|
  {
    if steps != [] {
      InvStep(s, steps[0]);
      ClaimKept(Apply(s, steps[0]), steps[1..], t);
    }
  }

  /** Once t has returned from lockJobListLock, the next thread to acquire the job list is t,
      however long that takes and whatever the other threads do meanwhile. */
  lemma {:induction false} NoOvertaking(service: Thread, before: seq<Step>, t: Thread, steps: seq<Step>, next: Step, u: Thread)
    requires IsRun(Initial(service), before)
    requires After(Initial(service), before).At(t) == HasLockLock
    requires IsRun(After(Initial(service), before), steps) && NoneAcquire(After(Initial(service), before), steps)
    requires Enabled(After(After(Initial(service), before), steps), next)
    requires Acquirer(After(After(Initial(service), before), steps), next) == Some(u)
    ensures u == t
  {
    var s := After(Initial(service), before);
    InvRun(Initial(service), before);
    ClaimKept(s, steps, t);
    InvRun(s, steps);
  }

  // ---------- no deadlock ----------

  /** From every reachable state, a thread inside lockJobListLock or lockJobList can still get the
      job list: `steps` is an interleaving, free of spurious wakeups, in which it does. */
  lemma {:induction false} CanAcquire(service: Thread, before: seq<Step>, t: Thread) returns (steps: seq<Step>)
    requires IsRun(Initial(service), before)
    requires After(Initial(service), before).At(t) in {TakingLockLock, HasLockLock, TakingList}
    ensures IsRun(After(Initial(service), before), steps)
    ensures After(After(Initial(service), before), steps).At(t) == HasList
    ensures forall i :: 0 <= i < |steps| ==> !steps[i].WakeSpuriously?
  {
    var s := After(Initial(service), before);
    InvRun(Initial(service), before);
    if s.At(t) == TakingLockLock && s.lockLocked {
      // the current owner of the first stage goes first, and wakes t
      var first := ClaimLeadsToList(s, s.lockLocker.value);
      var s1 := After(s, first);
      InvRun(s, first);
      var rest := FreeLeadsToList(s1, t);
      RunConcat(s, first, rest);
      steps := first + rest;
    } else if s.At(t) == TakingLockLock {
      steps := FreeLeadsToList(s, t);
    } else {
      steps := ClaimLeadsToList(s, t);
    }
  }

  lemma {:induction false} RunConcat(s: State, a: seq<Step>, b: seq<Step>)
    requires IsRun(s, a) && IsRun(After(s, a), b)
    ensures IsRun(s, a + b) && After(s, a + b) == After(After(s, a), b)
    decreases |a|
  {
    if a == [] {
      assert a + b == b;
    } else {
      RunConcat(Apply(s, a[0]), a[1..], b);
      assert (a + b)[1..] == a[1..] + b;
    }
  }

  lemma RunOne(s: State, step: Step)
    requires Enabled(s, step)
    ensures IsRun(s, [step]) && After(s, [step]) == Apply(s, step)
  {
    assert IsRun(Apply(s, step), []);
  }

  /** The holder gives the list back, waking the one waiter if there is one. */
  lemma ReleaseList(s: State) returns (step: Step)
    requires Inv(s) && s.listLocked
    ensures Enabled(s, step) && step.Unlock? && s.listLocker == Some(step.t)
    ensures var s' := Apply(s, step);
      && !s'.listLocked && s'.listWaiters == {}
      && s'.lockLocker == s.lockLocker && s'.lockWaiters == s.lockWaiters
      && forall t: Thread :: s.At(t) != HasList ==> s'.At(t) == s.At(t)
  {
    var woken, wokenReady: Option<Thread> := None, None;
    if s.listWaiters != {} {
      var w :| w in s.listWaiters;
      woken := Some(w);
      assert s.listWaiters - {w} == {} by {
        forall u | u in s.listWaiters ensures u == w {
          assert s.lockLocker == Some(u) && s.lockLocker == Some(w);
        }
      }
    }
    if s.jobsReady != !s.mapEmpty && s.readyWaiters != {} {
      var w :| w in s.readyWaiters;
      wokenReady := Some(w);
    }
    step := Unlock(s.listLocker.value, woken, wokenReady);
  }

  /** The owner of the first stage, waiting for the list, gets it, and the first stage is then free with
      nobody asleep on it... */
  lemma WaiterLeadsToList(s: State, t: Thread) returns (steps: seq<Step>)
    requires Inv(s) && s.lockLocker == Some(t) && s.At(t) == TakingList
    ensures IsRun(s, steps) && Claimed(s, After(s, steps), t)
    ensures forall i :: 0 <= i < |steps| ==> !steps[i].WakeSpuriously?
  {
    if s.listLocked {
      var unlock := ReleaseList(s);
      RunOne(s, unlock);
      InvStep(s, unlock);
      RunOne(Apply(s, unlock), TestList(t));
      RunConcat(s, [unlock], [TestList(t)]);
      steps := [unlock] + [TestList(t)];
    } else {
      RunOne(s, TestList(t));
      steps := [TestList(t)];
    }
  }

  /** ...and so does one that is not yet waiting for it. */
  lemma ClaimLeadsToList(s: State, t: Thread) returns (steps: seq<Step>)
    requires Inv(s) && s.lockLocker == Some(t)
    ensures IsRun(s, steps) && Claimed(s, After(s, steps), t)
    ensures forall i :: 0 <= i < |steps| ==> !steps[i].WakeSpuriously?
  {
    if s.At(t) == HasLockLock {
      RunOne(s, EnterList(t));
      InvStep(s, EnterList(t));
      var rest := WaiterLeadsToList(Apply(s, EnterList(t)), t);
      RunConcat(s, [EnterList(t)], rest);
      steps := [EnterList(t)] + rest;
    } else {
      steps := WaiterLeadsToList(s, t);
    }
  }

  /** t has the list, the first stage is free, and threads at the first stage are still there. */
  ghost predicate Claimed(s: State, s': State, t: Thread) {
    && s'.At(t) == HasList && !s'.lockLocked && s'.lockWaiters == {}
    && forall u: Thread :: s.At(u) == TakingLockLock ==> s'.At(u) == TakingLockLock
  }

  /** With the first stage free, an awake thread in lockJobListLock gets through both stages. */
  lemma FreeLeadsToList(s: State, t: Thread) returns (steps: seq<Step>)
    requires Inv(s) && s.At(t) == TakingLockLock && !s.lockLocked
    ensures IsRun(s, steps) && After(s, steps).At(t) == HasList
    ensures forall i :: 0 <= i < |steps| ==> !steps[i].WakeSpuriously?
  {
    RunOne(s, TestLockLock(t));
    InvStep(s, TestLockLock(t));
    var rest := ClaimLeadsToList(Apply(s, TestLockLock(t)), t);
    RunConcat(s, [TestLockLock(t)], rest);
    steps := [TestLockLock(t)] + rest;
  }

  // ---------- what a job must not do while it is run ----------

  /** A job that is run while the list is held calls addSocket or removeSocket: the holder is back at
      the first stage, and the list is still locked. */
  function NestedCall(s: State, h: Thread): State { s.Move(h, TakingLockLock) }

  /** The list is locked, and the thread that could unlock it is on its way to lock it. */
  ghost predicate Stuck(s: State, h: Thread) {
    && s.listLocked && s.At(h) in {TakingLockLock, HasLockLock, TakingList}
    && forall t: Thread :: s.At(t) != HasList
  }

  lemma LockedIsNotTaken(s: State, step: Step, t: Thread)
    requires Enabled(s, step) && s.listLocked && s.At(t) != HasList
    ensures Apply(s, step).At(t) != HasList
    ensures s.At(t) in {TakingLockLock, HasLockLock, TakingList} ==>
      Apply(s, step).At(t) in {TakingLockLock, HasLockLock, TakingList}
  {
    PlacesStep(s, step, t);
  }

  lemma StuckStep(s: State, step: Step, h: Thread)
    requires Stuck(s, h) && Enabled(s, step)
    ensures Stuck(Apply(s, step), h) && Acquirer(s, step).None?
  {
    assert s.At(step.t) != HasList;
    forall t: Thread
      ensures Apply(s, step).At(t) != HasList
    {
      assert s.At(t) != HasList;
      LockedIsNotTaken(s, step, t);
    }
    LockedIsNotTaken(s, step, h);
  }

  lemma {:induction false} StuckRun(s: State, steps: seq<Step>, h: Thread)
    requires Stuck(s, h) && IsRun(s, steps)
    ensures Stuck(After(s, steps), h) && NoneAcquire(s, steps)
    decreases |steps|
  {
    if steps != [] {
      StuckStep(s, steps[0], h);
      StuckRun(Apply(s, steps[0]), steps[1..], h);
    }
  }

  /** After such a call no thread, neither the holder nor any other, ever acquires the list again,
      whatever the threads do. */
  lemma NestedCallIsForGood(service: Thread, before: seq<Step>, h: Thread, steps: seq<Step>, t: Thread)
    requires IsRun(Initial(service), before) && After(Initial(service), before).At(h) == HasList
    requires IsRun(NestedCall(After(Initial(service), before), h), steps)
    ensures var s := NestedCall(After(Initial(service), before), h);
      NoneAcquire(s, steps) && After(s, steps).At(t) != HasList && After(s, steps).listLocked
  {
    var s := After(Initial(service), before);
    InvRun(Initial(service), before);
    forall u: Thread
      ensures NestedCall(s, h).At(u) != HasList
    {
      if u != h {
        assert NestedCall(s, h).At(u) == s.At(u);
      }
    }
    StuckRun(NestedCall(s, h), steps, h);
  }

  /** Without one the holder can always unlock at once, whatever the others are doing, and the list is
      then free for the thread whose turn it is. */
  lemma HolderCanUnlock(service: Thread, before: seq<Step>, h: Thread) returns (step: Step)
    requires IsRun(Initial(service), before) && After(Initial(service), before).At(h) == HasList
    ensures var s := After(Initial(service), before);
      && step.Unlock? && step.t == h && Enabled(s, step)
      && !Apply(s, step).listLocked && Apply(s, step).listWaiters == {}
      && forall t: Thread :: Apply(s, step).At(t) != HasList
  {
    var s := After(Initial(service), before);
    InvRun(Initial(service), before);
    step := ReleaseList(s);
    InvStep(s, step);
  }
}
