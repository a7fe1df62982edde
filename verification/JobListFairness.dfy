/** The two-stage lock under fair scheduling, over runs that never end. */
module JobListFairness {
  import opened JobListLock
  import opened Options

  /** The state before the n-th step, and that step. */
  datatype Run = Run(state: nat -> State, step: nat -> Step)

  ghost predicate Follows(r: Run, n: nat) {
    Enabled(r.state(n), r.step(n)) && r.state(n + 1) == Apply(r.state(n), r.step(n))
  }

  ghost predicate IsEndless(service: Thread, r: Run) {
    r.state(0) == Initial(service) && forall n: nat :: Follows(r, n)
  }

  ghost predicate StepsLater(r: Run, n: nat, t: Thread) {
    exists m: nat :: m >= n && r.step(m).t == t
  }

  ghost predicate UnlocksLater(r: Run, n: nat) {
    exists m: nat :: m >= n && r.step(m).Unlock?
  }

  /** Inside the two stages and not asleep. */
  ghost predicate Awake(s: State, t: Thread) {
    s.At(t) in {HasLockLock, TakingList} && !s.Asleep(t)
  }

  ghost predicate GetsToRun(r: Run, n: nat, t: Thread) { Awake(r.state(n), t) ==> StepsLater(r, n, t) }

  ghost predicate GivesBack(r: Run, n: nat) { r.state(n).listLocked ==> UnlocksLater(r, n) }

  /** A thread that is awake inside gets to run, and whoever has the list gives it back. */
  ghost predicate Fair(r: Run) {
    (forall n: nat, t: Thread :: GetsToRun(r, n, t)) && (forall n: nat :: GivesBack(r, n))
  }

  lemma {:induction false} InvBefore(service: Thread, r: Run, n: nat)
    requires IsEndless(service, r)
    ensures Inv(r.state(n))
  {
    if n > 0 {
      InvBefore(service, r, n - 1);
      assert Follows(r, n - 1);
      InvStep(r.state(n - 1), r.step(n - 1));
    }
  }

  lemma {:induction false} FirstStep(r: Run, n: nat, m: nat, t: Thread) returns (k: nat)
    requires n <= m && r.step(m).t == t
    ensures n <= k && r.step(k).t == t && forall j :: n <= j < k ==> r.step(j).t != t
    decreases m - n
  {
    if r.step(n).t == t {
      k := n;
    } else {
      k := FirstStep(r, n + 1, m, t);
    }
  }

  /** The owner of the first stage is where it was and awake, and the list is not locked if it was not. */
  ghost predicate Undisturbed(s: State, s': State, t: Thread) {
    s'.At(t) == s.At(t) && Awake(s', t) && (!s.listLocked ==> !s'.listLocked)
  }

  /** A step of another thread does not disturb it. */
  lemma OthersStep(s: State, step: Step, t: Thread)
    requires Inv(s) && Enabled(s, step) && step.t != t && Awake(s, t)
    ensures Undisturbed(s, Apply(s, step), t)
  {
    PlacesStep(s, step, t);
    assert s.lockLocker == Some(t);
  }

  lemma {:induction false} OthersSteps(service: Thread, r: Run, n: nat, k: nat, t: Thread)
    requires IsEndless(service, r) && n <= k && Awake(r.state(n), t)
    requires forall j :: n <= j < k ==> r.step(j).t != t
    ensures Undisturbed(r.state(n), r.state(k), t)
    decreases k - n
  {
    if n < k {
      OthersSteps(service, r, n, k - 1, t);
      InvBefore(service, r, k - 1);
      assert Follows(r, k - 1);
      OthersStep(r.state(k - 1), r.step(k - 1), t);
    }
  }

  /** The next step of a thread that is awake inside, and the state in which it comes. */
  lemma NextOwnStep(service: Thread, r: Run, n: nat, t: Thread) returns (k: nat)
    requires IsEndless(service, r) && Fair(r) && Awake(r.state(n), t)
    ensures n <= k && Undisturbed(r.state(n), r.state(k), t)
    ensures r.step(k) == (if r.state(n).At(t) == HasLockLock then EnterList(t) else TestList(t))
    ensures r.state(k + 1) == Apply(r.state(k), r.step(k))
  {
    assert GetsToRun(r, n, t);
    var m: nat :| m >= n && r.step(m).t == t;
    k := FirstStep(r, n, m, t);
    OthersSteps(service, r, n, k, t);
    assert Follows(r, k);
  }

  lemma NotAsleep(s: State, t: Thread)
    requires Inv(s)
    ensures s.At(t) == HasLockLock ==> Awake(s, t)
    ensures s.At(t) == TakingList && !s.listLocked ==> Awake(s, t)
  {
  }

  /** A thread that waits for the list stays where it is until it gets it. */
  lemma {:induction false} WaitsOrHas(service: Thread, r: Run, n: nat, m: nat, t: Thread) returns (k: nat)
    requires IsEndless(service, r) && n <= m && r.state(n).At(t) == TakingList
    ensures n <= k <= m && r.state(k).At(t) in {TakingList, HasList}
    ensures r.state(k).At(t) == TakingList ==> k == m
    decreases m - n
  {
    k := n;
    if n < m {
      assert Follows(r, n);
      InvBefore(service, r, n);
      WaitingStep(r.state(n), r.step(n), t);
      if r.state(n + 1).At(t) == TakingList {
        k := WaitsOrHas(service, r, n + 1, m, t);
      } else {
        k := n + 1;
      }
    }
  }

  lemma WaitingStep(s: State, step: Step, t: Thread)
    requires Inv(s) && Enabled(s, step) && s.At(t) == TakingList
    ensures Apply(s, step).At(t) in {TakingList, HasList}
  {
    PlacesStep(s, step, t);
  }

  lemma UnlockedIsTaken(service: Thread, r: Run, n: nat, t: Thread) returns (m: nat)
    requires IsEndless(service, r) && Fair(r)
    requires r.state(n).At(t) == TakingList && !r.state(n).listLocked
    ensures m >= n && r.state(m).At(t) == HasList
  {
    InvBefore(service, r, n);
    NotAsleep(r.state(n), t);
    var k := NextOwnStep(service, r, n, t);
    m := k + 1;
  }

  lemma WaitingGets(service: Thread, r: Run, n: nat, t: Thread) returns (m: nat)
    requires IsEndless(service, r) && Fair(r) && r.state(n).At(t) == TakingList
    ensures m >= n && r.state(m).At(t) == HasList
  {
    if !r.state(n).listLocked {
      m := UnlockedIsTaken(service, r, n, t);
    } else {
      assert GivesBack(r, n);
      var u: nat :| u >= n && r.step(u).Unlock?;
      assert Follows(r, u);
      m := WaitsOrHas(service, r, n, u + 1, t);
      if r.state(m).At(t) == TakingList {
        m := UnlockedIsTaken(service, r, u + 1, t);
      }
    }
  }

  /** Under fair scheduling a thread that has returned from lockJobListLock gets the list, whatever the
      others do and however often they ask for it. */
  lemma ClaimantGetsList(service: Thread, r: Run, n: nat, t: Thread)
    requires IsEndless(service, r) && Fair(r) && r.state(n).At(t) in {HasLockLock, TakingList}
    ensures exists m: nat :: m >= n && r.state(m).At(t) == HasList
  {
    var k := n;
    if r.state(n).At(t) == HasLockLock {
      InvBefore(service, r, n);
      NotAsleep(r.state(n), t);
      var own := NextOwnStep(service, r, n, t);
      k := own + 1;
    }
    var m := WaitingGets(service, r, k, t);
  }
}
