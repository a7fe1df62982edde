/** The timers of CEventQueue: countdowns in a heap, brought up to date from one stopwatch when polled.

    Time is exact.  The clock is any sequence of readings that does not go back; one poll reads it
    twice, once to count down and once to reset the stopwatch. */
module Timers {
  import opened Options
  import opened Queues = PriorityQueue
  import Watches = Stopwatch

  datatype State = State(mark: real, clock: real, live: set<nat>, timers: map<nat, Timer>)

  datatype Step =
    | Create(id: nat, duration: real, target: nat, oneShot: bool, now: real)
    | Delete(id: nat)
    | Poll(check: real, reset: real, report: Option<nat>)

  /** The stopwatch starts with the queue. */
  function Start(now: real): State { State(now, now, {}, map[]) }

  function Countdown(timers: map<nat, Timer>, dt: real): map<nat, Timer> {
    map id | id in timers :: Minus(timers[id], dt)
  }

  /** The timers as a poll at this time sees them. */
  function At(s: State, check: real): map<nat, Timer> { Countdown(s.timers, check - s.mark) }

  /** The count that a timer event carries. */
  function Count(t: Timer): nat
    requires t.timeout > 0.0
  {
    if t.time <= 0.0 then
      assert (t.timeout - t.time) / t.timeout >= 0.0;
      ((t.timeout - t.time) / t.timeout).Floor
    else 0
  }

  ghost predicate Least(timers: map<nat, Timer>, id: nat) {
    id in timers && forall k :: k in timers ==> timers[id].time <= timers[k].time
  }

  ghost predicate Enabled(s: State, step: Step) {
    match step
    case Create(id, duration, target, oneShot, now) => id !in s.live && id !in s.timers && duration > 0.0 && now >= s.clock
    case Delete(id) => true
    case Poll(check, reset, report) =>
      if s.timers == map[] then report.None? else
      && s.clock <= check <= reset
      && (report.None? ==> forall id :: id in s.timers ==> At(s, check)[id].time > 0.0)
      && (report.Some? ==> Least(At(s, check), report.value) && At(s, check)[report.value].time <= 0.0)
  }

  /** A reported one-shot timer is removed; a periodic one starts again. */
  function Taken(timers: map<nat, Timer>, id: nat): map<nat, Timer>
    requires id in timers
  {
    var t := timers[id];
    if t.oneShot then timers - {id} else timers[id := t.(time := t.timeout)]
  }

  ghost function Apply(s: State, step: Step): State
    requires Enabled(s, step)
  {
    match step
    case Create(id, duration, target, oneShot, now) =>
      var t := Timer(id, duration, target, oneShot, duration + (now - s.mark));
      State(s.mark, now, s.live + {id}, s.timers[id := t])
    case Delete(id) =>
      s.(live := s.live - {id}, timers := s.timers - {id})
    case Poll(check, reset, report) =>
      if s.timers == map[] then s else
      var timers := At(s, check);
      State(reset, reset, s.live, if report.None? then timers else Taken(timers, report.value))
  }

  ghost predicate IsRun(start: real, steps: seq<Step>)
    decreases |steps|, 0
  {
    steps == [] || (IsRun(start, steps[..|steps| - 1]) && Enabled(After(start, steps[..|steps| - 1]), steps[|steps| - 1]))
  }

  ghost function After(start: real, steps: seq<Step>): State
    requires IsRun(start, steps)
    decreases |steps|, 1
  {
    if steps == [] then Start(start)
    else Apply(After(start, steps[..|steps| - 1]), steps[|steps| - 1])
  }

  // ---------- what a run says about a timer ----------

  /** The step that created the timer that has this id now. */
  function Creation(steps: seq<Step>, id: nat): Step {
    if steps == [] then Delete(id) else
    var last := steps[|steps| - 1];
    if last.Create? && last.id == id then last else Creation(steps[..|steps| - 1], id)
  }

  predicate Reports(step: Step, id: nat) { step.Poll? && step.report == Some(id) }

  /** When the current countdown began: the creation, or the end of the last poll that reported it. */
  function Began(steps: seq<Step>, id: nat): real {
    if steps == [] then 0.0 else
    var last := steps[|steps| - 1];
    if last.Create? && last.id == id then last.now
    else if Reports(last, id) then last.reset
    else Began(steps[..|steps| - 1], id)
  }

  /** The time between the two readings of every poll since then, which is not counted. */
  function Missed(steps: seq<Step>, id: nat): real {
    if steps == [] then 0.0 else
    var last := steps[|steps| - 1];
    if (last.Create? && last.id == id) || Reports(last, id) then 0.0
    else Missed(steps[..|steps| - 1], id) + (if last.Poll? then last.reset - last.check else 0.0)
  }

  /** The counts reported since the creation. */
  ghost function Total(start: real, steps: seq<Step>, id: nat): nat
    requires IsRun(start, steps)
    decreases |steps|
  {
    if steps == [] then 0 else
    var before, last := steps[..|steps| - 1], steps[|steps| - 1];
    if last.Create? && last.id == id then 0
    else Total(start, before, id) + (if Reports(last, id) then CountAt(After(start, before), last.check, id) else 0)
  }

  ghost function CountAt(s: State, check: real, id: nat): nat {
    if id in s.timers && s.timers[id].timeout > 0.0 then Count(At(s, check)[id]) else 0
  }

  // ---------- what holds of every timer in every run ----------

  lemma {:induction false} ClockOrder(start: real, steps: seq<Step>)
    requires IsRun(start, steps)
    ensures After(start, steps).mark <= After(start, steps).clock
    decreases |steps|
  {
    if steps != [] {
      ClockOrder(start, steps[..|steps| - 1]);
    }
  }

  /** What one step does to a timer that is there before and after. */
  lemma StepTimer(s: State, step: Step, id: nat)
    requires Enabled(s, step) && id in Apply(s, step).timers && !(step.Create? && step.id == id)
    ensures id in s.timers
    ensures var t, t' := s.timers[id], Apply(s, step).timers[id];
      if Reports(step, id) then
        t' == t.(time := t.timeout) && At(s, step.check)[id] == Minus(t, step.check - s.mark)
        && t.time - (step.check - s.mark) <= 0.0 && Apply(s, step).mark == step.reset
      else if step.Poll? then
        t' == Minus(t, step.check - s.mark) && Apply(s, step).mark == step.reset
      else t' == t && Apply(s, step).mark == s.mark
    ensures step.Poll? ==> s.clock <= step.check <= step.reset
  {
  }

  /** A timer keeps the duration, target and kind that it was created with. */
  lemma {:induction false} AsCreated(start: real, steps: seq<Step>, id: nat)
    requires IsRun(start, steps) && id in After(start, steps).timers
    ensures var t, c := After(start, steps).timers[id], Creation(steps, id);
      c.Create? && c.id == id == t.id && t.timeout == c.duration > 0.0 && t.target == c.target && t.oneShot == c.oneShot
    decreases |steps|
  {
    var before, last := steps[..|steps| - 1], steps[|steps| - 1];
    if !(last.Create? && last.id == id) {
      StepTimer(After(start, before), last, id);
      AsCreated(start, before, id);
    }
  }

  /** What is left of a countdown, on the stopwatch's mark, is exactly the duration from when it began,
      put off by the time that polls missed. */
  lemma {:induction false} TimeLeft(start: real, steps: seq<Step>, id: nat)
    requires IsRun(start, steps) && id in After(start, steps).timers
    ensures var s := After(start, steps);
      s.timers[id].time + s.mark == Began(steps, id) + s.timers[id].timeout + Missed(steps, id) && Missed(steps, id) >= 0.0
    decreases |steps|
  {
    var before, last := steps[..|steps| - 1], steps[|steps| - 1];
    if !(last.Create? && last.id == id) {
      StepTimer(After(start, before), last, id);
      TimeLeft(start, before, id);
    }
  }

  /** n times x, by repeated addition. */
  ghost function Times(n: nat, x: real): real {
    if n == 0 then 0.0 else Times(n - 1, x) + x
  }

  lemma {:induction false} TimesIs(n: nat, x: real)
    ensures Times(n, x) == n as real * x
  {
    if n > 0 {
      TimesIs(n - 1, x);
      var m := (n - 1) as real;
      assert n as real == m + 1.0;
      assert (m + 1.0) * x == m * x + x;
    }
  }

  lemma {:induction false} TimesSum(m: nat, n: nat, x: real)
    ensures Times(m + n, x) == Times(m, x) + Times(n, x)
  {
    if n > 0 {
      TimesSum(m, n - 1, x);
    }
  }

  /** The counts reported and the part of the countdown that has passed fit into the timer's life. */
  lemma {:induction false} TotalFits(start: real, steps: seq<Step>, id: nat)
    requires IsRun(start, steps) && id in After(start, steps).timers
    ensures Creation(steps, id).Create?
    ensures var t := After(start, steps).timers[id];
      Times(Total(start, steps, id), t.timeout) + (t.timeout - t.time) <= After(start, steps).mark - Creation(steps, id).now
    decreases |steps|
  {
    AsCreated(start, steps, id);
    var before, last := steps[..|steps| - 1], steps[|steps| - 1];
    var s := After(start, before);
    if !(last.Create? && last.id == id) {
      StepTimer(s, last, id);
      TotalFits(start, before, id);
      if Reports(last, id) {
        AsCreated(start, before, id);
        CountBounds(At(s, last.check)[id]);
        TimesSum(Total(start, before, id), CountAt(s, last.check, id), s.timers[id].timeout);
      }
    }
  }

  lemma CountBounds(t: Timer)
    requires t.timeout > 0.0 && t.time <= 0.0
    ensures Count(t) >= 1
    ensures Times(Count(t), t.timeout) <= t.timeout - t.time < Times(Count(t) + 1, t.timeout)
  {
    var y := t.timeout - t.time;
    var q := y / t.timeout;
    assert q * t.timeout == y;
    FloorTimes(q, t.timeout);
    if q < 1.0 {
      Scale(q, 1.0, t.timeout);
    }
  }

  lemma FloorTimes(q: real, x: real)
    requires x > 0.0 && q >= 0.0
    ensures Times(q.Floor, x) <= q * x < Times(q.Floor + 1, x)
  {
    NotAbove(q.Floor, q, x);
    NotAbove(q.Floor + 1, q, x);
  }

  lemma NotAbove(n: nat, q: real, x: real)
    requires x > 0.0
    ensures n as real <= q ==> Times(n, x) <= q * x
    ensures q < n as real ==> q * x < Times(n, x)
  {
    TimesIs(n, x);
    if q < n as real {
      Scale(q, n as real, x);
    } else if n as real < q {
      Scale(n as real, q, x);
    }
  }

  lemma Scale(a: real, b: real, x: real)
    requires x > 0.0 && a < b
    ensures a * x < b * x
  {
  }

  // ---------- which timers there are ----------

  /** The id has been created and not deleted since. */
  predicate Live(steps: seq<Step>, id: nat) {
    if steps == [] then false else
    var last := steps[|steps| - 1];
    if last.Create? && last.id == id then true
    else last != Delete(id) && Live(steps[..|steps| - 1], id)
  }

  /** The timer has been reported since its id was last created. */
  predicate ReportedOnce(steps: seq<Step>, id: nat) {
    if steps == [] then false else
    var last := steps[|steps| - 1];
    !(last.Create? && last.id == id) && (Reports(last, id) || ReportedOnce(steps[..|steps| - 1], id))
  }

  lemma StepPresence(s: State, step: Step, id: nat)
    requires Enabled(s, step) && s.timers.Keys <= s.live
    ensures id in Apply(s, step).live <==> (step.Create? && step.id == id) || (id in s.live && step != Delete(id))
    ensures id in Apply(s, step).timers <==>
      (step.Create? && step.id == id)
      || (id in s.timers && step != Delete(id) && !(Reports(step, id) && s.timers[id].oneShot))
    ensures Apply(s, step).timers.Keys <= Apply(s, step).live
  {
  }

  /** A timer is there if and only if it has been created and not deleted since, and, if it is a one-shot
      timer, not reported since. */
  lemma {:induction false} ThereIff(start: real, steps: seq<Step>, id: nat)
    requires IsRun(start, steps)
    ensures var s := After(start, steps);
      && s.timers.Keys <= s.live && (id in s.live <==> Live(steps, id))
      && (id in s.timers <==>
            && Live(steps, id) && Creation(steps, id).Create?
            && (Creation(steps, id).oneShot ==> !ReportedOnce(steps, id)))
    decreases |steps|
  {
    if steps != [] {
      var before, last := steps[..|steps| - 1], steps[|steps| - 1];
      ThereIff(start, before, id);
      StepPresence(After(start, before), last, id);
      if id in After(start, before).timers {
        AsCreated(start, before, id);
      }
    }
  }

  /** A deleted timer is not reported until its id is created again. */
  lemma {:induction false} DeletedIsGone(start: real, steps: seq<Step>, more: seq<Step>, id: nat)
    requires IsRun(start, steps + [Delete(id)] + more) && forall step :: step in more && step.Create? ==> step.id != id
    ensures forall step :: step in more ==> !Reports(step, id)
    decreases |more|
  {
    if more != [] {
      var all := steps + [Delete(id)] + more;
      var before, last := more[..|more| - 1], more[|more| - 1];
      assert all[..|all| - 1] == steps + [Delete(id)] + before && all[|all| - 1] == last;
      assert forall step :: step in before ==> step in more;
      DeletedIsGone(start, steps, before, id);
      NotLive(steps, before, id);
      ThereIff(start, steps + [Delete(id)] + before, id);
      assert Enabled(After(start, steps + [Delete(id)] + before), last);
      assert more == before + [last];
    }
  }

  lemma {:induction false} NotLive(steps: seq<Step>, more: seq<Step>, id: nat)
    requires forall step :: step in more && step.Create? ==> step.id != id
    ensures !Live(steps + [Delete(id)] + more, id)
    decreases |more|
  {
    var all := steps + [Delete(id)] + more;
    if more == [] {
      assert all[|all| - 1] == Delete(id);
    } else {
      var before := more[..|more| - 1];
      assert all[..|all| - 1] == steps + [Delete(id)] + before && all[|all| - 1] == more[|more| - 1];
      assert forall step :: step in before ==> step in more;
      NotLive(steps, before, id);
    }
  }

  // ---------- when timers are reported, and with what count ----------

  /** The first reading at which a poll finds the timer expired. */
  ghost function Due(start: real, steps: seq<Step>, id: nat): real
    requires IsRun(start, steps) && id in After(start, steps).timers
  {
    Began(steps, id) + After(start, steps).timers[id].timeout + Missed(steps, id)
  }

  /** A poll reports a timer if and only if one is due, and then one that has been due longest; never
      before its duration has passed since its creation or its last report. */
  lemma ReportedWhenDue(start: real, steps: seq<Step>, check: real, reset: real, report: Option<nat>)
    requires IsRun(start, steps) && Enabled(After(start, steps), Poll(check, reset, report))
    ensures var timers := After(start, steps).timers;
      && (report.None? <==> forall id :: id in timers ==> check < Due(start, steps, id))
      && (report.Some? ==>
            && report.value in timers
            && check >= Due(start, steps, report.value) >= Began(steps, report.value) + timers[report.value].timeout
            && forall id :: id in timers ==> Due(start, steps, report.value) <= Due(start, steps, id))
  {
    var s := After(start, steps);
    forall id | id in s.timers
      ensures At(s, check)[id].time == Due(start, steps, id) - check && Missed(steps, id) >= 0.0
    {
      TimeLeft(start, steps, id);
    }
  }

  /** The other timers that have been due at least as long, or will be due no later. */
  ghost function Ahead(s: State, id: nat): set<nat>
    requires id in s.timers
  {
    set k | k in s.timers && k != id && s.timers[k].time <= s.timers[id].time
  }

  /** A reading as late as the last one would find the timer expired. */
  ghost predicate IsDue(s: State, id: nat) {
    id in s.timers && s.timers[id].time + s.mark <= s.clock
  }

  function Polls(steps: seq<Step>): nat {
    if steps == [] then 0 else Polls(steps[..|steps| - 1]) + if steps[|steps| - 1].Poll? then 1 else 0
  }

  /** While a timer is due every poll reports one that is ahead of it, and nothing gets ahead of it. */
  lemma DueStep(s: State, step: Step, id: nat)
    requires Enabled(s, step) && IsDue(s, id) && !Reports(step, id) && step != Delete(id)
    requires forall k :: k in s.timers ==> s.timers[k].timeout > 0.0
    ensures IsDue(Apply(s, step), id) && Ahead(Apply(s, step), id) <= Ahead(s, id)
    ensures step.Poll? ==> step.report.Some? && step.report.value in Ahead(s, id) - Ahead(Apply(s, step), id)
  {
    if step.Poll? {
      assert At(s, step.check)[id].time <= 0.0;
    }
  }

  lemma Fewer(a: set<nat>, b: set<nat>, x: nat)
    requires a <= b
    ensures |a| <= |b| && (x in b - a ==> |a| < |b|)
  {
    if x in b - a {
      assert a <= b - {x};
      SubsetSize(a, b - {x});
    } else {
      SubsetSize(a, b);
    }
  }

  lemma {:induction false} SubsetSize(a: set<nat>, b: set<nat>)
    requires a <= b
    ensures |a| <= |b|
  {
    assert b == a + (b - a);
  }

  lemma {:induction false} DueKept(start: real, steps: seq<Step>, more: seq<Step>, id: nat)
    requires IsRun(start, steps + more) && IsRun(start, steps) && IsDue(After(start, steps), id)
    requires forall step :: step in more ==> !Reports(step, id) && step != Delete(id)
    ensures IsDue(After(start, steps + more), id)
    ensures Polls(more) + |Ahead(After(start, steps + more), id)| <= |Ahead(After(start, steps), id)|
    decreases |more|
  {
    if more == [] {
      assert steps + more == steps;
    } else {
      var before, last := more[..|more| - 1], more[|more| - 1];
      assert (steps + more)[..|steps + more| - 1] == steps + before && last in more;
      DueKept(start, steps, before, id);
      var s := After(start, steps + before);
      forall k | k in s.timers
        ensures s.timers[k].timeout > 0.0
      {
        AsCreated(start, steps + before, k);
      }
      DueStep(s, last, id);
      Fewer(Ahead(Apply(s, last), id), Ahead(s, id), if last.Poll? then last.report.value else 0);
    }
  }

  /** A due timer is reported, unless it is deleted, once there have been more polls than timers ahead of
      it; whatever is created, deleted or started again meanwhile. */
  lemma ReportedInTurn(start: real, steps: seq<Step>, more: seq<Step>, id: nat)
    requires IsRun(start, steps + more) && IsRun(start, steps) && IsDue(After(start, steps), id)
    requires Polls(more) > |Ahead(After(start, steps), id)|
    ensures exists step :: step in more && (Reports(step, id) || step == Delete(id))
  {
    if forall step :: step in more ==> !Reports(step, id) && step != Delete(id) {
      DueKept(start, steps, more, id);
    }
  }

  /** The reported count is the number of whole durations that fit into the counted time, at least one;
      and all counts since the creation fit into the time since the creation. */
  lemma ReportedCount(start: real, steps: seq<Step>, check: real, reset: real, id: nat)
    requires IsRun(start, steps) && Enabled(After(start, steps), Poll(check, reset, Some(id)))
    ensures var s := After(start, steps);
      var d := s.timers[id].timeout;
      var n := CountAt(s, check, id);
      var counted := check - Began(steps, id) - Missed(steps, id);
      && n >= 1 && Times(n, d) <= counted < Times(n + 1, d)
      && Creation(steps, id).Create?
      && Times(Total(start, steps, id) + n, d) <= check - Creation(steps, id).now
  {
    var s := After(start, steps);
    AsCreated(start, steps, id);
    TimeLeft(start, steps, id);
    TotalFits(start, steps, id);
    var t := At(s, check)[id];
    var n := CountAt(s, check, id);
    CountBounds(t);
    TimesSum(Total(start, steps, id), n, t.timeout);
  }

  /** Over any run the counts reported for a timer never add up to more than the time since its creation. */
  lemma {:induction false} TotalWithinLife(start: real, steps: seq<Step>, id: nat)
    requires IsRun(start, steps) && id in After(start, steps).timers
    ensures Creation(steps, id).Create?
    ensures Times(Total(start, steps, id), Creation(steps, id).duration) <= After(start, steps).clock - Creation(steps, id).now
    decreases |steps|
  {
    AsCreated(start, steps, id);
    ClockOrder(start, steps);
    var before, last := steps[..|steps| - 1], steps[|steps| - 1];
    var s := After(start, before);
    ClockOrder(start, before);
    if !(last.Create? && last.id == id) {
      StepTimer(s, last, id);
      if Reports(last, id) {
        TotalFits(start, steps, id);
      } else {
        TotalWithinLife(start, before, id);
      }
    }
  }

  /** The documentation gives one-shot timers a count of 1.  The count is 1 if and only if the poll comes
      before a second duration has been counted, one-shot or not. */
  lemma CountIsOne(start: real, steps: seq<Step>, check: real, reset: real, id: nat)
    requires IsRun(start, steps) && Enabled(After(start, steps), Poll(check, reset, Some(id)))
    ensures CountAt(After(start, steps), check, id) == 1 <==>
      check < Due(start, steps, id) + After(start, steps).timers[id].timeout
  {
    var s := After(start, steps);
    var d := s.timers[id].timeout;
    var n := CountAt(s, check, id);
    AsCreated(start, steps, id);
    TimeLeft(start, steps, id);
    CountBounds(At(s, check)[id]);
    assert Times(1, d) == d && Times(2, d) == d + d;
    if n >= 2 {
      TimesSum(2, n - 2, d);
      TimesPositive(n - 2, d);
    }
  }

  lemma {:induction false} TimesPositive(n: nat, x: real)
    requires x > 0.0
    ensures Times(n, x) >= 0.0
  {
    if n > 0 {
      TimesPositive(n - 1, x);
    }
  }

  /** A one-shot timer of one second, polled after five, is reported with count 5. */
  lemma OneShotCountsFive()
    ensures var steps := [Create(0, 1.0, 7, true, 0.0)];
      && IsRun(0.0, steps) && Enabled(After(0.0, steps), Poll(5.0, 5.0, Some(0)))
      && CountAt(After(0.0, steps), 5.0, 0) == 5
  {
    var steps := [Create(0, 1.0, 7, true, 0.0)];
    assert steps[..0] == [];
    var s := After(0.0, steps);
    assert At(s, 5.0)[0] == Timer(0, 1.0, 7, true, -4.0);
  }

  // ---------- the heap as a table ----------

  /** The heap holds the timers of the table, each once. */
  ghost predicate Holds(c: seq<Timer>, timers: map<nat, Timer>) {
    && (forall id :: id in timers ==> timers[id].id == id)
    && multiset(c) == multiset(timers.Values)
  }

  lemma HoldsTimer(c: seq<Timer>, timers: map<nat, Timer>, i: nat)
    requires Holds(c, timers) && i < |c|
    ensures c[i].id in timers && timers[c[i].id] == c[i]
  {
    assert c[i] in multiset(c);
  }

  lemma HoldsId(c: seq<Timer>, timers: map<nat, Timer>, id: nat)
    requires Holds(c, timers) && id in timers
    ensures exists i :: 0 <= i < |c| && c[i] == timers[id]
  {
    assert timers[id] in timers.Values;
    assert timers[id] in multiset(c);
  }

  lemma ValuesMore(timers: map<nat, Timer>, t: Timer)
    requires t.id !in timers
    ensures timers[t.id := t].Values == timers.Values + {t}
  {
    var more := timers[t.id := t];
    assert t.id in more;
    forall v | v in timers.Values
      ensures v in more.Values
    {
      var id :| id in timers && timers[id] == v;
      assert id in more && more[id] == v;
    }
  }

  lemma HoldsMore(c: seq<Timer>, d: seq<Timer>, timers: map<nat, Timer>, t: Timer)
    requires Holds(c, timers) && t.id !in timers && multiset(d) == multiset(c) + multiset{t}
    ensures Holds(d, timers[t.id := t])
  {
    ValuesMore(timers, t);
    assert t !in timers.Values;
  }

  lemma HoldsLess(c: seq<Timer>, d: seq<Timer>, timers: map<nat, Timer>, t: Timer)
    requires Holds(c, timers) && t.id in timers && timers[t.id] == t && multiset(d) == multiset(c) - multiset{t}
    ensures Holds(d, timers - {t.id})
  {
    var less := timers - {t.id};
    forall v
      ensures v in less.Values <==> v in timers.Values - {t}
    {
      if v in timers.Values && v != t {
        var id :| id in timers && timers[id] == v;
        assert less[id] == v;
      }
    }
    assert less.Values == timers.Values - {t};
    assert t in timers.Values;
  }

  lemma HoldsTaken(before: seq<Timer>, rest: seq<Timer>, c: seq<Timer>, timers: map<nat, Timer>, live: set<nat>, t: Timer)
    requires Holds(before, timers) && t.id in timers && timers[t.id] == t && timers.Keys <= live
    requires forall id :: id in timers ==> timers[id].timeout > 0.0
    requires multiset(rest) == multiset(before) - multiset{t}
    requires if t.oneShot then c == rest else multiset(c) == multiset(rest) + multiset{t.(time := t.timeout)}
    ensures Holds(c, Taken(timers, t.id)) && Taken(timers, t.id).Keys <= live
    ensures forall id :: id in Taken(timers, t.id) ==> Taken(timers, t.id)[id].timeout > 0.0
  {
    HoldsLess(before, rest, timers, t);
    if !t.oneShot {
      var t' := t.(time := t.timeout);
      HoldsMore(rest, c, timers - {t.id}, t');
      assert (timers - {t.id})[t.id := t'] == timers[t.id := t'];
    }
  }

  lemma HoldsCountdown(c: seq<Timer>, timers: map<nat, Timer>, dt: real)
    requires Holds(c, timers)
    ensures Holds(MinusAll(c, dt), Countdown(timers, dt))
  {
    var d, less := MinusAll(c, dt), Countdown(timers, dt);
    forall v: Timer
      ensures multiset(d)[v] == multiset(less.Values)[v]
    {
      var u := Minus(v, -dt);
      MinusAllElements(c, dt, u);
      assert Minus(u, dt) == v;
      if u in timers.Values {
        assert less[u.id] == v;
      }
      if v in less.Values {
        var id :| id in less && less[id] == v;
        assert timers[id] == u;
      }
    }
    assert multiset(d) == multiset(less.Values);
  }

  lemma HoldsNone(c: seq<Timer>, timers: map<nat, Timer>)
    requires Holds(c, timers)
    ensures c == [] <==> timers == map[]
  {
    forall id | id in timers
      ensures c != []
    {
      HoldsId(c, timers, id);
    }
    if c != [] {
      HoldsTimer(c, timers, 0);
    }
  }

  lemma NotThere(c: seq<Timer>, timers: map<nat, Timer>, id: nat)
    requires Holds(c, timers) && forall i :: 0 <= i < |c| ==> c[i].id != id
    ensures id !in timers
  {
    if id in timers {
      HoldsId(c, timers, id);
    }
  }

  /** The top of the heap is a timer with the least time left. */
  lemma TopOfTable(c: seq<Timer>, timers: map<nat, Timer>)
    requires Holds(c, timers) && c != [] && forall i :: 0 <= i < |c| ==> c[0].time <= c[i].time
    ensures Least(timers, c[0].id) && timers[c[0].id] == c[0]
    ensures c[0].time > 0.0 <==> forall id :: id in timers ==> timers[id].time > 0.0
  {
    HoldsTimer(c, timers, 0);
    forall id | id in timers
      ensures c[0].time <= timers[id].time
    {
      HoldsId(c, timers, id);
    }
  }

  datatype TimerEvent = TimerEvent(target: nat, timer: nat, count: int)

  /** The part of CEventQueue that has to do with timers. */
  class EventTimers {
    const time: Watches.Stopwatch
    const timerQueue: PriorityQueue
    var live: set<nat>
    ghost var timers: map<nat, Timer>
    ghost var clock: real

    ghost predicate Valid()
      reads this, time, timerQueue
    {
      && timerQueue.Valid() && Holds(timerQueue.c, timers) && timers.Keys <= live
      && !time.stopped && !time.triggered && time.mark <= clock
      && forall id :: id in timers ==> timers[id].timeout > 0.0
    }

    ghost function Current(): State
      reads this, time
    {
      State(time.mark, clock, live, timers)
    }

    constructor (now: real)
      ensures Valid() && Current() == Start(now)
      ensures fresh(time) && fresh(timerQueue)
    {
      time := new Watches.Stopwatch(false, now);
      timerQueue := new PriorityQueue();
      live, timers, clock := {}, map[], now;
    }

    method NewTimer(timer: nat, duration: real, target: Option<nat>, now: real)
      requires Valid() && duration > 0.0 && timer !in live && now >= clock
      modifies this, time, timerQueue
      ensures timers == old(timers)[timer := Timer(timer, duration, if target.Some? then target.value else timer, false,
                                                    duration + (now - time.mark))]
      ensures live == old(live) + {timer} && time.mark == old(time.mark)
      ensures var create := Create(timer, duration, if target.Some? then target.value else timer, false, now);
        Valid() && Enabled(old(Current()), create) && Current() == Apply(old(Current()), create)
    {
      AddTimer(timer, duration, if target.Some? then target.value else timer, false, now);
    }

    method NewOneShotTimer(timer: nat, duration: real, target: Option<nat>, now: real)
      requires Valid() && duration > 0.0 && timer !in live && now >= clock
      modifies this, time, timerQueue
      ensures timers == old(timers)[timer := Timer(timer, duration, if target.Some? then target.value else timer, true,
                                                    duration + (now - time.mark))]
      ensures live == old(live) + {timer} && time.mark == old(time.mark)
      ensures var create := Create(timer, duration, if target.Some? then target.value else timer, true, now);
        Valid() && Enabled(old(Current()), create) && Current() == Apply(old(Current()), create)
    {
      AddTimer(timer, duration, if target.Some? then target.value else timer, true, now);
    }

    /** The part that newTimer and newOneShotTimer share: what is on the stopwatch is added because the
        next poll will take it off. */
    method AddTimer(timer: nat, duration: real, target: nat, oneShot: bool, now: real)
      requires Valid() && duration > 0.0 && timer !in live && now >= clock
      modifies this, time, timerQueue
      ensures timers == old(timers)[timer := Timer(timer, duration, target, oneShot, duration + (now - time.mark))]
      ensures live == old(live) + {timer} && time.mark == old(time.mark)
      ensures var create := Create(timer, duration, target, oneShot, now);
        Valid() && Enabled(old(Current()), create) && Current() == Apply(old(Current()), create)
    {
      live := live + {timer};
      var elapsed := time.GetTime(now);
      var t := Timer(timer, duration, target, oneShot, duration + elapsed);
      ghost var before := timerQueue.c;
      timerQueue.Push(t);
      HoldsMore(before, timerQueue.c, timers, t);
      timers, clock := timers[timer := t], now;
    }

    method DeleteTimer(timer: nat)
      requires Valid()
      modifies this, timerQueue
      ensures Valid() && timers == old(timers) - {timer} && live == old(live) - {timer}
      ensures forall i :: 0 <= i < |timerQueue.c| ==> timerQueue.c[i].id != timer
      ensures Current() == Apply(old(Current()), Delete(timer))
    {
      var index := 0;
      while index < |timerQueue.c| && timerQueue.c[index].id != timer
        invariant 0 <= index <= |timerQueue.c| && forall i :: 0 <= i < index ==> timerQueue.c[i].id != timer
      {
        index := index + 1;
      }
      ghost var before := timerQueue.c;
      if index < |timerQueue.c| {
        HoldsTimer(before, timers, index);
        timerQueue.Erase(index);
        HoldsLess(before, timerQueue.c, timers, before[index]);
      } else {
        NotThere(before, timers, timer);
        assert timers - {timer} == timers;
      }
      timers := timers - {timer};
      live := live - {timer};
      forall i | 0 <= i < |timerQueue.c|
        ensures timerQueue.c[i].id != timer
      {
        HoldsTimer(timerQueue.c, timers, i);
      }
    }

    method HasTimerExpired(check: real, reset: real) returns (event: Option<TimerEvent>)
      requires Valid() && clock <= check <= reset
      modifies this, time, timerQueue
      ensures Valid()
      ensures var poll := Poll(check, reset, if event.Some? then Some(event.value.timer) else None);
        Enabled(old(Current()), poll) && Current() == Apply(old(Current()), poll)
      ensures event.Some? ==>
        && event.value.target == old(timers)[event.value.timer].target
        && event.value.count == CountAt(old(Current()), check, event.value.timer)
    {
      HoldsNone(timerQueue.c, timers);
      if timerQueue.c == [] {
        return None;
      }
      CountDown(check, reset);
      var top := timerQueue.Top();
      TopOfTable(timerQueue.c, timers);
      if top.time > 0.0 {
        return None;
      }
      event := Some(TimerEvent(top.target, top.id, Count(top)));
      TakeTop(top);
    }

    /** Takes the time since the last poll off every timer. */
    method CountDown(check: real, reset: real)
      requires Valid() && timerQueue.c != [] && clock <= check <= reset
      modifies this`timers, this`clock, time, timerQueue
      ensures Valid() && timerQueue.c != []
      ensures Current() == State(reset, reset, live, At(old(Current()), check))
    {
      var elapsed := time.GetTime(check);
      var unused := time.Reset(reset);
      HoldsCountdown(timerQueue.c, timers, elapsed);
      timerQueue.SubtractFromAll(elapsed);
      timers, clock := Countdown(timers, elapsed), reset;
    }

    /** Removes the expired timer from the queue and puts it back if it is periodic. */
    method TakeTop(top: Timer)
      requires Valid() && timerQueue.c != [] && top == timerQueue.c[0] && top.id in timers && timers[top.id] == top
      modifies this`timers, timerQueue
      ensures Valid() && timers == Taken(old(timers), top.id)
    {
      ghost var before := timerQueue.c;
      timerQueue.Pop();
      ghost var rest := timerQueue.c;
      if !top.oneShot {
        timerQueue.Push(top.(time := top.timeout));
      }
      HoldsTaken(before, rest, timerQueue.c, timers, live, top);
      timers := Taken(timers, top.id);
    }

    /** getNextTimerTimeout. */
    method NextTimerTimeout() returns (timeout: real)
      requires Valid()
      ensures timers == map[] <==> timeout == -1.0
      ensures timers != map[] ==> timeout >= 0.0 && (timeout == 0.0 <==> exists id :: id in timers && timers[id].time <= 0.0)
      ensures timers != map[] ==> forall id :: id in timers && timers[id].time > 0.0 ==> timeout <= timers[id].time
      ensures timeout > 0.0 ==> exists id :: id in timers && timers[id].time == timeout
    {
      HoldsNone(timerQueue.c, timers);
      if timerQueue.c == [] {
        return -1.0;
      }
      var top := timerQueue.Top();
      TopOfTable(timerQueue.c, timers);
      assert timers[top.id] == top;
      return if top.time <= 0.0 then 0.0 else top.time;
    }
  }

  /** Waiting for the time that getNextTimerTimeout gives after a poll is neither too short nor too long:
      a later poll reports a timer if and only if that much time has passed since the last one. */
  lemma NextTimeoutIsRight(s: State, timeout: real, check: real, reset: real, report: Option<nat>)
    requires s.timers != map[] && timeout > 0.0 && s.clock <= check <= reset
    requires forall id :: id in s.timers ==> timeout <= s.timers[id].time
    requires exists id :: id in s.timers && s.timers[id].time == timeout
    requires Enabled(s, Poll(check, reset, report))
    ensures report.Some? <==> check - s.mark >= timeout
  {
    var id :| id in s.timers && s.timers[id].time == timeout;
    assert At(s, check)[id].time == timeout - (check - s.mark);
    if report.Some? {
      assert At(s, check)[report.value].time <= At(s, check)[id].time;
    }
  }
}
