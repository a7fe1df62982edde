/** The start of CEventQueue's loop among threads that add events.

    addEvent looks at the ready flag and then puts the event in one of two queues, and the loop sets the
    flag and then empties the queue of pending events; nothing makes either pair of steps one. */
module EventQueueStart {
  import opened EventQueue

  type Thread = nat

  /** A thread between looking at the flag and putting its event away. */
  datatype Decision = Decision(event: Event, direct: bool)

  /** `buffer` is everything that was ever put in the buffer; `flushed` says that the loop is past
      looking at the pending events. */
  datatype State = State(ready: bool, flushed: bool, pending: seq<Event>, buffer: seq<Event>, deciding: map<Thread, Decision>)

  datatype Step = Decide(t: Thread, event: Event) | Put(t: Thread) | SetReady | Flush | EndFlush

  const INITIAL := State(false, false, [], [], map[])

  predicate Enabled(s: State, step: Step) {
    match step
    case Decide(t, e) => t !in s.deciding && Queued(e)
    case Put(t) => t in s.deciding
    case SetReady => !s.ready
    case Flush => s.ready && !s.flushed && s.pending != []
    case EndFlush => s.ready && !s.flushed && s.pending == []
  }

  function Apply(s: State, step: Step): State
    requires Enabled(s, step)
  {
    match step
    case Decide(t, e) => s.(deciding := s.deciding[t := Decision(e, s.ready)])
    case Put(t) =>
      var d := s.deciding[t];
      var s' := s.(deciding := s.deciding - {t});
      if d.direct then s'.(buffer := s.buffer + [d.event]) else s'.(pending := s.pending + [d.event])
    case SetReady => s.(ready := true)
    case Flush => s.(buffer := s.buffer + [s.pending[0]], pending := s.pending[1..])
    case EndFlush => s.(flushed := true)
  }

  predicate IsRun(steps: seq<Step>)
    decreases |steps|, 0
  {
    steps == [] || (IsRun(steps[..|steps| - 1]) && Enabled(After(steps[..|steps| - 1]), steps[|steps| - 1]))
  }

  function After(steps: seq<Step>): State
    requires IsRun(steps)
    decreases |steps|, 1
  {
    if steps == [] then INITIAL else Apply(After(steps[..|steps| - 1]), steps[|steps| - 1])
  }

  /** The event that a step puts away. */
  function AddedBy(s: State, step: Step): seq<Event> {
    if step.Put? && step.t in s.deciding then [s.deciding[step.t].event] else []
  }

  /** The events put away, in that order. */
  function Added(steps: seq<Step>): seq<Event>
    requires IsRun(steps)
    decreases |steps|
  {
    if steps == [] then []
    else Added(steps[..|steps| - 1]) + AddedBy(After(steps[..|steps| - 1]), steps[|steps| - 1])
  }

  /** The event that a step leaves behind the loop's back. */
  function LateBy(s: State, step: Step): seq<Event> {
    if step.Put? && step.t in s.deciding && s.flushed && !s.deciding[step.t].direct then AddedBy(s, step) else []
  }

  /** Those of them that were put away as pending when the loop no longer looked there. */
  function Late(steps: seq<Step>): seq<Event>
    requires IsRun(steps)
    decreases |steps|
  {
    if steps == [] then []
    else Late(steps[..|steps| - 1]) + LateBy(After(steps[..|steps| - 1]), steps[|steps| - 1])
  }

  /** An event went into the buffer while others were still pending. */
  predicate Overtakes(s: State, step: Step) {
    step.Put? && step.t in s.deciding && s.deciding[step.t].direct && s.pending != []
  }

  predicate SomeOvertake(steps: seq<Step>)
    requires IsRun(steps)
    decreases |steps|
  {
    steps != [] && (SomeOvertake(steps[..|steps| - 1]) || Overtakes(After(steps[..|steps| - 1]), steps[|steps| - 1]))
  }

  lemma OneMoreElement(a: seq<Event>, b: seq<Event>, e: Event)
    ensures multiset((a + [e]) + b) == multiset(a + b) + multiset([e])
    ensures multiset(a + (b + [e])) == multiset(a + b) + multiset([e])
  {
  }

  lemma OthersKeepAll(s: State, step: Step)
    requires Enabled(s, step) && !step.Put?
    ensures Apply(s, step).buffer + Apply(s, step).pending == s.buffer + s.pending
  {
    if step.Flush? {
      assert (s.buffer + [s.pending[0]]) + s.pending[1..] == s.buffer + s.pending;
    }
  }

  lemma StepKeepsEvents(s: State, step: Step)
    requires Enabled(s, step)
    ensures var s' := Apply(s, step);
      multiset(s'.buffer + s'.pending) == multiset(s.buffer + s.pending) + multiset(AddedBy(s, step))
    ensures !step.Put? ==> Apply(s, step).buffer + Apply(s, step).pending == s.buffer + s.pending
  {
    if step.Put? {
      OneMoreElement(s.buffer, s.pending, s.deciding[step.t].event);
    } else {
      OthersKeepAll(s, step);
      assert AddedBy(s, step) == [];
    }
  }

  /** In every interleaving every event put away is in the buffer or pending, once. */
  lemma {:induction false} NothingVanishes(steps: seq<Step>)
    requires IsRun(steps)
    ensures multiset(After(steps).buffer + After(steps).pending) == multiset(Added(steps))
    decreases |steps|
  {
    if steps != [] {
      NothingVanishes(steps[..|steps| - 1]);
      StepKeepsEvents(After(steps[..|steps| - 1]), steps[|steps| - 1]);
    }
  }

  lemma StepStrands(s: State, step: Step, late: seq<Event>)
    requires Enabled(s, step) && (if s.flushed then s.pending == late else late == [])
    ensures var s' := Apply(s, step);
      if s'.flushed then s'.pending == late + LateBy(s, step) else late + LateBy(s, step) == []
  {
    assert late + [] == late;
  }

  /** Once the loop is past the pending events, those still pending are exactly the ones put there late;
      they stay there for good. */
  lemma {:induction false} LateAreStranded(steps: seq<Step>)
    requires IsRun(steps)
    ensures if After(steps).flushed then After(steps).pending == Late(steps) else Late(steps) == []
    decreases |steps|
  {
    if steps != [] {
      var before := steps[..|steps| - 1];
      LateAreStranded(before);
      StepStrands(After(before), steps[|steps| - 1], Late(before));
    }
  }

  lemma OneMore(steps: seq<Step>, step: Step)
    requires IsRun(steps) && Enabled(After(steps), step)
    ensures IsRun(steps + [step]) && After(steps + [step]) == Apply(After(steps), step)
    ensures Added(steps + [step]) == Added(steps) + AddedBy(After(steps), step)
  {
    assert (steps + [step])[..|steps|] == steps;
  }

  lemma BufferedIffNonePending(steps: seq<Step>)
    requires IsRun(steps)
    ensures multiset(After(steps).buffer) == multiset(Added(steps)) <==> After(steps).pending == []
  {
    NothingVanishes(steps);
    var s := After(steps);
    if s.pending != [] {
      assert s.pending[0] in multiset(s.pending);
      assert multiset(s.buffer + s.pending)[s.pending[0]] > multiset(s.buffer)[s.pending[0]];
    } else {
      assert s.buffer + s.pending == s.buffer;
    }
  }

  /** No thread is between looking at the flag, when it was not yet set, and putting its event away. */
  predicate NobodyLate(s: State) {
    forall t :: t in s.deciding ==> s.deciding[t].direct
  }

  /** The loop is past the pending events, and there are none. */
  predicate Done(s: State) { s.ready && s.flushed && s.pending == [] }

  lemma DoneStep(s: State, step: Step)
    requires Enabled(s, step) && Done(s) && NobodyLate(s)
    ensures Done(Apply(s, step)) && NobodyLate(Apply(s, step))
  {
  }

  lemma {:induction false} DoneRun(steps: seq<Step>, more: seq<Step>)
    requires IsRun(steps + more) && IsRun(steps) && Done(After(steps)) && NobodyLate(After(steps))
    ensures Done(After(steps + more)) && NobodyLate(After(steps + more))
    decreases |more|
  {
    if more == [] {
      assert steps + more == steps;
    } else {
      var all := steps + more;
      assert all[..|all| - 1] == steps + more[..|more| - 1];
      DoneRun(steps, more[..|more| - 1]);
      DoneStep(After(all[..|all| - 1]), all[|all| - 1]);
    }
  }

  predicate AllBuffered(steps: seq<Step>)
    requires IsRun(steps)
  {
    multiset(After(steps).buffer) == multiset(Added(steps))
  }

  predicate NoneLeftBehind(ended: seq<Step>, more: seq<Step>) { IsRun(ended + more) ==> AllBuffered(ended + more) }

  lemma NobodyLateIsEnough(ended: seq<Step>, more: seq<Step>)
    requires IsRun(ended) && IsRun(ended + more) && Done(After(ended)) && NobodyLate(After(ended))
    ensures AllBuffered(ended + more)
  {
    DoneRun(ended, more);
    BufferedIffNonePending(ended + more);
  }

  /** A thread that is late can leave its event behind with its very next step. */
  lemma LateStrands(ended: seq<Step>, t: Thread)
    requires IsRun(ended) && Done(After(ended)) && t in After(ended).deciding && !After(ended).deciding[t].direct
    ensures IsRun(ended + [Put(t)]) && !AllBuffered(ended + [Put(t)])
  {
    OneMore(ended, Put(t));
    BufferedIffNonePending(ended + [Put(t)]);
  }

  /** When the loop finds no more pending events: every event that is ever put away reaches the buffer,
      in every continuation, if and only if no thread is late at that moment. */
  lemma AllReachTheBufferIff(steps: seq<Step>)
    requires IsRun(steps) && Enabled(After(steps), EndFlush)
    ensures IsRun(steps + [EndFlush])
    ensures NobodyLate(After(steps)) <==> forall more: seq<Step> :: NoneLeftBehind(steps + [EndFlush], more)
  {
    var ended := steps + [EndFlush];
    OneMore(steps, EndFlush);
    if NobodyLate(After(steps)) {
      forall more: seq<Step>
        ensures NoneLeftBehind(ended, more)
      {
        if IsRun(ended + more) {
          NobodyLateIsEnough(ended, more);
        }
      }
    } else {
      var t :| t in After(steps).deciding && !After(steps).deciding[t].direct;
      LateStrands(ended, t);
      assert !NoneLeftBehind(ended, [Put(t)]);
    }
  }

  predicate Distinct(s: seq<Event>) {
    forall i, j :: 0 <= i < j < |s| ==> s[i] != s[j]
  }

  lemma DistinctEnd(s: seq<Event>, e: Event)
    requires Distinct(s + [e])
    ensures Distinct(s) && e !in s
  {
    forall i | 0 <= i < |s|
      ensures s[i] != e
    {
      assert (s + [e])[i] == s[i] && (s + [e])[|s|] == e;
    }
    forall i, j | 0 <= i < j < |s|
      ensures s[i] != s[j]
    {
      assert (s + [e])[i] == s[i] && (s + [e])[j] == s[j];
    }
  }

  /** The events are in the order in which they were added, the buffer's first, if none has overtaken
      pending ones... */
  lemma {:induction false} OrderKept(steps: seq<Step>)
    requires IsRun(steps) && !SomeOvertake(steps)
    ensures After(steps).buffer + After(steps).pending == Added(steps)
    decreases |steps|
  {
    if steps != [] {
      var before, last := steps[..|steps| - 1], steps[|steps| - 1];
      OrderKept(before);
      StepKeepsOrder(After(before), last);
    }
  }

  lemma StepKeepsOrder(s: State, step: Step)
    requires Enabled(s, step) && !Overtakes(s, step)
    ensures Apply(s, step).buffer + Apply(s, step).pending == s.buffer + s.pending + AddedBy(s, step)
  {
    StepKeepsEvents(s, step);
    if step.Put? && s.deciding[step.t].direct {
      assert s.pending == [];
    }
  }

  /** ...and, where it can be told, only then. */
  lemma {:induction false} OrderKeptIff(steps: seq<Step>)
    requires IsRun(steps) && Distinct(Added(steps))
    ensures After(steps).buffer + After(steps).pending == Added(steps) <==> !SomeOvertake(steps)
    decreases |steps|
  {
    if steps != [] {
      var before, last := steps[..|steps| - 1], steps[|steps| - 1];
      var s := After(before);
      StepKeepsEvents(s, last);
      if last.Put? {
        var e := s.deciding[last.t].event;
        DistinctEnd(Added(before), e);
        OrderKeptIff(before);
        NothingVanishes(before);
        PutKeepsOrder(s.buffer, s.pending, Added(before), e, s.deciding[last.t].direct);
      } else {
        assert Added(before) + [] == Added(before);
        OrderKeptIff(before);
      }
    }
  }

  lemma PutKeepsOrder(buffer: seq<Event>, pending: seq<Event>, added: seq<Event>, e: Event, direct: bool)
    requires multiset(buffer + pending) == multiset(added) && e !in added
    ensures var all := if direct then (buffer + [e]) + pending else buffer + (pending + [e]);
      all == added + [e] <==> buffer + pending == added && !(direct && pending != [])
  {
    var all := if direct then (buffer + [e]) + pending else buffer + (pending + [e]);
    if direct && pending != [] {
      var last := pending[|pending| - 1];
      assert last in multiset(buffer + pending) by {
        assert (buffer + pending)[|buffer| + |pending| - 1] == last;
      }
      assert last in added;
      assert all[|all| - 1] == last;
      assert (added + [e])[|added|] == e;
    } else {
      assert all == (buffer + pending) + [e];
      if all == added + [e] {
        assert all[..|all| - 1] == buffer + pending;
        assert (added + [e])[..|added|] == added;
      }
    }
  }

  /** An event added after the flag was set goes in front of one that was added before. */
  lemma OvertakingExample(e: Event, f: Event)
    requires Queued(e) && Queued(f)
    ensures var steps := [Decide(0, e)] + [Put(0)] + [SetReady] + [Decide(0, f)] + [Put(0)] + [Flush] + [EndFlush];
      IsRun(steps) && Added(steps) == [e, f] && After(steps).buffer == [f, e] && After(steps).pending == []
  {
    var s1 := [Decide(0, e)];
    var s2 := s1 + [Put(0)];
    var s3 := s2 + [SetReady];
    var s4 := s3 + [Decide(0, f)];
    var s5 := s4 + [Put(0)];
    var s6 := s5 + [Flush];
    assert [] + s1 == s1;
    OneMore([], Decide(0, e));
    OneMore(s1, Put(0));
    OneMore(s2, SetReady);
    OneMore(s3, Decide(0, f));
    OneMore(s4, Put(0));
    OneMore(s5, Flush);
    OneMore(s6, EndFlush);
  }

  /** A thread that looked before the flag was set and puts its event away after the flush leaves it
      pending for good. */
  lemma StrandedExample(e: Event)
    requires Queued(e)
    ensures var steps := [Decide(0, e)] + [SetReady] + [EndFlush] + [Put(0)];
      IsRun(steps) && After(steps).flushed && After(steps).pending == [e] && After(steps).buffer == []
  {
    assert [] + [Decide(0, e)] == [Decide(0, e)];
    OneMore([], Decide(0, e));
    OneMore([Decide(0, e)], SetReady);
    OneMore([Decide(0, e)] + [SetReady], EndFlush);
    OneMore([Decide(0, e)] + [SetReady] + [EndFlush], Put(0));
  }
}
