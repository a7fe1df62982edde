/** CStopwatch.  A reading of the clock is a parameter of the call that takes it. */
module Stopwatch {
  datatype Call = Reset | Stop | Start | SetTrigger | GetTime

  /** A call and the time it is made. */
  datatype Event = Event(call: Call, at: real)

  /** The fields: the mark is the time of the last reset while running and the time counted while stopped. */
  datatype Watch = Watch(mark: real, triggered: bool, stopped: bool) {
    /** getTime() const. */
    function Elapsed(now: real): real {
      if stopped then mark else now - mark
    }

    function Reset(now: real): Watch {
      this.(mark := if stopped then 0.0 else now)
    }

    function Stop(now: real): Watch {
      if stopped then this else this.(mark := now - mark, stopped := true)
    }

    function Start(now: real): Watch {
      if stopped then Watch(now - mark, false, false) else this.(triggered := false)
    }

    function SetTrigger(now: real): Watch {
      Stop(now).(triggered := true)
    }

    function GetTime(now: real): Watch {
      if triggered then Start(now) else this
    }

    function Apply(e: Event): Watch {
      match e.call
      case Reset => Reset(e.at)
      case Stop => Stop(e.at)
      case Start => Start(e.at)
      case SetTrigger => SetTrigger(e.at)
      case GetTime => GetTime(e.at)
    }
  }

  function New(triggered: bool, now: real): Watch {
    Watch(if triggered then 0.0 else now, triggered, triggered)
  }

  function After(triggered: bool, start: real, h: seq<Event>): Watch {
    if h == [] then New(triggered, start) else After(triggered, start, h[..|h| - 1]).Apply(h[|h| - 1])
  }

  // ---------- what a stopwatch should show ----------

  /** A trigger is pending after these calls. */
  predicate Armed(triggered: bool, h: seq<Event>) {
    if h == [] then triggered else
    match h[|h| - 1].call
    case SetTrigger => true
    case Start => false
    case GetTime => false
    case _ => Armed(triggered, h[..|h| - 1])
  }

  /** The watch runs after these calls. */
  predicate Running(triggered: bool, h: seq<Event>) {
    if h == [] then !triggered else
    var before := h[..|h| - 1];
    match h[|h| - 1].call
    case Reset => Running(triggered, before)
    case Stop => false
    case Start => true
    case SetTrigger => false
    case GetTime => Running(triggered, before) || Armed(triggered, before)
  }

  /** The time that passed while the watch was running, since the last reset. */
  function Counted(triggered: bool, start: real, h: seq<Event>, now: real): real
    decreases |h|
  {
    if h == [] then (if triggered then 0.0 else now - start) else
    var e := h[|h| - 1];
    (if e.call.Reset? then 0.0 else Counted(triggered, start, h[..|h| - 1], e.at))
    + (if Running(triggered, h) then now - e.at else 0.0)
  }

  predicate Ordered(start: real, h: seq<Event>) {
    h == [] || (Ordered(start, h[..|h| - 1]) && h[|h| - 1].at >= LastTime(start, h[..|h| - 1]))
  }

  function LastTime(start: real, h: seq<Event>): real {
    if h == [] then start else h[|h| - 1].at
  }

  lemma {:induction false} Flags(triggered: bool, start: real, h: seq<Event>)
    ensures var w := After(triggered, start, h);
      w.triggered == Armed(triggered, h) && w.stopped == !Running(triggered, h) && (w.triggered ==> w.stopped)
  {
    if h != [] {
      Flags(triggered, start, h[..|h| - 1]);
    }
  }

  /** Three fields are enough: after any calls the watch shows the time counted while running. */
  lemma {:induction false} ShowsCountedTime(triggered: bool, start: real, h: seq<Event>, now: real)
    ensures After(triggered, start, h).Elapsed(now) == Counted(triggered, start, h, now)
    decreases |h|
  {
    if h != [] {
      var before, e := h[..|h| - 1], h[|h| - 1];
      Flags(triggered, start, before);
      Flags(triggered, start, h);
      ShowsCountedTime(triggered, start, before, e.at);
    }
  }

  /** On a clock that does not go back the watch never shows a negative time, never one longer than its
      life, and never less than before unless it is reset. */
  lemma {:induction false} CountedBounds(triggered: bool, start: real, h: seq<Event>, now: real)
    requires Ordered(start, h) && now >= LastTime(start, h)
    ensures 0.0 <= Counted(triggered, start, h, now) <= now - start
    ensures h != [] && h[|h| - 1].call != Reset ==>
      Counted(triggered, start, h[..|h| - 1], h[|h| - 1].at) <= Counted(triggered, start, h, now)
    decreases |h|
  {
    if h != [] {
      CountedBounds(triggered, start, h[..|h| - 1], h[|h| - 1].at);
    }
  }

  /** What had been counted when the watch was armed. */
  function WhenArmed(triggered: bool, start: real, h: seq<Event>): real {
    if h == [] then 0.0
    else if h[|h| - 1].call == SetTrigger then Counted(triggered, start, h[..|h| - 1], h[|h| - 1].at)
    else WhenArmed(triggered, start, h[..|h| - 1])
  }

  /** The watch has been reset since it was armed. */
  predicate ResetSince(h: seq<Event>) {
    h != [] && h[|h| - 1].call != SetTrigger && (h[|h| - 1].call == Reset || ResetSince(h[..|h| - 1]))
  }

  lemma {:induction false} ArmedShows(triggered: bool, start: real, h: seq<Event>, now: real)
    requires Armed(triggered, h)
    ensures !Running(triggered, h)
    ensures Counted(triggered, start, h, now) == if ResetSince(h) then 0.0 else WhenArmed(triggered, start, h)
    decreases |h|
  {
    Flags(triggered, start, h);
    if h != [] && h[|h| - 1].call != SetTrigger {
      Flags(triggered, start, h[..|h| - 1]);
      ArmedShows(triggered, start, h[..|h| - 1], h[|h| - 1].at);
    }
  }

  /** The documentation has an armed watch return zero and start from zero when it is read.  After any
      calls it does so if and only if nothing had been counted when it was armed or it has been reset
      since. */
  lemma TriggerStartsFromZero(triggered: bool, start: real, h: seq<Event>, read: real, later: real)
    requires Armed(triggered, h)
    ensures var w := After(triggered, start, h);
      var fromZero := WhenArmed(triggered, start, h) == 0.0 || ResetSince(h);
      && (w.Elapsed(read) == 0.0 <==> fromZero)
      && (w.GetTime(read).Elapsed(later) == later - read <==> fromZero)
  {
    Flags(triggered, start, h);
    ShowsCountedTime(triggered, start, h, read);
    ArmedShows(triggered, start, h, read);
  }

  /** A watch that ran for five seconds, then armed and read: it returns five and goes on from there. */
  lemma ArmedLateExample()
    ensures var h := [Event(SetTrigger, 5.0)];
      && Armed(false, h) && After(false, 0.0, h).Elapsed(6.0) == 5.0
      && After(false, 0.0, h).GetTime(6.0).Elapsed(7.0) == 6.0
  {
    assert [Event(SetTrigger, 5.0)][..0] == [];
  }

  class Stopwatch {
    var mark: real
    var triggered: bool
    var stopped: bool

    ghost function State(): Watch
      reads this
    {
      Watch(mark, triggered, stopped)
    }

    constructor (triggered: bool, now: real)
      ensures State() == New(triggered, now)
    {
      mark, this.triggered, stopped := 0.0, triggered, triggered;
      if !triggered {
        mark := now;
      }
    }

    method Reset(now: real) returns (dt: real)
      modifies this
      ensures State() == old(State()).Reset(now)
      ensures dt == old(State()).Elapsed(now)
    {
      if stopped {
        dt := mark;
        mark := 0.0;
      } else {
        dt := now - mark;
        mark := now;
      }
    }

    method Stop(now: real)
      modifies this
      ensures State() == old(State()).Stop(now)
    {
      if stopped {
        return;
      }
      mark := now - mark;
      stopped := true;
    }

    method Start(now: real)
      modifies this
      ensures State() == old(State()).Start(now)
    {
      triggered := false;
      if !stopped {
        return;
      }
      mark := now - mark;
      stopped := false;
    }

    method SetTrigger(now: real)
      modifies this
      ensures State() == old(State()).SetTrigger(now)
    {
      Stop(now);
      triggered := true;
    }

    method GetTime(now: real) returns (dt: real)
      requires triggered ==> stopped
      modifies this
      ensures State() == old(State()).GetTime(now)
      ensures dt == old(State()).Elapsed(now)
    {
      if triggered {
        dt := mark;
        Start(now);
      } else if stopped {
        dt := mark;
      } else {
        dt := now - mark;
      }
    }
  }
}
