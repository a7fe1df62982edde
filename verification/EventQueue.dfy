/** How CEventQueue keeps and recycles events: a table indexed by ids, a list of old ids to use again,
    and a buffer through which only the ids pass. */
module EventQueue {
  import opened Options
  import opened Timers

  datatype Kind = Unknown | Quit | System | TimerExpired | Other(name: nat)

  datatype Event = Event(kind: Kind, target: nat, data: nat, immediate: bool)

  /** What getEvent returns. */
  datatype Got = Posted(event: Event) | Expired(timer: TimerEvent) | Nothing

  /** CSimpleEventQueueBuffer, without waiting: ids are added at the front and taken from the back. */
  class SimpleEventQueueBuffer {
    var queue: seq<nat>
    var queueReady: bool

    ghost predicate Valid()
      reads this
    {
      queueReady == (queue != [])
    }

    constructor ()
      ensures Valid() && queue == []
    {
      queue, queueReady := [], false;
    }

    method AddEvent(dataID: nat) returns (added: bool)
      requires Valid()
      modifies this
      ensures Valid() && added && queue == [dataID] + old(queue)
    {
      queue := [dataID] + queue;
      if !queueReady {
        queueReady := true;
      }
      return true;
    }

    /** None stands for kNone, Some for kUser. */
    method GetEvent() returns (dataID: Option<nat>)
      requires Valid()
      modifies this
      ensures Valid()
      ensures if old(queue) == [] then dataID.None? && queue == []
              else dataID.Some? && queue + [dataID.value] == old(queue)
    {
      if !queueReady {
        return None;
      }
      dataID := Some(queue[|queue| - 1]);
      queue := queue[..|queue| - 1];
      queueReady := queue != [];
    }

    predicate IsEmpty()
      requires Valid()
      reads this
      ensures IsEmpty() <==> queue == []
    {
      !queueReady
    }
  }

  // ---------- ids ----------

  /** s holds 0, 1, ..., |s| - 1, each once. */
  ghost predicate OnceEach(s: seq<nat>) {
    forall x: nat :: multiset(s)[x] == if x < |s| then 1 else 0
  }

  /** The ids in the buffer are the keys of the table; with the old ids they are the first numbers. */
  ghost predicate Partition(queue: seq<nat>, old': seq<nat>, events: map<nat, Event>) {
    && OnceEach(queue + old')
    && (forall id :: id in queue <==> id in events)
  }

  function Elements(s: seq<nat>): set<nat> { set x | x in s }

  lemma {:induction false} SetSize(s: seq<nat>)
    requires forall x: nat :: multiset(s)[x] <= 1
    ensures |Elements(s)| == |s|
  {
    if s != [] {
      var k := |s| - 1;
      var t: seq<nat> := s[..k];
      assert s == t + [s[k]];
      forall x: nat
        ensures multiset(t)[x] <= 1
      {
        assert multiset(s)[x] == multiset(t)[x] + (if x == s[k] then 1 else 0);
      }
      SetSize(t);
      assert multiset(s)[s[k]] == multiset(t)[s[k]] + 1;
      assert s[k] !in t;
      assert Elements(s) == Elements(t) + {s[k]};
    }
  }

  lemma InQueue(queue: seq<nat>, old': seq<nat>, events: map<nat, Event>)
    requires Partition(queue, old', events)
    ensures forall x: nat :: multiset(queue)[x] <= 1 && multiset(old')[x] <= 1 && (x in queue ==> x !in old')
    ensures |events| == |queue|
  {
    forall x: nat
      ensures multiset(queue)[x] <= 1 && multiset(old')[x] <= 1 && (x in queue ==> x !in old')
    {
      assert multiset(queue + old')[x] == multiset(queue)[x] + multiset(old')[x];
    }
    SetSize(queue);
    assert events.Keys == Elements(queue);
  }

  /** The id that saveEvent chooses: the last one given back, or the size of the table. */
  function Chosen(old': seq<nat>, events: map<nat, Event>): nat {
    if old' != [] then old'[|old'| - 1] else |events|
  }

  function Unchosen(old': seq<nat>): seq<nat> { if old' == [] then [] else old'[..|old'| - 1] }

  /** That id is free, and taking it keeps the partition. */
  lemma ChosenIsFree(queue: seq<nat>, old': seq<nat>, events: map<nat, Event>, e: Event)
    requires Partition(queue, old', events)
    ensures Chosen(old', events) !in events
    ensures Partition([Chosen(old', events)] + queue, Unchosen(old'), events[Chosen(old', events) := e])
  {
    InQueue(queue, old', events);
    if old' != [] {
      var id := Chosen(old', events);
      assert old' == Unchosen(old') + [id] && id in old';
      ReusedIsFree(queue, Unchosen(old'), id, events, e);
    } else {
      NewIsFree(queue, events, e);
    }
  }

  lemma ReusedIsFree(queue: seq<nat>, rest: seq<nat>, id: nat, events: map<nat, Event>, e: Event)
    requires Partition(queue, rest + [id], events) && id !in queue
    ensures id !in events && Partition([id] + queue, rest, events[id := e])
  {
    SameElements(queue, id, rest);
    OnceSame(queue + (rest + [id]), ([id] + queue) + rest);
  }

  lemma OnceSame(a: seq<nat>, b: seq<nat>)
    requires OnceEach(a) && multiset(a) == multiset(b)
    ensures OnceEach(b)
  {
    assert |multiset(a)| == |a| && |multiset(b)| == |b|;
  }

  lemma SameElements(queue: seq<nat>, id: nat, rest: seq<nat>)
    ensures multiset(([id] + queue) + rest) == multiset(queue + (rest + [id]))
    ensures multiset((queue + [id]) + rest) == multiset(queue + (rest + [id]))
  {
  }

  lemma NewIsFree(queue: seq<nat>, events: map<nat, Event>, e: Event)
    requires Partition(queue, [], events) && |events| == |queue|
    ensures |events| !in events && Partition([|events|] + queue, [], events[|events| := e])
  {
    var id := |queue|;
    assert queue + [] == queue;
    assert multiset(queue)[id] == 0;
    var all: seq<nat> := [id] + queue;
    assert all + [] == all;
    forall x: nat
      ensures multiset(all)[x] == if x < |all| then 1 else 0
    {
      assert multiset(all)[x] == multiset(queue)[x] + (if x == id then 1 else 0);
    }
  }

  /** Giving the id at the back of the buffer back keeps the partition. */
  lemma TakenIsFree(queue: seq<nat>, id: nat, old': seq<nat>, events: map<nat, Event>)
    requires Partition(queue + [id], old', events)
    ensures id in events && Partition(queue, old' + [id], events - {id})
  {
    InQueue(queue + [id], old', events);
    assert id in queue + [id];
    assert multiset(queue + [id])[id] == multiset(queue)[id] + 1;
    SameElements(queue, id, old');
    forall k: nat
      ensures k in queue <==> k in events - {id}
    {
      assert k in queue + [id] <==> k in queue || k == id;
    }
  }

  // ---------- order ----------

  /** The events in the order in which their ids leave the buffer. */
  ghost function InOrder(queue: seq<nat>, events: map<nat, Event>): (s: seq<Event>)
    requires forall id :: id in queue ==> id in events
    ensures |s| == |queue|
  {
    seq(|queue|, i requires 0 <= i < |queue| =>
      assert queue[|queue| - 1 - i] in queue;
      events[queue[|queue| - 1 - i]])
  }

  lemma OrderAfterAdd(queue: seq<nat>, id: nat, events: map<nat, Event>, e: Event)
    requires (forall k :: k in queue ==> k in events) && id !in events
    ensures InOrder([id] + queue, events[id := e]) == InOrder(queue, events) + [e]
  {
    var queue' := [id] + queue;
    var s, s' := InOrder(queue, events), InOrder(queue', events[id := e]);
    forall i | 0 <= i < |s|
      ensures s'[i] == s[i]
    {
      assert queue'[|queue'| - 1 - i] == queue[|queue| - 1 - i] && queue[|queue| - 1 - i] in queue;
    }
  }

  lemma OrderAfterTake(queue: seq<nat>, id: nat, events: map<nat, Event>)
    requires (forall k :: k in queue + [id] ==> k in events) && id !in queue
    ensures id in queue + [id]
    ensures forall k :: k in queue ==> k in events - {id}
    ensures InOrder(queue + [id], events) == [events[id]] + InOrder(queue, events - {id})
  {
    var whole := queue + [id];
    assert whole[|queue|] == id;
    forall k | k in queue
      ensures k in events - {id}
    {
      assert k in whole;
    }
    var s, s' := InOrder(whole, events), InOrder(queue, events - {id});
    forall i | 0 <= i < |s'|
      ensures s'[i] == s[i + 1]
    {
      assert whole[|whole| - 1 - (i + 1)] == queue[|queue| - 1 - i] && queue[|queue| - 1 - i] in queue;
    }
  }

  // ---------- the plain queue ----------

  /** Events of these kinds cannot be added. */
  predicate Bogus(e: Event) { e.kind == Unknown || e.kind == System || e.kind == TimerExpired }

  /** The event is put in the queue. */
  predicate Queued(e: Event) { !Bogus(e) && !e.immediate }

  datatype Operation = Add(event: Event) | Ready | Take | Adopt

  /** The simple form that the class refines: `out` has been taken, `lost` was in a buffer that was
      replaced. */
  datatype Fifo = Fifo(ready: bool, waiting: seq<Event>, out: seq<Event>, lost: seq<Event>)

  const EMPTY := Fifo(false, [], [], [])

  function Next(q: Fifo, op: Operation): Fifo {
    match op
    case Add(e) => if Queued(e) then q.(waiting := q.waiting + [e]) else q
    case Ready => q.(ready := true)
    case Take =>
      if q.ready && q.waiting != [] then q.(waiting := q.waiting[1..], out := q.out + [q.waiting[0]]) else q
    case Adopt => if q.ready then q.(waiting := [], lost := q.lost + q.waiting) else q
  }

  function Run(q: Fifo, ops: seq<Operation>): Fifo {
    if ops == [] then q else Next(Run(q, ops[..|ops| - 1]), ops[|ops| - 1])
  }

  /** The events put in the queue, in order. */
  function Accepted(ops: seq<Operation>): seq<Event> {
    if ops == [] then [] else
    var last := ops[|ops| - 1];
    Accepted(ops[..|ops| - 1]) + if last.Add? && Queued(last.event) then [last.event] else []
  }

  /** The buffer is replaced while events are waiting in it. */
  predicate Discards(q: Fifo, op: Operation) { op == Adopt && q.ready && q.waiting != [] }

  predicate NeverDiscards(q: Fifo, ops: seq<Operation>) {
    ops == [] || (NeverDiscards(q, ops[..|ops| - 1]) && !Discards(Run(q, ops[..|ops| - 1]), ops[|ops| - 1]))
  }

  function All(q: Fifo): multiset<Event> { multiset(q.out) + multiset(q.waiting) + multiset(q.lost) }

  /** The events of q and those put in since: each is out, waiting or lost, and as often as it was put in. */
  lemma {:induction false} EveryEventAccounted(q: Fifo, ops: seq<Operation>)
    ensures All(Run(q, ops)) == All(q) + multiset(Accepted(ops))
    ensures |q.lost| <= |Run(q, ops).lost| && (|q.lost| < |Run(q, ops).lost| <==> !NeverDiscards(q, ops))
  {
    if ops != [] {
      EveryEventAccounted(q, ops[..|ops| - 1]);
      NextAccounted(Run(q, ops[..|ops| - 1]), ops[|ops| - 1]);
    }
  }

  lemma NextAccounted(q: Fifo, op: Operation)
    ensures All(Next(q, op)) == All(q) + multiset(if op.Add? && Queued(op.event) then [op.event] else [])
    ensures |q.lost| <= |Next(q, op).lost| && (|q.lost| < |Next(q, op).lost| <==> Discards(q, op))
  {
    if op == Take && q.waiting != [] {
      assert q.waiting == [q.waiting[0]] + q.waiting[1..];
    }
  }

  /** Every event comes out once, in the order in which the events were added, those from before the
      start first, and the rest is still waiting, if and only if the buffer is never replaced while
      events are waiting in it. */
  lemma NothingLost(q: Fifo, ops: seq<Operation>)
    ensures Run(q, ops).out + Run(q, ops).waiting == q.out + q.waiting + Accepted(ops) <==> NeverDiscards(q, ops)
  {
    EveryEventAccounted(q, ops);
    Sizes(q);
    Sizes(Run(q, ops));
    if NeverDiscards(q, ops) {
      OrderKept(q, ops);
    }
  }

  /** The queue hands out events once its loop has started, and not before. */
  lemma {:induction false} ReadyOnceStarted(q: Fifo, ops: seq<Operation>)
    ensures Run(q, ops).ready <==> q.ready || Ready in ops
  {
    if ops != [] {
      ReadyOnceStarted(q, ops[..|ops| - 1]);
      assert ops == ops[..|ops| - 1] + [ops[|ops| - 1]];
    }
  }

  /** n calls of getEvent. */
  function Takes(n: nat): seq<Operation> { if n == 0 then [] else Takes(n - 1) + [Take] }

  /** They hand out the first n waiting events, each once, and leave the others waiting; when none is
      left, or before the start, they hand out nothing. */
  lemma {:induction false} TakesHandOut(q: Fifo, n: nat)
    ensures var k := if !q.ready then 0 else if n < |q.waiting| then n else |q.waiting|;
      Run(q, Takes(n)) == q.(waiting := q.waiting[k..], out := q.out + q.waiting[..k])
  {
    if n > 0 {
      TakesHandOut(q, n - 1);
      TakesLength(n);
      OneTake(Run(q, Takes(n - 1)), q, n - 1);
    }
  }

  lemma OneTake(r: Fifo, q: Fifo, n: nat)
    requires var k := if !q.ready then 0 else if n < |q.waiting| then n else |q.waiting|;
      r == q.(waiting := q.waiting[k..], out := q.out + q.waiting[..k])
    ensures var k := if !q.ready then 0 else if n + 1 < |q.waiting| then n + 1 else |q.waiting|;
      Next(r, Take) == q.(waiting := q.waiting[k..], out := q.out + q.waiting[..k])
  {
    if q.ready && n < |q.waiting| {
      assert q.waiting[..n + 1] == q.waiting[..n] + [q.waiting[n]];
    }
  }

  lemma {:induction false} TakesLength(n: nat)
    ensures |Takes(n)| == n
    ensures n > 0 ==> Takes(n)[..n - 1] == Takes(n - 1) && Takes(n)[n - 1] == Take
  {
    if n > 0 {
      TakesLength(n - 1);
    }
  }

  lemma Sizes(q: Fifo)
    ensures |All(q)| == |q.out| + |q.waiting| + |q.lost|
  {
  }

  lemma {:induction false} OrderKept(q: Fifo, ops: seq<Operation>)
    requires NeverDiscards(q, ops)
    ensures Run(q, ops).out + Run(q, ops).waiting == q.out + q.waiting + Accepted(ops)
  {
    if ops != [] {
      OrderKept(q, ops[..|ops| - 1]);
      OrderKeptByOne(Run(q, ops[..|ops| - 1]), ops[|ops| - 1]);
    }
  }

  lemma OrderKeptByOne(q: Fifo, op: Operation)
    requires !Discards(q, op)
    ensures Next(q, op).out + Next(q, op).waiting
      == q.out + q.waiting + if op.Add? && Queued(op.event) then [op.event] else []
  {
    if op == Take && q.waiting != [] {
      assert q.waiting == [q.waiting[0]] + q.waiting[1..];
    }
  }

  // ---------- the queue ----------

  class EventQueue {
    var buffer: SimpleEventQueueBuffer
    var events: map<nat, Event>
    var oldEventIDs: seq<nat>
    var ready: bool
    var pending: seq<Event>
    const timers: EventTimers
    ghost var out: seq<Event>
    ghost var lost: seq<Event>

    ghost predicate Valid()
      reads this, buffer
    {
      && buffer.Valid() && Partition(buffer.queue, oldEventIDs, events)
      && (ready ==> pending == []) && (!ready ==> buffer.queue == [])
    }

    /** The events that are waiting, in the order in which they will come out. */
    ghost function Waiting(): seq<Event>
      requires Valid()
      reads this, buffer
    {
      InOrder(buffer.queue, events) + pending
    }

    ghost function Current(): Fifo
      requires Valid()
      reads this, buffer
    {
      Fifo(ready, Waiting(), out, lost)
    }

    constructor (now: real)
      ensures Valid() && Current() == EMPTY && fresh(buffer)
      ensures fresh(timers) && fresh(timers.time) && fresh(timers.timerQueue) && timers.Valid()
    {
      buffer := new SimpleEventQueueBuffer();
      events, oldEventIDs, ready, pending, out, lost := map[], [], false, [], [], [];
      timers := new EventTimers(now);
    }

    method SaveEvent(e: Event) returns (id: nat)
      modifies this`events, this`oldEventIDs
      ensures id == Chosen(old(oldEventIDs), old(events))
      ensures events == old(events)[id := e] && oldEventIDs == Unchosen(old(oldEventIDs))
    {
      if oldEventIDs != [] {
        id := oldEventIDs[|oldEventIDs| - 1];
        oldEventIDs := oldEventIDs[..|oldEventIDs| - 1];
      } else {
        id := |events|;
      }
      events := events[id := e];
    }

    /** None stands for the empty event that is returned for an unknown id. */
    method RemoveEvent(eventID: nat) returns (e: Option<Event>)
      modifies this`events, this`oldEventIDs
      ensures if eventID in old(events)
              then e == Some(old(events)[eventID]) && events == old(events) - {eventID} && oldEventIDs == old(oldEventIDs) + [eventID]
              else e == None && events == old(events) && oldEventIDs == old(oldEventIDs)
    {
      if eventID !in events {
        return None;
      }
      e := Some(events[eventID]);
      events := events - {eventID};
      oldEventIDs := oldEventIDs + [eventID];
    }

    method AddEventToBuffer(e: Event)
      requires buffer.Valid() && Partition(buffer.queue, oldEventIDs, events)
      modifies this`events, this`oldEventIDs, buffer
      ensures buffer.Valid() && Partition(buffer.queue, oldEventIDs, events)
      ensures InOrder(buffer.queue, events) == InOrder(old(buffer.queue), old(events)) + [e]
    {
      ChosenIsFree(buffer.queue, oldEventIDs, events, e);
      OrderAfterAdd(buffer.queue, Chosen(oldEventIDs, events), events, e);
      var eventID := SaveEvent(e);
      var added := buffer.AddEvent(eventID);
      if !added {
        assert false;
      }
    }

    /** `dispatched` tells that the event is handed to its handler at once. */
    method AddEvent(e: Event) returns (dispatched: bool)
      requires Valid()
      modifies this`events, this`oldEventIDs, this`pending, buffer
      ensures Valid() && dispatched == (e.immediate && e.kind !in {Unknown, System, TimerExpired})
      ensures Waiting() == old(Waiting()) + if !e.immediate && e.kind !in {Unknown, System, TimerExpired} then [e] else []
      ensures Current() == Next(old(Current()), Add(e))
    {
      if e.kind == Unknown || e.kind == System || e.kind == TimerExpired {
        return false;
      }
      if e.immediate {
        return true;
      } else if !ready {
        pending := pending + [e];
        return false;
      } else {
        AddEventToBuffer(e);
        return false;
      }
    }

    /** The start of loop: events added before go into the buffer. */
    method BecomeReady()
      requires Valid()
      modifies this`events, this`oldEventIDs, this`pending, this`ready, buffer
      ensures Valid() && ready && Waiting() == old(Waiting())
      ensures Current() == Next(old(Current()), Ready)
    {
      ghost var all := Waiting();
      ready := true;
      while pending != []
        invariant buffer.Valid() && Partition(buffer.queue, oldEventIDs, events) && ready
        invariant InOrder(buffer.queue, events) + pending == all
        decreases |pending|
      {
        AddEventToBuffer(pending[0]);
        pending := pending[1..];
      }
    }

    /** getEvent with no time to wait: timers are only looked at while no event is waiting in the buffer. */
    method GetEvent(check: real, reset: real) returns (got: Got)
      requires Valid() && timers.Valid() && timers.clock <= check <= reset
      modifies this`events, this`oldEventIDs, this`out, buffer, timers, timers.time, timers.timerQueue
      ensures Valid() && timers.Valid()
      ensures Current() == Next(old(Current()), Take)
      ensures ready && old(Waiting()) != [] ==>
        && got.Posted? && [got.event] + Waiting() == old(Waiting())
        && timers.Current() == old(timers.Current())
      ensures !ready || old(Waiting()) == [] ==>
        && !got.Posted? && Waiting() == old(Waiting())
        && var poll := Poll(check, reset, if got.Expired? then Some(got.timer.timer) else None);
           Enabled(old(timers.Current()), poll) && timers.Current() == Apply(old(timers.Current()), poll)
    {
      if buffer.IsEmpty() {
        var expired := timers.HasTimerExpired(check, reset);
        return if expired.Some? then Expired(expired.value) else Nothing;
      }
      var e := TakeWaiting();
      return Posted(e);
    }

    /** The part of getEvent after the buffer has been found not to be empty. */
    method TakeWaiting() returns (e: Event)
      requires Valid() && buffer.queue != []
      modifies this`events, this`oldEventIDs, this`out, buffer
      ensures Valid() && Current() == Next(old(Current()), Take) && [e] + Waiting() == old(Waiting())
    {
      ghost var queue := buffer.queue;
      var dataID := buffer.GetEvent();
      e := TakeEvent(dataID.value, queue);
      out := out + [e];
    }

    /** Looks the id up that has just left the buffer. */
    method TakeEvent(dataID: nat, ghost queue: seq<nat>) returns (e: Event)
      requires buffer.Valid() && Partition(queue, oldEventIDs, events) && buffer.queue + [dataID] == queue
      modifies this`events, this`oldEventIDs
      ensures Partition(buffer.queue, oldEventIDs, events)
      ensures InOrder(queue, old(events)) == [e] + InOrder(buffer.queue, events)
    {
      InQueue(queue, oldEventIDs, events);
      assert multiset(queue)[dataID] == multiset(buffer.queue)[dataID] + 1;
      OrderAfterTake(buffer.queue, dataID, events);
      TakenIsFree(buffer.queue, dataID, oldEventIDs, events);
      var removed := RemoveEvent(dataID);
      return removed.value;
    }

    /** adoptBuffer: whatever was in the old buffer is discarded; NULL asks for a new simple buffer. */
    method AdoptBuffer(adopted: SimpleEventQueueBuffer?)
      requires Valid() && (adopted != null ==> adopted.Valid() && adopted.queue == [])
      modifies this`events, this`oldEventIDs, this`buffer, this`lost
      ensures Valid() && (if adopted == null then fresh(buffer) else buffer == adopted)
      ensures Waiting() == if ready then [] else old(Waiting())
      ensures Current() == Next(old(Current()), Adopt)
    {
      if ready {
        lost := lost + Waiting();
      }
      events, oldEventIDs := map[], [];
      if adopted == null {
        buffer := new SimpleEventQueueBuffer();
      } else {
        buffer := adopted;
      }
    }
  }
}
