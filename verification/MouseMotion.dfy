/** How CServerProxy delays and merges mouse motion while more input is waiting.

    Screen calls are an output trace; a cursor on an unbounded plane says what they amount to.  Whether
    more input follows a motion message (isReady) is part of the message and can be anything. */
module MouseMotion {
  datatype Point = Point(x: int, y: int) {
    function Plus(p: Point): Point { Point(x + p.x, y + p.y) }
    function Minus(p: Point): Point { Point(x - p.x, y - p.y) }
  }

  const ORIGIN := Point(0, 0)

  /** Input stands for a key or button going down, up or repeating, and for the wheel.  Other stands for
      what has nothing to do with the mouse, Stop for a message that ends the connection. */
  datatype Message =
    | Move(at: Point, more: bool)
    | RelativeMove(step: Point, more: bool)
    | Input(what: nat)
    | Enter(at: Point)
    | Leave
    | InfoAck
    | Other
    | Stop

  /** What is asked of the screen. */
  datatype Call = MoveTo(at: Point) | MoveBy(step: Point) | Press(what: nat) | EnterAt(at: Point) | LeaveScreen

  /** The fields of the proxy. */
  datatype Proxy = Proxy(compress: bool, compressRelative: bool, pos: Point, delta: Point, ignore: bool)

  const FRESH := Proxy(false, false, ORIGIN, ORIGIN, false)

  // ---------- what the code does ----------

  function Flush(p: Proxy): (Proxy, seq<Call>) {
    (Proxy(false, false, p.pos, if p.compressRelative then ORIGIN else p.delta, p.ignore),
     (if p.compress then [MoveTo(p.pos)] else []) + (if p.compressRelative then [MoveBy(p.delta)] else []))
  }

  function Step(p: Proxy, m: Message): (Proxy, seq<Call>)
  {
    match m
    case Move(at, more) =>
      if p.compress || (!p.ignore && more) then (Proxy(true, false, at, ORIGIN, p.ignore), [])
      else (p, if p.ignore then [] else [MoveTo(at)])
    case RelativeMove(step, more) =>
      if p.compressRelative || (!p.ignore && more) then (p.(compressRelative := true, delta := p.delta.Plus(step)), [])
      else (p, if p.ignore then [] else [MoveBy(step)])
    case Input(what) => (Flush(p).0, Flush(p).1 + [Press(what)])
    case Enter(at) => (p.(compress := false, compressRelative := false, delta := ORIGIN), [EnterAt(at)])
    case Leave => (Flush(p).0, Flush(p).1 + [LeaveScreen])
    case InfoAck => (p.(ignore := false), [])
    case Other => (p, [])
    case Stop => (p, [])
  }

  // ---------- what should be seen ----------

  /** A press, or leaving, with the cursor where it was then. */
  datatype Seen = Seen(call: Call, at: Point)

  datatype Screen = Screen(cursor: Point, seen: seq<Seen>)

  function Perform(s: Screen, c: Call): Screen {
    match c
    case MoveTo(at) => s.(cursor := at)
    case MoveBy(step) => s.(cursor := s.cursor.Plus(step))
    case EnterAt(at) => s.(cursor := at)
    case Press(_) => s.(seen := s.seen + [Seen(c, s.cursor)])
    case LeaveScreen => s.(seen := s.seen + [Seen(c, s.cursor)])
  }

  function PerformAll(s: Screen, calls: seq<Call>): Screen
    decreases |calls|
  {
    if calls == [] then s else PerformAll(Perform(s, calls[0]), calls[1..])
  }

  /** Forwarding a message at once. */
  function Forward(ignore: bool, m: Message): seq<Call> {
    match m
    case Move(at, _) => if ignore then [] else [MoveTo(at)]
    case RelativeMove(step, _) => if ignore then [] else [MoveBy(step)]
    case Input(what) => [Press(what)]
    case Enter(at) => [EnterAt(at)]
    case Leave => [LeaveScreen]
    case _ => []
  }

  /** The proxy and its screen after some messages, beside a screen that is told everything at once. */
  datatype World = World(p: Proxy, screen: Screen, direct: Screen)

  function Handle(w: World, m: Message): World {
    var (p, calls) := Step(w.p, m);
    World(p, PerformAll(w.screen, calls), PerformAll(w.direct, Forward(w.p.ignore, m)))
  }

  function HandleAll(w: World, ms: seq<Message>): World {
    if ms == [] then w else Handle(HandleAll(w, ms[..|ms| - 1]), ms[|ms| - 1])
  }

  /** The flush at the end of a batch. */
  function Finish(w: World): World {
    var (p, calls) := Flush(w.p);
    w.(p := p, screen := PerformAll(w.screen, calls))
  }

  /** Compression is never on while motion is ignored, and nothing is kept while it is off. */
  predicate Sound(p: Proxy) {
    && (p.ignore ==> !p.compress && !p.compressRelative)
    && (!p.compressRelative ==> p.delta == ORIGIN)
  }

  predicate Idle(p: Proxy) { !p.compress && !p.compressRelative && p.delta == ORIGIN }

  // ---------- the one way in which they differ ----------

  /** The motion is forwarded at once although motion of the other kind is being kept back. */
  predicate Overtakes(p: Proxy, m: Message) {
    || (m.Move? && !p.ignore && !p.compress && !m.more && p.compressRelative)
    || (m.RelativeMove? && !p.ignore && !p.compressRelative && !m.more && p.compress)
  }

  /** How far the cursor gets off by this message if it was off by `drift`. */
  function Drift(p: Proxy, m: Message, drift: Point): Point {
    if m.Enter? then ORIGIN
    else if m.Move? && !p.ignore then (if Overtakes(p, m) then p.delta else ORIGIN)
    else if Overtakes(p, m) then drift.Minus(m.step)
    else drift
  }

  predicate Observed(m: Message) { m.Input? || m.Leave? }

  /** How far it is off after the messages, and how far it was off whenever it was looked at. */
  function Drifts(w: World, ms: seq<Message>): (Point, seq<Point>) {
    if ms == [] then (ORIGIN, []) else
    var (drift, seen) := Drifts(w, ms[..|ms| - 1]);
    var m := ms[|ms| - 1];
    (Drift(HandleAll(w, ms[..|ms| - 1]).p, m, drift), if Observed(m) then seen + [drift] else seen)
  }

  /** The same calls were seen; after the first n each was off by its shift. */
  ghost predicate Shifted(a: seq<Seen>, b: seq<Seen>, n: nat, shifts: seq<Point>) {
    && |a| == |b| == n + |shifts|
    && forall i :: 0 <= i < |a| ==>
         a[i].call == b[i].call && a[i].at == b[i].at.Plus(if i < n then ORIGIN else shifts[i - n])
  }

  predicate AllZero(shifts: seq<Point>) {
    forall i :: 0 <= i < |shifts| ==> shifts[i] == ORIGIN
  }

  /** Where the cursor is once what is kept back has been sent. */
  function Settled(p: Proxy, cursor: Point): Point {
    (if p.compress then p.pos else cursor).Plus(p.delta)
  }

  lemma PerformOne(s: Screen, c: Call)
    ensures PerformAll(s, [c]) == Perform(s, c)
  {
    assert [c][1..] == [];
  }

  lemma FlushSettles(p: Proxy, s: Screen)
    requires Sound(p)
    ensures Idle(Flush(p).0) && Flush(p).0.ignore == p.ignore
    ensures PerformAll(s, Flush(p).1) == s.(cursor := Settled(p, s.cursor))
  {
    PerformOne(s, MoveTo(p.pos));
    PerformOne(s, MoveBy(p.delta));
    if p.compress && p.compressRelative {
      PerformOneMore(s, [MoveTo(p.pos)], MoveBy(p.delta));
    }
  }

  lemma {:induction false} PerformOneMore(s: Screen, calls: seq<Call>, c: Call)
    ensures PerformAll(s, calls + [c]) == Perform(PerformAll(s, calls), c)
    decreases |calls|
  {
    if calls == [] {
      assert calls + [c] == [c];
    } else {
      assert (calls + [c])[1..] == calls[1..] + [c];
      PerformOneMore(Perform(s, calls[0]), calls[1..], c);
    }
  }

  /** One message: the proxy stays sound, and is off by as much as Drift says. */
  lemma StepDrift(p: Proxy, m: Message, s: Screen, d: Screen, drift: Point)
    requires Sound(p) && Settled(p, s.cursor) == d.cursor.Plus(drift)
    ensures Sound(Step(p, m).0)
    ensures var s', d' := PerformAll(s, Step(p, m).1), PerformAll(d, Forward(p.ignore, m));
      && Settled(Step(p, m).0, s'.cursor) == d'.cursor.Plus(Drift(p, m, drift))
      && (Observed(m) ==> s'.seen == s.seen + [Seen(Forward(p.ignore, m)[0], d.cursor.Plus(drift))]
                          && d'.seen == d.seen + [Seen(Forward(p.ignore, m)[0], d.cursor)])
      && (!Observed(m) ==> s'.seen == s.seen && d'.seen == d.seen)
  {
    if Observed(m) {
      var c := Forward(p.ignore, m)[0];
      FlushSettles(p, s);
      PerformOneMore(s, Flush(p).1, c);
    }
  }

  /** For every batch, mixed or not, what is seen with compression is what is seen without it, off by
      exactly the drifts; and so is the cursor once the batch is finished. */
  lemma {:induction false} CompressionDrifts(w: World, ms: seq<Message>)
    requires Idle(w.p) && w.screen == w.direct
    ensures var after := HandleAll(w, ms);
      var (drift, drifts) := Drifts(w, ms);
      && Sound(after.p) && Settled(after.p, after.screen.cursor) == after.direct.cursor.Plus(drift)
      && Shifted(after.screen.seen, after.direct.seen, |w.screen.seen|, drifts)
  {
    if ms != [] {
      var before, m := ms[..|ms| - 1], ms[|ms| - 1];
      CompressionDrifts(w, before);
      var b := HandleAll(w, before);
      StepDrift(b.p, m, b.screen, b.direct, Drifts(w, before).0);
    }
  }

  /** Compression is invisible, for every press and every leaving and for where the cursor ends up, if
      and only if the drift is zero whenever the cursor is looked at and at the end. */
  lemma InvisibleIff(w: World, ms: seq<Message>)
    requires Idle(w.p) && w.screen == w.direct
    ensures var end := Finish(HandleAll(w, ms));
      var (drift, drifts) := Drifts(w, ms);
      && Idle(end.p)
      && (end.screen == end.direct <==> drift == ORIGIN && AllZero(drifts))
  {
    CompressionDrifts(w, ms);
    FinishSame(HandleAll(w, ms), |w.screen.seen|, Drifts(w, ms).0, Drifts(w, ms).1);
  }

  lemma FinishSame(w: World, n: nat, drift: Point, drifts: seq<Point>)
    requires Sound(w.p) && Settled(w.p, w.screen.cursor) == w.direct.cursor.Plus(drift)
    requires Shifted(w.screen.seen, w.direct.seen, n, drifts)
    ensures Idle(Finish(w).p)
    ensures Finish(w).screen == Finish(w).direct <==> drift == ORIGIN && AllZero(drifts)
  {
    FlushSettles(w.p, w.screen);
    SameIff(w.screen.seen, w.direct.seen, n, drifts);
  }

  lemma SameIff(a: seq<Seen>, b: seq<Seen>, n: nat, shifts: seq<Point>)
    requires Shifted(a, b, n, shifts)
    ensures a == b <==> AllZero(shifts)
  {
    forall i | 0 <= i < |shifts|
      ensures shifts[i] == ORIGIN <==> a[n + i] == b[n + i]
    {
    }
  }

  /** All motion in the batch is of one kind. */
  predicate OneKind(ms: seq<Message>) {
    (forall m :: m in ms ==> !m.Move?) || (forall m :: m in ms ==> !m.RelativeMove?)
  }

  lemma {:induction false} OnlyRelativeKept(w: World, ms: seq<Message>)
    requires Idle(w.p) && forall m :: m in ms ==> !m.Move?
    ensures !HandleAll(w, ms).p.compress
  {
    if ms != [] {
      assert ms[|ms| - 1] in ms && forall m :: m in ms[..|ms| - 1] ==> m in ms;
      OnlyRelativeKept(w, ms[..|ms| - 1]);
    }
  }

  lemma {:induction false} OnlyAbsoluteKept(w: World, ms: seq<Message>)
    requires Idle(w.p) && forall m :: m in ms ==> !m.RelativeMove?
    ensures !HandleAll(w, ms).p.compressRelative
  {
    if ms != [] {
      assert ms[|ms| - 1] in ms && forall m :: m in ms[..|ms| - 1] ==> m in ms;
      OnlyAbsoluteKept(w, ms[..|ms| - 1]);
    }
  }

  /** The cursor cannot get off unless some motion overtakes another. */
  lemma {:induction false} NoOvertakingNoDrift(w: World, ms: seq<Message>)
    requires forall k :: 0 <= k < |ms| ==> !Overtakes(HandleAll(w, ms[..k]).p, ms[k])
    ensures Drifts(w, ms).0 == ORIGIN && AllZero(Drifts(w, ms).1)
  {
    if ms != [] {
      var before := ms[..|ms| - 1];
      forall k | 0 <= k < |before|
        ensures !Overtakes(HandleAll(w, before[..k]).p, before[k])
      {
        assert ms[..k] == before[..k] && ms[k] == before[k];
      }
      NoOvertakingNoDrift(w, before);
      assert !Overtakes(HandleAll(w, before).p, ms[|ms| - 1]);
    }
  }

  lemma OneKindNoDrift(w: World, ms: seq<Message>)
    requires Idle(w.p) && OneKind(ms)
    ensures Drifts(w, ms).0 == ORIGIN && AllZero(Drifts(w, ms).1)
  {
    forall k | 0 <= k < |ms|
      ensures !Overtakes(HandleAll(w, ms[..k]).p, ms[k])
    {
      assert ms[k] in ms && forall m :: m in ms[..k] ==> m in ms;
      if forall m :: m in ms ==> !m.Move? {
        OnlyRelativeKept(w, ms[..k]);
      } else {
        OnlyAbsoluteKept(w, ms[..k]);
      }
    }
    NoOvertakingNoDrift(w, ms);
  }

  /** A batch with motion of one kind only looks the same with and without compression. */
  lemma OneKindInvisible(w: World, ms: seq<Message>)
    requires Idle(w.p) && w.screen == w.direct && OneKind(ms)
    ensures Finish(HandleAll(w, ms)).screen == Finish(HandleAll(w, ms)).direct
  {
    OneKindNoDrift(w, ms);
    InvisibleIff(w, ms);
  }

  // ---------- answers to information queries ----------

  /** The motion that is kept back. */
  function KeptBack(p: Proxy, cursor: Point): Point { Settled(p, cursor).Minus(cursor) }

  /** A query is answered with the position of the cursor, and nothing is sent before that.  In the middle
      of any batch the answer is off by the drift less what is kept back; so in a batch with motion of
      one kind it is right if and only if what is kept back amounts to nothing. */
  lemma AnswerIsOff(w: World, ms: seq<Message>)
    requires Idle(w.p) && w.screen == w.direct
    ensures var after := HandleAll(w, ms);
      var answer, kept := after.screen.cursor, KeptBack(after.p, after.screen.cursor);
      && answer == after.direct.cursor.Plus(Drifts(w, ms).0).Minus(kept)
      && (OneKind(ms) ==> (answer == after.direct.cursor <==> kept == ORIGIN))
  {
    CompressionDrifts(w, ms);
    if OneKind(ms) {
      OneKindNoDrift(w, ms);
    }
  }

  /** A relative motion that is kept back and then overtaken by an absolute one is added to it. */
  lemma MixedBatchDrifts()
    ensures var still := Screen(ORIGIN, []);
      var end := Finish(HandleAll(World(FRESH, still, still), [RelativeMove(Point(3, 0), true), Move(Point(10, 10), false)]));
      end.direct.cursor == Point(10, 10) && end.screen.cursor == Point(13, 10)
  {
    var still := Screen(ORIGIN, []);
    var w := World(FRESH, still, still);
    var first, second := RelativeMove(Point(3, 0), true), Move(Point(10, 10), false);
    var ms := [first, second];
    assert ms[..1] == [first] && [first][..0] == [];
    var kept := FRESH.(compressRelative := true, delta := Point(3, 0));
    assert HandleAll(w, [first]) == World(kept, still, Screen(Point(3, 0), [])) by {
      assert HandleAll(w, [first]) == Handle(w, first);
      PerformOne(still, MoveBy(Point(3, 0)));
    }
    PerformOne(still, MoveTo(Point(10, 10)));
    PerformOne(Screen(Point(3, 0), []), MoveTo(Point(10, 10)));
    assert HandleAll(w, ms) == World(kept, Screen(Point(10, 10), []), Screen(Point(10, 10), []));
    FlushSettles(kept, Screen(Point(10, 10), []));
  }

  // ---------- batches and changes of the screen's shape, in any order ----------

  datatype Happening = Batch(messages: seq<Message>) | InfoChanged

  /** Over once a message has ended the connection. */
  datatype Life = Going(w: World) | Over(w: World)

  /** The messages in front of the one that ends the connection. */
  function UpToStop(ms: seq<Message>): seq<Message> {
    if ms == [] || ms[0] == Stop then [] else [ms[0]] + UpToStop(ms[1..])
  }

  /** A batch ends with a flush unless a message in it ends the connection. */
  function Live(l: Life, h: Happening): Life {
    match (l, h)
    case (Over(_), _) => l
    case (Going(w), Batch(ms)) =>
      if Stop in ms then Over(HandleAll(w, UpToStop(ms))) else Going(Finish(HandleAll(w, ms)))
    case (Going(w), InfoChanged) => Going(w.(p := w.p.(ignore := true)))
  }

  function LiveAll(l: Life, hs: seq<Happening>): Life {
    if hs == [] then l else Live(LiveAll(l, hs[..|hs| - 1]), hs[|hs| - 1])
  }

  /** While motion is ignored it stays so until the change of the screen's shape is acknowledged. */
  lemma {:induction false} IgnoredUntilAck(w: World, ms: seq<Message>)
    ensures HandleAll(w, ms).p.ignore <==> w.p.ignore && InfoAck !in ms
  {
    if ms != [] {
      IgnoredUntilAck(w, ms[..|ms| - 1]);
      assert ms == ms[..|ms| - 1] + [ms[|ms| - 1]];
      StepIgnores(HandleAll(w, ms[..|ms| - 1]).p, ms[|ms| - 1]);
    }
  }

  lemma StepIgnores(p: Proxy, m: Message)
    ensures Step(p, m).0.ignore == (p.ignore && !m.InfoAck?)
  {
  }

  /** The last change of the screen's shape has not been acknowledged. */
  function Unacknowledged(hs: seq<Happening>): bool {
    if hs == [] then false else
    match hs[|hs| - 1]
    case InfoChanged => true
    case Batch(ms) => Unacknowledged(hs[..|hs| - 1]) && InfoAck !in ms
  }

  /** As long as the connection lasts, motion is ignored exactly from a change of the screen's shape to its
      acknowledgment. */
  lemma {:induction false} IgnoredWhileUnacknowledged(start: Screen, hs: seq<Happening>)
    ensures var l := LiveAll(Going(World(FRESH, start, start)), hs);
      l.Going? ==> (l.w.p.ignore <==> Unacknowledged(hs))
  {
    if hs != [] {
      var before, h := hs[..|hs| - 1], hs[|hs| - 1];
      IgnoredWhileUnacknowledged(start, before);
      var l := LiveAll(Going(World(FRESH, start, start)), before);
      if l.Going? && h.Batch? {
        IgnoredUntilAck(l.w, h.messages);
      }
    }
  }

  /** Between batches nothing is ever kept back.  If no batch mixes kinds the screen is always as if there
      were no compression; once the connection has ended this is so but for what was then kept back. */
  lemma {:induction false} NothingKeptBack(start: Screen, hs: seq<Happening>)
    ensures var l := LiveAll(Going(World(FRESH, start, start)), hs);
      && (l.Going? <==> forall h :: h in hs && h.Batch? ==> Stop !in h.messages)
      && (l.Going? ==> Idle(l.w.p))
      && ((forall h :: h in hs && h.Batch? ==> OneKind(h.messages)) ==>
            && l.w.screen.(cursor := Settled(l.w.p, l.w.screen.cursor)) == l.w.direct
            && (l.Going? ==> l.w.screen == l.w.direct))
  {
    if hs != [] {
      var before, h := hs[..|hs| - 1], hs[|hs| - 1];
      assert hs == before + [h];
      NothingKeptBack(start, before);
      var l := LiveAll(Going(World(FRESH, start, start)), before);
      if l.Going? && h.Batch? {
        BatchKeeps(l.w, h.messages);
      }
    }
  }

  lemma BatchKeeps(w: World, ms: seq<Message>)
    requires Idle(w.p)
    ensures var l := Live(Going(w), Batch(ms));
      && (l.Going? ==> Idle(l.w.p))
      && (OneKind(ms) && w.screen == w.direct ==>
            && l.w.screen.(cursor := Settled(l.w.p, l.w.screen.cursor)) == l.w.direct
            && (l.Going? ==> l.w.screen == l.w.direct))
  {
    IdleAgain(w, ms);
    if OneKind(ms) && w.screen == w.direct {
      if Stop in ms {
        UpToStopIn(ms);
        OneKindSettles(w, UpToStop(ms));
      } else {
        OneKindInvisible(w, ms);
      }
    }
  }

  lemma OneKindSettles(w: World, ms: seq<Message>)
    requires Idle(w.p) && w.screen == w.direct && OneKind(ms)
    ensures var after := HandleAll(w, ms);
      after.screen.(cursor := Settled(after.p, after.screen.cursor)) == after.direct
  {
    OneKindNoDrift(w, ms);
    CompressionDrifts(w, ms);
    SameIff(HandleAll(w, ms).screen.seen, HandleAll(w, ms).direct.seen, |w.screen.seen|, Drifts(w, ms).1);
  }

  lemma {:induction false} UpToStopIn(ms: seq<Message>)
    ensures forall m :: m in UpToStop(ms) ==> m in ms
  {
    if ms != [] {
      UpToStopIn(ms[1..]);
    }
  }

  /** What the loop has handled when it meets the message that ends the connection. */
  lemma {:induction false} StopsAt(ms: seq<Message>, i: nat)
    requires i < |ms| && Stop !in ms[..i] && ms[i] == Stop
    ensures UpToStop(ms) == ms[..i]
  {
    if i > 0 {
      assert ms[0] == ms[..i][0] && ms[1..][..i - 1] == ms[..i][1..];
      StopsAt(ms[1..], i - 1);
    }
  }

  lemma {:induction false} StaysSound(w: World, ms: seq<Message>)
    requires Idle(w.p)
    ensures Sound(HandleAll(w, ms).p)
  {
    if ms != [] {
      StaysSound(w, ms[..|ms| - 1]);
    }
  }

  lemma IdleAgain(w: World, ms: seq<Message>)
    requires Idle(w.p)
    ensures Idle(Finish(HandleAll(w, ms)).p)
  {
    StaysSound(w, ms);
  }

  /** A message that ends the connection leaves what is kept back unsent and the rest unread. */
  lemma NothingAfterStop(w: World, ms: seq<Message>, i: nat)
    requires i < |ms| && Stop !in ms[..i] && ms[i] == Stop
    ensures Live(Going(w), Batch(ms)) == Over(HandleAll(w, ms[..i]))
  {
    StopsAt(ms, i);
  }

  // ---------- the methods ----------

  /** The part of CServerProxy that has to do with the mouse.  `calls` is what the client was asked. */
  class MouseProxy {
    var compressMouse: bool
    var compressMouseRelative: bool
    var xMouse: int
    var yMouse: int
    var dxMouse: int
    var dyMouse: int
    var ignoreMouse: bool
    var calls: seq<Call>

    ghost function State(): Proxy
      reads this
    {
      Proxy(compressMouse, compressMouseRelative, Point(xMouse, yMouse), Point(dxMouse, dyMouse), ignoreMouse)
    }

    /** The message had this effect. */
    twostate predicate Did(m: Message)
      reads this
    {
      State() == Step(old(State()), m).0 && calls == old(calls) + Step(old(State()), m).1
    }

    constructor ()
      ensures State() == FRESH && calls == []
    {
      compressMouse, compressMouseRelative := false, false;
      xMouse, yMouse, dxMouse, dyMouse := 0, 0, 0, 0;
      ignoreMouse := false;
      calls := [];
    }

    method FlushCompressedMouse()
      modifies this
      ensures calls == old(calls) + (if old(compressMouse) then [MoveTo(old(Point(xMouse, yMouse)))] else [])
        + (if old(compressMouseRelative) then [MoveBy(old(Point(dxMouse, dyMouse)))] else [])
      ensures !compressMouse && !compressMouseRelative && (old(compressMouseRelative) ==> dxMouse == dyMouse == 0)
      ensures State() == Flush(old(State())).0 && calls == old(calls) + Flush(old(State())).1
    {
      if compressMouse {
        compressMouse := false;
        calls := calls + [MoveTo(Point(xMouse, yMouse))];
      }
      if compressMouseRelative {
        compressMouseRelative := false;
        calls := calls + [MoveBy(Point(dxMouse, dyMouse))];
        dxMouse := 0;
        dyMouse := 0;
      }
    }

    method MouseMove(x: int, y: int, isReady: bool)
      modifies this
      ensures if old(compressMouse) || (!old(ignoreMouse) && isReady)
              then compressMouse && !compressMouseRelative && (xMouse, yMouse, dxMouse, dyMouse) == (x, y, 0, 0) && calls == old(calls)
              else calls == old(calls) + if old(ignoreMouse) then [] else [MoveTo(Point(x, y))]
      ensures Did(Move(Point(x, y), isReady))
    {
      var ignore := ignoreMouse;
      if !ignore && !compressMouse && isReady {
        compressMouse := true;
      }
      if compressMouse {
        compressMouseRelative := false;
        ignore := true;
        xMouse, yMouse := x, y;
        dxMouse, dyMouse := 0, 0;
      }
      if !ignore {
        calls := calls + [MoveTo(Point(x, y))];
      }
    }

    method MouseRelativeMove(dx: int, dy: int, isReady: bool)
      modifies this
      ensures if old(compressMouseRelative) || (!old(ignoreMouse) && isReady)
              then compressMouseRelative && (dxMouse, dyMouse) == (old(dxMouse) + dx, old(dyMouse) + dy) && calls == old(calls)
              else calls == old(calls) + if old(ignoreMouse) then [] else [MoveBy(Point(dx, dy))]
      ensures Did(RelativeMove(Point(dx, dy), isReady))
    {
      var ignore := ignoreMouse;
      if !ignore && !compressMouseRelative && isReady {
        compressMouseRelative := true;
      }
      if compressMouseRelative {
        ignore := true;
        dxMouse, dyMouse := dxMouse + dx, dyMouse + dy;
      }
      if !ignore {
        calls := calls + [MoveBy(Point(dx, dy))];
      }
    }

    method PressInput(what: nat)
      modifies this
      ensures calls == old(calls) + (if old(compressMouse) then [MoveTo(old(Point(xMouse, yMouse)))] else [])
        + (if old(compressMouseRelative) then [MoveBy(old(Point(dxMouse, dyMouse)))] else [])
        + [Press(what)]
      ensures Did(Input(what))
    {
      FlushCompressedMouse();
      calls := calls + [Press(what)];
    }

    method EnterScreen(x: int, y: int)
      modifies this
      ensures !compressMouse && !compressMouseRelative && dxMouse == dyMouse == 0 && calls == old(calls) + [EnterAt(Point(x, y))]
      ensures Did(Enter(Point(x, y)))
    {
      compressMouse, compressMouseRelative := false, false;
      dxMouse, dyMouse := 0, 0;
      calls := calls + [EnterAt(Point(x, y))];
    }

    method LeaveScreen()
      modifies this
      ensures calls == old(calls) + (if old(compressMouse) then [MoveTo(old(Point(xMouse, yMouse)))] else [])
        + (if old(compressMouseRelative) then [MoveBy(old(Point(dxMouse, dyMouse)))] else [])
        + [Call.LeaveScreen]
      ensures Did(Leave)
    {
      FlushCompressedMouse();
      calls := calls + [Call.LeaveScreen];
    }

    method InfoAcknowledgment()
      modifies this
      ensures !ignoreMouse && calls == old(calls)
      ensures Did(InfoAck)
    {
      ignoreMouse := false;
    }

    method OnInfoChanged()
      modifies this
      ensures State() == old(State()).(ignore := true) && calls == old(calls)
    {
      ignoreMouse := true;
    }

    method ParseMessage(m: Message)
      modifies this
      ensures Did(m)
    {
      match m {
        case Move(at, more) => MouseMove(at.x, at.y, more);
        case RelativeMove(step, more) => MouseRelativeMove(step.x, step.y, more);
        case Input(what) => PressInput(what);
        case Enter(at) => EnterScreen(at.x, at.y);
        case Leave => LeaveScreen();
        case InfoAck => InfoAcknowledgment();
        case Other =>
        case Stop =>
      }
    }

    /** The batch has the effect of Live: after a message that ends the connection nothing more is
        handled, and what is kept back is not sent. */
    method HandleData(messages: seq<Message>, ghost w: World) returns (ok: bool)
      requires w.p == State() && w.screen == PerformAll(Screen(ORIGIN, []), calls)
      modifies this
      ensures var l := Live(Going(w), Batch(messages));
        && ok == l.Going? && State() == l.w.p
        && PerformAll(Screen(ORIGIN, []), calls) == l.w.screen
    {
      ghost var start := Screen(ORIGIN, []);
      var i := 0;
      while i < |messages|
        invariant 0 <= i <= |messages| && Stop !in messages[..i]
        invariant State() == HandleAll(w, messages[..i]).p
        invariant PerformAll(start, calls) == HandleAll(w, messages[..i]).screen
      {
        if messages[i] == Stop {
          StopsAt(messages, i);
          return false;
        }
        assert messages[..i + 1][..i] == messages[..i];
        PerformConcat(start, calls, Step(State(), messages[i]).1);
        ParseMessage(messages[i]);
        i := i + 1;
      }
      assert messages[..i] == messages;
      PerformConcat(start, calls, Flush(State()).1);
      FlushCompressedMouse();
      return true;
    }
  }

  lemma {:induction false} PerformConcat(s: Screen, a: seq<Call>, b: seq<Call>)
    ensures PerformAll(s, a + b) == PerformAll(PerformAll(s, a), b)
    decreases |a|
  {
    if a == [] {
      assert a + b == b;
    } else {
      assert (a + b)[1..] == a[1..] + b;
      PerformConcat(Perform(s, a[0]), a[1..], b);
    }
  }
}
