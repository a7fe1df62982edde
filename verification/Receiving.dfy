/** What any series of calls of uSynergyUpdate and uSynergySendClipboard does: receives that bring data,
    that bring none, that fail, the idle timeout and connecting again, on a stream of frames that may be
    cut anywhere. */
module Receiving {
  import opened Octets
  import opened Framing
  import opened Messages

  const IDLE_TIMEOUT := 2000

  /** The pause that is made when nothing was received. */
  const IDLE := Slept(500)

  /** What one call of uSynergyUpdate brings, from the receive function, with the clock reading after it,
      or, of a client that is not connected, from the connect function; or one call of
      uSynergySendClipboard. */
  datatype Turn = Failed | Received(data: Bytes, now: int) | Connects(ok: bool) | Sends(text: Text)

  function Data(r: Turn): Bytes { if r.Received? then r.data else [] }

  function Stream(rs: seq<Turn>): Bytes {
    if rs == [] then [] else Data(rs[0]) + Stream(rs[1..])
  }

  /** The state between two calls. */
  datatype Link = Link(device: Device, pending: Bytes, lastMessageTime: int)

  function Disconnected(d: Device): Device {
    d.(connected := false, hasReceivedHello := false, isCaptured := false, sequenceNumber := 0)
  }

  /** More than two seconds without data, on a cyclic 32-bit millisecond clock. */
  predicate TimedOut(d: Device, n: nat, now: int, lastMessageTime: int) {
    d.hasReceivedHello && n == 0 && (now - lastMessageTime) % TWO_32 > IDLE_TIMEOUT
  }

  /** What receiving n bytes does before any message is looked at: nothing if there are any. */
  function Noted(d: Device, n: nat, now: int, lastMessageTime: int): Device {
    var d1 := d.Emit(n == 0, IDLE);
    if TimedOut(d, n, now, lastMessageTime) then Disconnected(d1) else d1
  }

  /** The clipboard is sent with the number of the last enter message. */
  function Said(d: Device, text: Text): Device
    requires d.Valid()
  {
    d.Reply(ClipboardBody(d.sequenceNumber, text))
  }

  /** The complete messages at the front of a legal stream. */
  ghost function Frames(s: Bytes): (bodies: seq<Bytes>)
    requires Legal(s, Readable)
    ensures bodies == Bodies(s) && forall b :: b in bodies ==> Readable(b)
  {
    LegalBodies(s, Readable);
    Bodies(s)
  }

  /** One call. */
  ghost function Updated(cfg: Config, l: Link, r: Turn): Link
    requires cfg.Valid() && l.device.Valid() && Legal(l.pending + Data(r), Readable)
  {
    match r
    case Failed => l.(device := Disconnected(l.device).Emit(true, Slept(1000)))
    case Connects(ok) => if ok then l.(device := l.device.(connected := true)) else l
    case Sends(text) => l.(device := Said(l.device, text))
    case Received(data, now) =>
      var s := l.pending + data;
      Link(ProcessAll(cfg, Noted(l.device, |data|, now, l.lastMessageTime), Frames(s)), Rest(s),
           if l.device.hasReceivedHello && |data| > 0 then now else l.lastMessageTime)
  }

  /** A series of calls that receives an acceptable stream. */
  ghost predicate Runs(cfg: Config, l: Link, rs: seq<Turn>) {
    cfg.Valid() && l.device.Valid() && !Complete(l.pending) && Legal(l.pending + Stream(rs), Readable)
  }

  /** A series of calls. */
  ghost function After(cfg: Config, l: Link, rs: seq<Turn>): Link
    requires Runs(cfg, l, rs)
    decreases |rs|
  {
    if rs == [] then l else
    UpdateStep(cfg, l, rs);
    After(cfg, Updated(cfg, l, rs[0]), rs[1..])
  }

  lemma {:induction false} LegalPart(a: Bytes, b: Bytes)
    requires Legal(a + b, Readable)
    ensures Legal(a, Readable)
    decreases |a|
  {
    if |a| >= 4 {
      HeaderOfPrefix(a, b);
    }
    if Complete(a) {
      FrontOf(a, b);
      LegalPart(a[4 + Get32(a, 0)..], b);
    }
  }

  lemma {:induction false} ProcessAllKeepsValid(cfg: Config, d: Device, bodies: seq<Bytes>)
    requires cfg.Valid() && d.Valid() && forall b :: b in bodies ==> Readable(b)
    ensures ProcessAll(cfg, d, bodies).Valid()
    decreases |bodies|
  {
    if bodies != [] {
      assert bodies[0] in bodies;
      ProcessKeepsValid(cfg, d, bodies[0]);
      ProcessAllKeepsValid(cfg, Process(cfg, d, bodies[0]), bodies[1..]);
    }
  }

  lemma UpdateKeepsValid(cfg: Config, l: Link, r: Turn)
    requires cfg.Valid() && l.device.Valid() && Legal(l.pending + Data(r), Readable)
    ensures Updated(cfg, l, r).device.Valid()
  {
    if r.Received? {
      ProcessAllKeepsValid(cfg, Noted(l.device, |r.data|, r.now, l.lastMessageTime), Frames(l.pending + r.data));
    }
  }

  lemma NothingToRead(s: Bytes)
    requires !Complete(s)
    ensures Bodies(s) == [] && Rest(s) == s
  {
  }

  lemma UpdatePending(cfg: Config, l: Link, r: Turn)
    requires cfg.Valid() && l.device.Valid() && !Complete(l.pending) && Legal(l.pending + Data(r), Readable)
    ensures Updated(cfg, l, r).pending == Rest(l.pending + Data(r)) && !Complete(Updated(cfg, l, r).pending)
  {
    RestIncomplete(l.pending + Data(r));
    if !r.Received? {
      assert l.pending + [] == l.pending;
      NothingToRead(l.pending);
    }
  }

  lemma LegalSplit(a: Bytes, b: Bytes)
    requires Legal(a + b, Readable)
    ensures Legal(a, Readable) && Legal(Rest(a) + b, Readable)
  {
    LegalPart(a, b);
    LegalRest(a, b, Readable);
  }

  lemma FirstData(pending: Bytes, rs: seq<Turn>)
    requires rs != []
    ensures pending + Stream(rs) == (pending + Data(rs[0])) + Stream(rs[1..])
  {
  }

  lemma StreamSplit(pending: Bytes, rs: seq<Turn>)
    requires rs != [] && Legal(pending + Stream(rs), Readable)
    ensures pending + Stream(rs) == (pending + Data(rs[0])) + Stream(rs[1..])
    ensures Legal(pending + Data(rs[0]), Readable) && Legal(Rest(pending + Data(rs[0])) + Stream(rs[1..]), Readable)
  {
    FirstData(pending, rs);
    LegalSplit(pending + Data(rs[0]), Stream(rs[1..]));
  }

  /** A call keeps what the next one needs. */
  lemma UpdateStep(cfg: Config, l: Link, rs: seq<Turn>)
    requires cfg.Valid() && l.device.Valid() && !Complete(l.pending) && rs != [] && Legal(l.pending + Stream(rs), Readable)
    ensures Legal(l.pending + Data(rs[0]), Readable)
    ensures var l' := Updated(cfg, l, rs[0]);
      && l'.device.Valid() && !Complete(l'.pending) && l'.pending == Rest(l.pending + Data(rs[0]))
      && Legal(l'.pending + Stream(rs[1..]), Readable)
  {
    StreamSplit(l.pending, rs);
    UpdateKeepsValid(cfg, l, rs[0]);
    UpdatePending(cfg, l, rs[0]);
  }

  // ---------- what happens, in order ----------

  datatype Action = Take(body: Bytes) | Pause | TimeOut | Lose | Join | Say(text: Text)

  function Takes(bodies: seq<Bytes>): seq<Action> {
    if bodies == [] then [] else [Take(bodies[0])] + Takes(bodies[1..])
  }

  /** What one call does. */
  function Actions(l: Link, r: Turn): seq<Action> {
    match r
    case Failed => [Lose]
    case Connects(ok) => if ok then [Join] else []
    case Sends(text) => [Say(text)]
    case Received(data, now) =>
      (if data == [] then [Pause] else [])
      + (if TimedOut(l.device, |data|, now, l.lastMessageTime) then [TimeOut] else [])
      + Takes(Bodies(l.pending + data))
  }

  ghost function Script(cfg: Config, l: Link, rs: seq<Turn>): seq<Action>
    requires Runs(cfg, l, rs)
    decreases |rs|
  {
    if rs == [] then [] else
    UpdateStep(cfg, l, rs);
    Actions(l, rs[0]) + Script(cfg, Updated(cfg, l, rs[0]), rs[1..])
  }

  /** The message bodies among the actions. */
  function Taken(script: seq<Action>): seq<Bytes> {
    if script == [] then []
    else if script[0].Take? then [script[0].body] + Taken(script[1..])
    else Taken(script[1..])
  }

  function Do(cfg: Config, d: Device, a: Action): (d': Device)
    requires cfg.Valid() && d.Valid() && (a.Take? ==> Readable(a.body))
    ensures d'.Valid()
  {
    match a
    case Take(b) => ProcessKeepsValid(cfg, d, b); Process(cfg, d, b)
    case Pause => d.Emit(true, IDLE)
    case TimeOut => Disconnected(d)
    case Lose => Disconnected(d).Emit(true, Slept(1000))
    case Join => d.(connected := true)
    case Say(text) => Said(d, text)
  }

  ghost predicate Doable(script: seq<Action>) {
    forall a :: a in script && a.Take? ==> Readable(a.body)
  }

  function DoAll(cfg: Config, d: Device, script: seq<Action>): Device
    requires cfg.Valid() && d.Valid() && Doable(script)
    decreases |script|
  {
    if script == [] then d else DoAll(cfg, Do(cfg, d, script[0]), script[1..])
  }

  lemma {:induction false} DoAllConcat(cfg: Config, d: Device, a: seq<Action>, b: seq<Action>)
    requires cfg.Valid() && d.Valid() && Doable(a) && Doable(b)
    ensures DoAll(cfg, d, a).Valid()
    ensures Doable(a + b) && DoAll(cfg, d, a + b) == DoAll(cfg, DoAll(cfg, d, a), b)
    decreases |a|
  {
    if a == [] {
      assert a + b == b;
    } else {
      assert (a + b)[0] == a[0] && (a + b)[1..] == a[1..] + b;
      DoAllConcat(cfg, Do(cfg, d, a[0]), a[1..], b);
    }
  }

  lemma {:induction false} TakenConcat(a: seq<Action>, b: seq<Action>)
    ensures Taken(a + b) == Taken(a) + Taken(b)
  {
    if a == [] {
      assert a + b == b;
    } else {
      assert (a + b)[1..] == a[1..] + b;
      TakenConcat(a[1..], b);
    }
  }

  lemma {:induction false} TakesTaken(bodies: seq<Bytes>)
    ensures Taken(Takes(bodies)) == bodies
    ensures (forall b :: b in bodies ==> Readable(b)) ==> Doable(Takes(bodies))
  {
    if bodies != [] {
      TakesTaken(bodies[1..]);
      assert Takes(bodies)[1..] == Takes(bodies[1..]);
    }
  }

  lemma {:induction false} TakesProcess(cfg: Config, d: Device, bodies: seq<Bytes>)
    requires cfg.Valid() && d.Valid() && (forall b :: b in bodies ==> Readable(b)) && Doable(Takes(bodies))
    ensures DoAll(cfg, d, Takes(bodies)) == ProcessAll(cfg, d, bodies)
    decreases |bodies|
  {
    if bodies != [] {
      assert bodies[0] in bodies;
      ProcessKeepsValid(cfg, d, bodies[0]);
      TakesTaken(bodies[1..]);
      TakesProcess(cfg, Process(cfg, d, bodies[0]), bodies[1..]);
      assert Takes(bodies)[1..] == Takes(bodies[1..]);
    }
  }

  /** One call is its actions, and the messages it takes are the frames completed by what it received. */
  lemma ActionsUpdate(cfg: Config, l: Link, r: Turn)
    requires cfg.Valid() && l.device.Valid() && !Complete(l.pending) && Legal(l.pending + Data(r), Readable)
    ensures Doable(Actions(l, r)) && Taken(Actions(l, r)) == Bodies(l.pending + Data(r))
    ensures DoAll(cfg, l.device, Actions(l, r)) == Updated(cfg, l, r).device
  {
    match r {
      case Failed =>
        assert l.pending + [] == l.pending;
        One(cfg, l.device, Lose);
      case Connects(ok) =>
        assert l.pending + [] == l.pending;
        One(cfg, l.device, Join);
      case Sends(text) =>
        assert l.pending + [] == l.pending;
        One(cfg, l.device, Say(text));
      case Received(data, now) =>
        var s := l.pending + data;
        var bodies := Frames(s);
        var before := (if data == [] then [Pause] else [])
                    + (if TimedOut(l.device, |data|, now, l.lastMessageTime) then [TimeOut] else []);
        NotedActions(cfg, l, data, now, before);
        TakesTaken(Bodies(s));
        TakesProcess(cfg, Noted(l.device, |data|, now, l.lastMessageTime), Bodies(s));
        DoAllConcat(cfg, l.device, before, Takes(Bodies(s)));
        TakenConcat(before, Takes(Bodies(s)));
    }
  }

  lemma One(cfg: Config, d: Device, a: Action)
    requires cfg.Valid() && d.Valid() && !a.Take?
    ensures DoAll(cfg, d, [a]) == Do(cfg, d, a) && Taken([a]) == []
  {
    assert [a][1..] == [];
  }

  lemma NotedActions(cfg: Config, l: Link, data: Bytes, now: int, before: seq<Action>)
    requires cfg.Valid() && l.device.Valid()
    requires before == (if data == [] then [Pause] else [])
                     + (if TimedOut(l.device, |data|, now, l.lastMessageTime) then [TimeOut] else [])
    ensures Doable(before) && Taken(before) == []
    ensures DoAll(cfg, l.device, before) == Noted(l.device, |data|, now, l.lastMessageTime)
  {
    var pause: seq<Action> := if data == [] then [Pause] else [];
    var timeOut: seq<Action> := if TimedOut(l.device, |data|, now, l.lastMessageTime) then [TimeOut] else [];
    var d := l.device.Emit(|data| == 0, IDLE);
    One(cfg, l.device, Pause);
    One(cfg, d, TimeOut);
    assert DoAll(cfg, l.device, pause) == d && Taken(pause) == [];
    assert Taken(timeOut) == [];
    DoAllConcat(cfg, l.device, pause, timeOut);
    TakenConcat(pause, timeOut);
  }

  /** Any series of calls is its actions; and whatever the pauses, timeouts, failures and new
      connections, the messages taken are exactly the frames of the whole stream so far, and the rest is
      what is pending. */
  lemma {:induction false} ScriptIsRun(cfg: Config, l: Link, rs: seq<Turn>)
    requires Runs(cfg, l, rs)
    ensures var script, all := Script(cfg, l, rs), l.pending + Stream(rs);
      && Doable(script) && After(cfg, l, rs).device == DoAll(cfg, l.device, script)
      && Taken(script) == Bodies(all) && After(cfg, l, rs).pending == Rest(all)
    decreases |rs|
  {
    if rs == [] {
      assert l.pending + [] == l.pending;
      NothingToRead(l.pending);
    } else {
      UpdateStep(cfg, l, rs);
      ScriptIsRun(cfg, Updated(cfg, l, rs[0]), rs[1..]);
      OneMoreCall(cfg, l, rs);
    }
  }

  lemma OneMoreCall(cfg: Config, l: Link, rs: seq<Turn>)
    requires cfg.Valid() && l.device.Valid() && !Complete(l.pending) && rs != []
    requires Legal(l.pending + Data(rs[0]), Readable) && Legal(l.pending + Stream(rs), Readable)
    requires var l' := Updated(cfg, l, rs[0]);
      && l'.device.Valid() && !Complete(l'.pending) && Legal(l'.pending + Stream(rs[1..]), Readable)
    requires var l' := Updated(cfg, l, rs[0]);
      var script, all := Script(cfg, l', rs[1..]), l'.pending + Stream(rs[1..]);
      && Doable(script) && After(cfg, l', rs[1..]).device == DoAll(cfg, l'.device, script)
      && Taken(script) == Bodies(all) && After(cfg, l', rs[1..]).pending == Rest(all)
    ensures var script, all := Script(cfg, l, rs), l.pending + Stream(rs);
      && Doable(script) && After(cfg, l, rs).device == DoAll(cfg, l.device, script)
      && Taken(script) == Bodies(all) && After(cfg, l, rs).pending == Rest(all)
  {
    var l', actions := Updated(cfg, l, rs[0]), Actions(l, rs[0]);
    var rest := Script(cfg, l', rs[1..]);
    ActionsUpdate(cfg, l, rs[0]);
    UpdatePending(cfg, l, rs[0]);
    DoAllConcat(cfg, l.device, actions, rest);
    TakenConcat(actions, rest);
    StreamSplit(l.pending, rs);
    Cut(l.pending + Data(rs[0]), Stream(rs[1..]));
    assert Script(cfg, l, rs) == actions + rest;
  }

  // ---------- what goes to the server ----------

  lemma ReceivedSendsFrames(cfg: Config, l: Link, data: Bytes, now: int)
    requires cfg.Valid() && l.device.Valid() && Legal(l.pending + data, Readable) && AllFramed(l.device.log)
    ensures AllFramed(Updated(cfg, l, Received(data, now)).device.log)
  {
    EmitFramed(l.device, |data| == 0, IDLE);
    AllRepliesFramed(cfg, Noted(l.device, |data|, now, l.lastMessageTime), Frames(l.pending + data));
  }

  lemma UpdateSendsFrames(cfg: Config, l: Link, r: Turn)
    requires cfg.Valid() && l.device.Valid() && Legal(l.pending + Data(r), Readable) && AllFramed(l.device.log)
    ensures AllFramed(Updated(cfg, l, r).device.log)
  {
    match r {
      case Failed => EmitFramed(Disconnected(l.device), true, Slept(1000));
      case Connects(_) =>
      case Sends(text) => ReplyFramed(l.device, ClipboardBody(l.device.sequenceNumber, text));
      case Received(data, now) => ReceivedSendsFrames(cfg, l, data, now);
    }
  }

  lemma {:induction false} RunSendsFrames(cfg: Config, l: Link, rs: seq<Turn>)
    requires Runs(cfg, l, rs) && AllFramed(l.device.log)
    ensures AllFramed(After(cfg, l, rs).device.log)
    decreases |rs|
  {
    if rs != [] {
      UpdateStep(cfg, l, rs);
      UpdateSendsFrames(cfg, l, rs[0]);
      RunSendsFrames(cfg, Updated(cfg, l, rs[0]), rs[1..]);
    }
  }

  /** In every series of calls, clipboards sent between updates included, the bytes that go to the server
      are whole frames: read back they are exactly the payloads of what was sent, in order. */
  lemma WireIsFrames(cfg: Config, l: Link, rs: seq<Turn>)
    requires Runs(cfg, l, rs) && AllFramed(l.device.log)
    ensures AllFramed(After(cfg, l, rs).device.log)
    ensures var log := After(cfg, l, rs).device.log;
      Bodies(Wire(log)) == Payloads(log) && Rest(Wire(log)) == []
  {
    RunSendsFrames(cfg, l, rs);
    WireParses(After(cfg, l, rs).device.log);
  }

  // ---------- without timeouts and failures ----------

  predicate Quiet(script: seq<Action>) {
    forall a :: a in script ==> a.Take? || a.Pause?
  }

  /** What was sent and which callbacks were made, the idle pauses left out. */
  function Calls(log: seq<Effect>): seq<Effect> {
    if log == [] then [] else
    var last := log[|log| - 1];
    Calls(log[..|log| - 1]) + if last == IDLE then [] else [last]
  }

  function Unpaused(d: Device): Device { d.(log := Calls(d.log)) }

  lemma EmitUnpaused(d: Device, installed: bool, e: Effect)
    ensures Unpaused(d.Emit(true, IDLE)) == Unpaused(d)
    ensures e != IDLE ==> Unpaused(d.Emit(installed, e)) == Unpaused(d).Emit(installed, e)
  {
    assert (d.log + [IDLE])[..|d.log|] == d.log;
    assert (d.log + [e])[..|d.log|] == d.log;
    assert Calls(d.log) + [] == Calls(d.log);
  }

  lemma ReplyUnpaused(d: Device, payload: Bytes)
    requires |payload| < TWO_32
    ensures Unpaused(d.Reply(payload)) == Unpaused(d).Reply(payload)
  {
    var e := Sent(Frame(payload));
    assert (d.log + [e])[..|d.log|] == d.log;
  }

  lemma {:induction false} CallsConcat(a: seq<Effect>, b: seq<Effect>)
    ensures Calls(a + b) == Calls(a) + Calls(b)
  {
    if b == [] {
      assert a + b == a && Calls(a) + [] == Calls(a);
    } else {
      var before, last := b[..|b| - 1], b[|b| - 1];
      assert (a + b)[..|a + b| - 1] == a + before && (a + b)[|a + b| - 1] == last;
      CallsConcat(a, before);
      CallsRegroup(Calls(a), Calls(before), if last == IDLE then [] else [last]);
    }
  }

  lemma CallsRegroup(a: seq<Effect>, b: seq<Effect>, c: seq<Effect>)
    ensures (a + b) + c == a + (b + c)
  {
  }

  lemma {:induction false} NoIdleCalls(log: seq<Effect>)
    requires IDLE !in log
    ensures Calls(log) == log
  {
    if log != [] {
      NoIdleCalls(log[..|log| - 1]);
    }
  }

  lemma {:induction false} FormatsAreClipboards(b: Bytes, from: nat, n: nat)
    requires FormatsFit(b, from, n)
    ensures forall e :: e in Formats(b, from, n) ==> e.Clipboard?
    decreases n
  {
    if n > 0 {
      FormatsAreClipboards(b, from + 8 + Get32(b, from + 4), n - 1);
    }
  }

  lemma FormatsUnpaused(log: seq<Effect>, b: Bytes, from: nat, n: nat)
    requires FormatsFit(b, from, n)
    ensures Calls(log + Formats(b, from, n)) == Calls(log) + Formats(b, from, n)
  {
    FormatsAreClipboards(b, from, n);
    CallsConcat(log, Formats(b, from, n));
    NoIdleCalls(Formats(b, from, n));
  }

  lemma ActUnpaused(cfg: Config, d: Device, b: Bytes, kind: Kind)
    requires d.Valid() && Fits(b, kind)
    ensures Act(cfg, Unpaused(d), b, kind) == Unpaused(Act(cfg, d, b, kind))
  {
    if kind.MouseButton? || kind.MouseMove? || kind.MouseWheel? {
      MouseUnpaused(cfg, d, b, kind);
    } else if kind.GameButtons? || kind.GameSticks? {
      GameUnpaused(cfg, d, b, kind);
    } else if kind.ClipboardData? {
      FormatsUnpaused(d.log, b, 17, Get32(b, 13));
    } else if kind.KeepAlive? {
      ReplyUnpaused(d, CALV);
    } else {
      KeyOrScreenUnpaused(cfg, d, b, kind);
    }
  }

  lemma KeyOrScreenUnpaused(cfg: Config, d: Device, b: Bytes, kind: Kind)
    requires d.Valid() && Fits(b, kind)
    requires !kind.MouseButton? && !kind.MouseMove? && !kind.MouseWheel? && !kind.GameButtons? && !kind.GameSticks?
    requires !kind.ClipboardData? && !kind.KeepAlive?
    ensures Act(cfg, Unpaused(d), b, kind) == Unpaused(Act(cfg, d, b, kind))
  {
    if kind.Enter? {
      EmitUnpaused(d.(sequenceNumber := Get32(b, 8), isCaptured := true), cfg.screenCallback, ScreenActive(true));
    } else if kind.Leave? {
      EmitUnpaused(d.(isCaptured := false), cfg.screenCallback, ScreenActive(false));
    } else if kind.KeyDown? {
      EmitUnpaused(d, cfg.keyboardCallback, Key(Get16(b, 8), Get16(b, 6), true, false));
    } else if kind.KeyRepeat? {
      EmitUnpaused(d, cfg.keyboardCallback, Key(Get16(b, 10), Get16(b, 6), true, true));
    } else if kind.KeyUp? {
      EmitUnpaused(d, cfg.keyboardCallback, Key(Get16(b, 8), Get16(b, 6), false, false));
    }
  }

  lemma MouseUnpaused(cfg: Config, d: Device, b: Bytes, kind: Kind)
    requires d.Valid() && Fits(b, kind) && (kind.MouseButton? || kind.MouseMove? || kind.MouseWheel?)
    ensures Act(cfg, Unpaused(d), b, kind) == Unpaused(Act(cfg, d, b, kind))
  {
    if kind.MouseButton? {
      ButtonUnpaused(cfg, d, b, kind.down);
    } else if kind.MouseMove? {
      var d1 := d.(mouseX := Get16(b, 4), mouseY := Get16(b, 6));
      EmitUnpaused(d1, cfg.mouseCallback, MouseEffect(d1));
    } else {
      WheelUnpaused(cfg, d, b);
    }
  }

  lemma ButtonUnpaused(cfg: Config, d: Device, b: Bytes, down: bool)
    requires d.Valid() && |b| >= 5
    ensures Act(cfg, Unpaused(d), b, MouseButton(down)) == Unpaused(Act(cfg, d, b, MouseButton(down)))
  {
    var d1, d2 := Button(d, b[4], down), Button(Unpaused(d), b[4], down);
    ButtonKeepsLog(d, b[4], down);
    EmitUnpaused(d1, cfg.mouseCallback, MouseEffect(d1));
    assert Act(cfg, d, b, MouseButton(down)) == d1.Emit(cfg.mouseCallback, MouseEffect(d1));
    assert Act(cfg, Unpaused(d), b, MouseButton(down)) == d2.Emit(cfg.mouseCallback, MouseEffect(d2));
  }

  lemma ButtonKeepsLog(d: Device, number: UInt8, down: bool)
    ensures Button(Unpaused(d), number, down) == Unpaused(Button(d, number, down))
  {
  }

  lemma WheelUnpaused(cfg: Config, d: Device, b: Bytes)
    requires d.Valid() && Fits(b, MouseWheel)
    ensures Act(cfg, Unpaused(d), b, MouseWheel) == Unpaused(Act(cfg, d, b, MouseWheel))
  {
    var d1 := d.(wheelX := Wrapped16(d.wheelX + Get16(b, 4)), wheelY := Wrapped16(d.wheelY + Get16(b, 6)));
    EmitUnpaused(d1, cfg.mouseCallback, MouseEffect(d1));
  }

  lemma GameUnpaused(cfg: Config, d: Device, b: Bytes, kind: Kind)
    requires d.Valid() && Fits(b, kind) && (kind.GameButtons? || kind.GameSticks?)
    ensures Act(cfg, Unpaused(d), b, kind) == Unpaused(Act(cfg, d, b, kind))
  {
    if b[4] < JOYSTICKS {
      var d1 := if kind.GameButtons? then d.(buttons := d.buttons[b[4] := Get16(b, 5)])
                else d.(sticks := d.sticks[b[4] := b[5..9]]);
      EmitUnpaused(d1, cfg.joystickCallback, Joystick(b[4], d1.buttons[b[4]], d1.sticks[b[4]]));
    }
  }

  lemma HelloUnpaused(cfg: Config, d: Device, b: Bytes)
    requires cfg.Valid() && d.Valid() && Fits(b, Hello)
    ensures Handle(cfg, Unpaused(d), b, Hello) == Unpaused(Handle(cfg, d, b, Hello))
  {
    ReplyUnpaused(d, HelloBack(cfg));
    EmitUnpaused(d.Reply(HelloBack(cfg)).(connected := false), true, Slept(1000));
  }

  /** A message has the same effect whether or not there were pauses before it. */
  lemma ProcessUnpaused(cfg: Config, d: Device, b: Bytes)
    requires cfg.Valid() && d.Valid() && Readable(b)
    ensures Process(cfg, Unpaused(d), b) == Unpaused(Process(cfg, d, b))
  {
    HandleUnpaused(cfg, d, b, BodyKind(b));
  }

  lemma HandleUnpaused(cfg: Config, d: Device, b: Bytes, kind: Kind)
    requires cfg.Valid() && d.Valid() && Fits(b, kind)
    ensures Handle(cfg, Unpaused(d), b, kind) == Unpaused(Handle(cfg, d, b, kind))
  {
    if kind.Hello? {
      HelloUnpaused(cfg, d, b);
    } else if kind.QueryInfo? {
      ReplyUnpaused(d, Info(cfg));
    } else if kind.Unknown? {
      EmitUnpaused(d, true, UnknownPacket(b[..4]));
    } else if !kind.Ignored? {
      ActUnpaused(cfg, d, b, kind);
      ReplyUnpaused(Act(cfg, d, b, kind), CNOP);
    }
  }

  lemma {:induction false} QuietScript(cfg: Config, d: Device, script: seq<Action>)
    requires cfg.Valid() && d.Valid() && Doable(script) && Quiet(script)
    ensures forall b :: b in Taken(script) ==> Readable(b)
    ensures Unpaused(DoAll(cfg, d, script)) == ProcessAll(cfg, Unpaused(d), Taken(script))
    decreases |script|
  {
    if script != [] {
      var a := script[0];
      assert a in script;
      QuietScript(cfg, Do(cfg, d, a), script[1..]);
      if a.Take? {
        ProcessUnpaused(cfg, d, a.body);
        assert Taken(script)[1..] == Taken(script[1..]);
      } else {
        EmitUnpaused(d, true, IDLE);
      }
    }
  }

  /** However the bytes are split into receives, with any idle receives between them: as long as nothing
      fails or times out, all that is sent and called back is that of receiving everything at once. */
  lemma SplitDoesNotMatter(cfg: Config, l: Link, rs: seq<Turn>)
    requires Runs(cfg, l, rs)
    requires Quiet(Script(cfg, l, rs))
    ensures var all := l.pending + Stream(rs);
      && (forall b :: b in Bodies(all) ==> Readable(b))
      && Unpaused(After(cfg, l, rs).device) == ProcessAll(cfg, Unpaused(l.device), Bodies(all))
      && After(cfg, l, rs).pending == Rest(all)
  {
    ScriptIsRun(cfg, l, rs);
    QuietScript(cfg, l.device, Script(cfg, l, rs));
  }

  /** A receive that fails, or that comes too late with nothing, resets the connection, and nothing else
      but for the pause that is made. */
  lemma ConnectionLost(cfg: Config, l: Link, r: Turn)
    requires cfg.Valid() && l.device.Valid() && !Complete(l.pending) && Legal(l.pending + Data(r), Readable)
    requires r.Failed? || (r.Received? && r.data == [] && TimedOut(l.device, 0, r.now, l.lastMessageTime))
    ensures var d, d' := l.device, Updated(cfg, l, r).device;
      && !d'.connected && !d'.hasReceivedHello && !d'.isCaptured && d'.sequenceNumber == 0
      && d' == d.(connected := false, hasReceivedHello := false, isCaptured := false, sequenceNumber := 0,
                  log := d.log + [Slept(if r.Failed? then 1000 else 500)])
    ensures Updated(cfg, l, r).pending == l.pending && Updated(cfg, l, r).lastMessageTime == l.lastMessageTime
  {
    assert l.pending + [] == l.pending;
    NothingToRead(l.pending);
  }

  // ---------- the timeout ----------

  /** A clock reading in milliseconds. */
  predicate ClockTime(time: int) { 0 <= time < TWO_32 }

  lemma {:induction false} StreamConcat(a: seq<Turn>, b: seq<Turn>)
    ensures Stream(a + b) == Stream(a) + Stream(b)
  {
    if a == [] {
      assert a + b == b;
    } else {
      assert (a + b)[1..] == a[1..] + b;
      StreamConcat(a[1..], b);
    }
  }

  lemma StreamJoin(pending: Bytes, a: seq<Turn>, b: seq<Turn>)
    ensures pending + Stream(a + b) == (pending + Stream(a)) + Stream(b)
  {
    StreamConcat(a, b);
  }

  lemma RunsPart(cfg: Config, l: Link, a: seq<Turn>, b: seq<Turn>)
    requires Runs(cfg, l, a + b)
    ensures Runs(cfg, l, a)
  {
    StreamJoin(l.pending, a, b);
    LegalPart(l.pending + Stream(a), Stream(b));
  }

  /** A series of calls goes on from where its first part ends. */
  lemma {:induction false} AfterConcat(cfg: Config, l: Link, a: seq<Turn>, b: seq<Turn>)
    requires Runs(cfg, l, a + b)
    ensures Runs(cfg, l, a) && Runs(cfg, After(cfg, l, a), b)
    ensures After(cfg, l, a + b) == After(cfg, After(cfg, l, a), b)
    decreases |a|
  {
    RunsPart(cfg, l, a, b);
    if a == [] {
      assert a + b == b;
    } else {
      assert (a + b)[0] == a[0] && (a + b)[1..] == a[1..] + b;
      UpdateStep(cfg, l, a + b);
      AfterConcat(cfg, Updated(cfg, l, a[0]), a[1..], b);
    }
  }

  lemma ReadNothing(cfg: Config, l: Link, r: Turn)
    requires cfg.Valid() && l.device.Valid() && !Complete(l.pending) && Legal(l.pending + Data(r), Readable) && Data(r) == []
    ensures Updated(cfg, l, r).lastMessageTime == l.lastMessageTime
    ensures Updated(cfg, l, r).device.hasReceivedHello ==> l.device.hasReceivedHello
  {
    assert l.pending + [] == l.pending;
    NothingToRead(l.pending);
  }

  /** Without data nothing is noted and no hello is received. */
  lemma {:induction false} WithoutData(cfg: Config, l: Link, rs: seq<Turn>)
    requires Runs(cfg, l, rs) && forall r :: r in rs ==> Data(r) == []
    ensures After(cfg, l, rs).lastMessageTime == l.lastMessageTime
    ensures After(cfg, l, rs).device.hasReceivedHello ==> l.device.hasReceivedHello
    decreases |rs|
  {
    if rs != [] {
      UpdateStep(cfg, l, rs);
      ReadNothing(cfg, l, rs[0]);
      WithoutData(cfg, Updated(cfg, l, rs[0]), rs[1..]);
    }
  }

  lemma {:induction false} NotesReadings(cfg: Config, l: Link, rs: seq<Turn>)
    requires Runs(cfg, l, rs) && ClockTime(l.lastMessageTime) && forall r :: r in rs && r.Received? ==> ClockTime(r.now)
    ensures ClockTime(After(cfg, l, rs).lastMessageTime)
    decreases |rs|
  {
    if rs != [] {
      assert rs[0] in rs;
      UpdateStep(cfg, l, rs);
      NotesReadings(cfg, Updated(cfg, l, rs[0]), rs[1..]);
    }
  }

  /** An idle receive is answered by disconnecting if and only if more than two seconds have passed since
      the reading `last`. */
  ghost predicate TimesOutFrom(l: Link, last: int) {
    forall idle :: ClockTime(idle) ==>
      (TimedOut(l.device, 0, idle, l.lastMessageTime) <==> (idle - last) % TWO_32 > 2000)
  }

  lemma Ago(idle: int, time: int)
    requires ClockTime(idle) && ClockTime(time)
    ensures (idle - time) % TWO_32 == if idle >= time then idle - time else idle - time + TWO_32
  {
  }

  /** Different times are told apart by when two seconds since then are over. */
  lemma ToldApart(a: int, b: int) returns (idle: int)
    requires ClockTime(a) && ClockTime(b) && a != b
    ensures ClockTime(idle) && ((idle - a) % TWO_32 > IDLE_TIMEOUT <==> (idle - b) % TWO_32 <= IDLE_TIMEOUT)
  {
    var x := if a + IDLE_TIMEOUT < TWO_32 then a + IDLE_TIMEOUT else a + IDLE_TIMEOUT - TWO_32;
    var y := if b + IDLE_TIMEOUT < TWO_32 then b + IDLE_TIMEOUT else b + IDLE_TIMEOUT - TWO_32;
    Ago(x, a);
    Ago(x, b);
    Ago(y, a);
    Ago(y, b);
    idle := if (x - b) % TWO_32 > IDLE_TIMEOUT then x else y;
  }

  /** Only the reading that was noted will do. */
  lemma CountsFromNoted(l: Link, last: int)
    requires l.device.hasReceivedHello && ClockTime(l.lastMessageTime) && ClockTime(last)
    ensures TimesOutFrom(l, last) <==> last == l.lastMessageTime
  {
    if last != l.lastMessageTime {
      var idle := ToldApart(l.lastMessageTime, last);
      assert TimedOut(l.device, 0, idle, l.lastMessageTime) <==> (idle - last) % TWO_32 <= IDLE_TIMEOUT;
    }
  }

  /** Two seconds of inactivity are promised.  After any calls that end in a greeted connection, with the
      last data brought by the k-th: the idle time counts from that data if and only if a hello had been
      received before it, on the same connection, or the clock reads the same as when time was last
      noted. */
  lemma IdleTimeIff(cfg: Config, l: Link, rs: seq<Turn>, k: nat)
    requires Runs(cfg, l, rs) && ClockTime(l.lastMessageTime) && forall r :: r in rs && r.Received? ==> ClockTime(r.now)
    requires k < |rs| && Data(rs[k]) != [] && forall j :: k < j < |rs| ==> Data(rs[j]) == []
    requires After(cfg, l, rs).device.hasReceivedHello
    ensures Runs(cfg, l, rs[..k])
    ensures var before := After(cfg, l, rs[..k]);
      TimesOutFrom(After(cfg, l, rs), rs[k].now) <==> before.device.hasReceivedHello || before.lastMessageTime == rs[k].now
  {
    var a, b := rs[..k], rs[k + 1..];
    assert rs == a + rs[k..] && rs[k..][0] == rs[k] && rs[k..][1..] == b;
    AfterConcat(cfg, l, a, rs[k..]);
    var before := After(cfg, l, a);
    UpdateStep(cfg, before, rs[k..]);
    WithoutData(cfg, Updated(cfg, before, rs[k]), b);
    NotesReadings(cfg, l, rs);
    assert rs[k] in rs;
    CountsFromNoted(After(cfg, l, rs), rs[k].now);
  }

  lemma HelloProcessed(cfg: Config, d: Device)
    requires cfg.Valid() && d.Valid() && Readable(SYNERGY)
    ensures ProcessAll(cfg, d, [SYNERGY]) == Handle(cfg, d, SYNERGY, Hello) && Handle(cfg, d, SYNERGY, Hello).Valid()
  {
    ProcessKeepsValid(cfg, d, SYNERGY);
    assert [SYNERGY][1..] == [];
  }

  lemma HelloReceived(cfg: Config, l: Link, now: int)
    requires cfg.Valid() && l.device.Valid() && !l.device.hasReceivedHello && l.pending == []
    ensures Legal(l.pending + Frame(SYNERGY), Readable)
    ensures Updated(cfg, l, Received(Frame(SYNERGY), now)) == Link(Handle(cfg, l.device, SYNERGY, Hello), [], l.lastMessageTime)
    ensures Handle(cfg, l.device, SYNERGY, Hello).Valid()
  {
    HelloAlone();
    assert l.pending + Frame(SYNERGY) == Frame(SYNERGY);
    HelloProcessed(cfg, l.device);
  }

  lemma IdleCloses(cfg: Config, l: Link, idle: int)
    requires cfg.Valid() && l.device.Valid() && l.pending == [] && TimedOut(l.device, 0, idle, l.lastMessageTime)
    ensures Legal(l.pending + [], Readable) && !Updated(cfg, l, Received([], idle)).device.connected
  {
    assert l.pending + [] == [];
    NothingToRead([]);
  }

  /** A connection that is greeted late: an idle receive right after the greeting, with nothing left to
      process, closes it. */
  lemma GreetedLate(cfg: Config, l: Link, now: int, idle: int)
    requires cfg.Valid() && l.device.Valid() && l.device.connected && !l.device.hasReceivedHello && l.pending == []
    requires cfg.sendOk(l.device.sends) && (idle - l.lastMessageTime) % TWO_32 > IDLE_TIMEOUT
    ensures Legal(l.pending + Frame(SYNERGY), Readable)
    ensures var greeted := Updated(cfg, l, Received(Frame(SYNERGY), now));
      && greeted.device.Valid() && greeted.device.connected && greeted.device.hasReceivedHello && Legal(greeted.pending + [], Readable)
      && !Updated(cfg, greeted, Received([], idle)).device.connected
  {
    HelloReceived(cfg, l, now);
    IdleCloses(cfg, Updated(cfg, l, Received(Frame(SYNERGY), now)), idle);
  }

  /** For instance a connection made again five seconds after the last data of the one before, greeted at
      once and read a millisecond later. */
  lemma GreetedAgain(cfg: Config, l: Link)
    requires cfg.Valid() && l.device.Valid() && l.pending == [] && cfg.sendOk(l.device.sends)
    requires ClockTime(l.lastMessageTime) && ClockTime(l.lastMessageTime + 5001)
    ensures Legal(l.pending + [], Readable)
    ensures var again := Updated(cfg, Updated(cfg, l, Failed), Connects(true));
      && again.device.Valid() && Legal(again.pending + Frame(SYNERGY), Readable)
      && var greeted := Updated(cfg, again, Received(Frame(SYNERGY), l.lastMessageTime + 5000));
         && greeted.device.Valid() && greeted.device.connected && Legal(greeted.pending + [], Readable)
         && !Updated(cfg, greeted, Received([], l.lastMessageTime + 5001)).device.connected
  {
    assert Legal([], Readable);
    Ago(l.lastMessageTime + 5001, l.lastMessageTime);
    GreetedLate(cfg, Updated(cfg, Updated(cfg, l, Failed), Connects(true)), l.lastMessageTime + 5000, l.lastMessageTime + 5001);
  }

  lemma HelloAlone()
    ensures Bodies(Frame(SYNERGY)) == [SYNERGY] && Rest(Frame(SYNERGY)) == []
    ensures Legal(Frame(SYNERGY), Readable) && BodyKind(SYNERGY) == Hello
  {
    FrameIsFrame(SYNERGY);
    FrameParses(SYNERGY, []);
    assert Frame(SYNERGY) + [] == Frame(SYNERGY);
    assert Legal([], Readable);
  }

  // ---------- streams of acceptable frames ----------

  /** Bodies of 4 to 4092 bytes, each known message at its documented length. */
  predicate Acceptable(bodies: seq<Bytes>)
    ensures Acceptable(bodies) ==> forall b :: b in bodies ==> MIN_BODY <= |b| <= MAX_BODY
  {
    bodies == [] || (MIN_BODY <= |bodies[0]| <= MAX_BODY && Readable(bodies[0]) && Acceptable(bodies[1..]))
  }

  lemma {:induction false} AllReadable(bodies: seq<Bytes>)
    requires Acceptable(bodies)
    ensures forall b :: b in bodies ==> Readable(b)
  {
    if bodies != [] {
      AllReadable(bodies[1..]);
    }
  }

  lemma FramesParsed(bodies: seq<Bytes>, p: Bytes)
    requires Acceptable(bodies) && p <= Encode(bodies)
    ensures Legal(p, Readable) && Parsed(bodies, p, Bodies(p), Rest(p))
  {
    AllReadable(bodies);
    PrefixLegal(bodies, p, Readable);
    PrefixParses(bodies, p);
  }

  /** For a stream of acceptable frames, whatever way it is cut and whatever idle receives, timeouts,
      failed receives and new connections come between: the calls do exactly what the script says, the messages in it are
      exactly the frames complete so far, in order, and what is pending is exactly the incomplete
      suffix, the proper beginning of the next frame. */
  lemma StreamProcessed(cfg: Config, l: Link, bodies: seq<Bytes>, rs: seq<Turn>)
    requires cfg.Valid() && l.device.Valid() && l.pending == [] && Acceptable(bodies) && Stream(rs) <= Encode(bodies)
    ensures Legal(l.pending + Stream(rs), Readable)
    ensures Doable(Script(cfg, l, rs)) && After(cfg, l, rs).device == DoAll(cfg, l.device, Script(cfg, l, rs))
    ensures Parsed(bodies, Stream(rs), Taken(Script(cfg, l, rs)), After(cfg, l, rs).pending)
  {
    assert l.pending + Stream(rs) == Stream(rs);
    FramesParsed(bodies, Stream(rs));
    ScriptIsRun(cfg, l, rs);
  }
}
