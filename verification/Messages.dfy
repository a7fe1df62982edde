/** What each server message does to the embedded client: state changes, callbacks and replies, as a
    function of the message body alone.  EmbeddedClient refines this from its raw buffers. */
module Messages {
  import opened Octets
  import opened Framing

  /** The client's configuration.  A callback that is not installed is skipped; `sendOk(n)` is what
      the send function returns on its n-th call. */
  datatype Config = Config(
    name: Bytes, width: int, height: int,
    screenCallback: bool, mouseCallback: bool, keyboardCallback: bool,
    joystickCallback: bool, clipboardCallback: bool,
    sendOk: nat -> bool)
  {
    predicate Valid() { |name| < TWO_16 && 0 <= width < TWO_16 && 0 <= height < TWO_16 }
  }

  datatype Effect =
    | Sent(frame: Bytes)
    | ScreenActive(active: bool)
    | Mouse(x: int, y: int, wheelX: int, wheelY: int, left: bool, right: bool, middle: bool)
    | Key(key: int, modifiers: int, down: bool, isRepeat: bool)
    | Joystick(number: int, buttons: int, sticks: Bytes)
    | Clipboard(format: int, data: Bytes)
    | Slept(ms: int)
    | UnknownPacket(id: Bytes)

  const JOYSTICKS := 4

  datatype Device = Device(
    connected: bool, hasReceivedHello: bool, isCaptured: bool, sequenceNumber: int,
    mouseX: int, mouseY: int, wheelX: int, wheelY: int,
    left: bool, right: bool, middle: bool,
    sticks: seq<Bytes>, buttons: seq<int>,
    sends: nat, log: seq<Effect>)
  {
    predicate Valid() { |sticks| == |buttons| == JOYSTICKS && 0 <= sequenceNumber < TWO_32 }

    function Emit(installed: bool, e: Effect): Device {
      if installed then this.(log := log + [e]) else this
    }

    /** One call of sSendReply with this payload. */
    function Reply(payload: Bytes): Device
      requires |payload| < TWO_32
    {
      this.(log := log + [Sent(Frame(payload))], sends := sends + 1)
    }
  }

  // message ids
  const SYNERGY: Bytes := [83, 121, 110, 101, 114, 103, 121]
  const QINF: Bytes := [81, 73, 78, 70]
  const CIAK: Bytes := [67, 73, 65, 75]
  const CROP: Bytes := [67, 82, 79, 80]
  const CINN: Bytes := [67, 73, 78, 78]
  const COUT: Bytes := [67, 79, 85, 84]
  const DMDN: Bytes := [68, 77, 68, 78]
  const DMUP: Bytes := [68, 77, 85, 80]
  const DMMV: Bytes := [68, 77, 77, 86]
  const DMWM: Bytes := [68, 77, 87, 77]
  const DKDN: Bytes := [68, 75, 68, 78]
  const DKRP: Bytes := [68, 75, 82, 80]
  const DKUP: Bytes := [68, 75, 85, 80]
  const DGBT: Bytes := [68, 71, 66, 84]
  const DGST: Bytes := [68, 71, 83, 84]
  const DSOP: Bytes := [68, 83, 79, 80]
  const CALV: Bytes := [67, 65, 76, 86]
  const DCLP: Bytes := [68, 67, 76, 80]
  const CNOP: Bytes := [67, 78, 79, 80]
  const DINF: Bytes := [68, 73, 78, 70]

  const PROTOCOL_MAJOR := 1
  const PROTOCOL_MINOR := 4

  datatype Kind =
    | Hello | QueryInfo | Ignored | Enter | Leave | MouseButton(down: bool) | MouseMove | MouseWheel
    | KeyDown | KeyRepeat | KeyUp | GameButtons | GameSticks | SetOptions | KeepAlive | ClipboardData | Unknown

  /** How the dispatch reads the 4 bytes of an id (a hello has been told apart before). */
  function KindOf(id: Bytes): Kind {
    if id == QINF then QueryInfo
    else if id == CIAK then Ignored
    else if id == CROP then Ignored
    else if id == CINN then Enter
    else if id == COUT then Leave
    else if id == DMDN then MouseButton(true)
    else if id == DMUP then MouseButton(false)
    else if id == DMMV then MouseMove
    else if id == DMWM then MouseWheel
    else if id == DKDN then KeyDown
    else if id == DKRP then KeyRepeat
    else if id == DKUP then KeyUp
    else if id == DGBT then GameButtons
    else if id == DGST then GameSticks
    else if id == DSOP then SetOptions
    else if id == CALV then KeepAlive
    else if id == DCLP then ClipboardData
    else Unknown
  }

  function BodyKind(b: Bytes): Kind
    requires |b| >= 4
  {
    if SYNERGY <= b then Hello else KindOf(b[..4])
  }

  /** The body is long enough for everything its handler reads; in particular the 7-byte test for a
      hello does not look past the end of a body that starts like one. */
  predicate Readable(b: Bytes) {
    && |b| >= 4
    && (b[..4] == SYNERGY[..4] ==> |b| >= 7)
    && Fits(b, BodyKind(b))
  }

  predicate Fits(b: Bytes, kind: Kind) {
    match kind
    case Enter => |b| >= 12
    case MouseButton(_) => |b| >= 5
    case MouseMove => |b| >= 8
    case MouseWheel => |b| >= 8
    case KeyDown => |b| >= 10
    case KeyRepeat => |b| >= 12
    case KeyUp => |b| >= 10
    case GameButtons => |b| >= 7
    case GameSticks => |b| >= 9
    case ClipboardData => |b| >= 17 && FormatsFit(b, 17, Get32(b, 13))
    case _ => |b| >= 4
  }

  /** n clipboard formats, each a format, a size and that many bytes, lie within the body. */
  predicate FormatsFit(b: Bytes, from: nat, n: nat)
    decreases n
  {
    n == 0 || (from + 8 <= |b| && from + 8 + Get32(b, from + 4) <= |b|
               && FormatsFit(b, from + 8 + Get32(b, from + 4), n - 1))
  }

  function Formats(b: Bytes, from: nat, n: nat): seq<Effect>
    requires FormatsFit(b, from, n)
    decreases n
  {
    if n == 0 then [] else
    var size := Get32(b, from + 4);
    [Clipboard(Get32(b, from), b[from + 8..from + 8 + size])] + Formats(b, from + 8 + size, n - 1)
  }

  /** Formats have been read up to offset `at`; n are left. */
  ghost predicate Reading(b: Bytes, at: nat, n: nat, read: seq<Effect>, all: seq<Effect>) {
    FormatsFit(b, at, n) && read + Formats(b, at, n) == all
  }

  lemma FormatsStep(b: Bytes, at: nat, n: nat, read: seq<Effect>, all: seq<Effect>) returns (first: Effect, next: nat)
    requires Reading(b, at, n, read, all) && n > 0
    ensures at + 8 <= |b| && next == at + 8 + Get32(b, at + 4) <= |b|
    ensures first == Clipboard(Get32(b, at), b[at + 8..next])
    ensures Reading(b, next, n - 1, read + [first], all)
  {
    next := at + 8 + Get32(b, at + 4);
    first := Clipboard(Get32(b, at), b[at + 8..next]);
    var rest := Formats(b, next, n - 1);
    assert (read + [first]) + rest == read + ([first] + rest);
  }

  function HelloBack(cfg: Config): Bytes
    requires cfg.Valid()
  {
    SYNERGY + Put16(PROTOCOL_MAJOR) + Put16(PROTOCOL_MINOR) + Put32(|cfg.name|) + cfg.name
  }

  function Info(cfg: Config): Bytes
    requires cfg.Valid()
  {
    DINF + Put16(0) + Put16(0) + Put16(cfg.width) + Put16(cfg.height) + Put16(0) + Put16(0) + Put16(0)
  }

  function Wrapped16(v: int): int { Signed16(v % TWO_16) }

  function MouseEffect(d: Device): Effect {
    Mouse(d.mouseX, d.mouseY, d.wheelX, d.wheelY, d.left, d.right, d.middle)
  }

  /** Buttons: 3 is right, 2 is middle, anything else is left. */
  function Button(d: Device, number: UInt8, down: bool): Device {
    d.(right := if number == 3 then down else d.right,
       middle := if number == 2 then down else d.middle,
       left := if number != 3 && number != 2 then down else d.left)
  }

  /** sProcessMessage on the message with this body. */
  function Process(cfg: Config, d: Device, b: Bytes): Device
    requires cfg.Valid() && d.Valid() && Readable(b)
  {
    Handle(cfg, d, b, BodyKind(b))
  }

  function Handle(cfg: Config, d: Device, b: Bytes, kind: Kind): Device
    requires cfg.Valid() && d.Valid() && Fits(b, kind)
  {
    match kind
    case Hello =>
      var d1 := d.Reply(HelloBack(cfg));
      if cfg.sendOk(d.sends) then d1.(hasReceivedHello := true)
      else d1.(connected := false).Emit(true, Slept(1000))
    case QueryInfo => d.Reply(Info(cfg))
    case Ignored => d
    case Unknown => d.Emit(true, UnknownPacket(b[..4]))
    case _ => Act(cfg, d, b, kind).Reply(CNOP)
  }

  /** The messages that are answered with a no-op. */
  function Act(cfg: Config, d: Device, b: Bytes, kind: Kind): Device
    requires d.Valid() && Fits(b, kind)
  {
    match kind
    case Enter =>
      d.(sequenceNumber := Get32(b, 8), isCaptured := true).Emit(cfg.screenCallback, ScreenActive(true))
    case Leave => d.(isCaptured := false).Emit(cfg.screenCallback, ScreenActive(false))
    case MouseButton(down) => var d1 := Button(d, b[4], down); d1.Emit(cfg.mouseCallback, MouseEffect(d1))
    case MouseMove =>
      var d1 := d.(mouseX := Get16(b, 4), mouseY := Get16(b, 6));
      d1.Emit(cfg.mouseCallback, MouseEffect(d1))
    case MouseWheel =>
      var d1 := d.(wheelX := Wrapped16(d.wheelX + Get16(b, 4)), wheelY := Wrapped16(d.wheelY + Get16(b, 6)));
      d1.Emit(cfg.mouseCallback, MouseEffect(d1))
    case KeyDown => d.Emit(cfg.keyboardCallback, Key(Get16(b, 8), Get16(b, 6), true, false))
    case KeyRepeat => d.Emit(cfg.keyboardCallback, Key(Get16(b, 10), Get16(b, 6), true, true))
    case KeyUp => d.Emit(cfg.keyboardCallback, Key(Get16(b, 8), Get16(b, 6), false, false))
    case GameButtons =>
      if b[4] < JOYSTICKS then
        var d1 := d.(buttons := d.buttons[b[4] := Get16(b, 5)]);
        d1.Emit(cfg.joystickCallback, Joystick(b[4], d1.buttons[b[4]], d1.sticks[b[4]]))
      else d
    case GameSticks =>
      if b[4] < JOYSTICKS then
        var d1 := d.(sticks := d.sticks[b[4] := b[5..9]]);
        d1.Emit(cfg.joystickCallback, Joystick(b[4], d1.buttons[b[4]], d1.sticks[b[4]]))
      else d
    case KeepAlive => d.Reply(CALV)
    case ClipboardData =>
      if cfg.clipboardCallback then d.(log := d.log + Formats(b, 17, Get32(b, 13))) else d
    case _ => d
  }

  function ProcessAll(cfg: Config, d: Device, bodies: seq<Bytes>): Device
    requires cfg.Valid() && d.Valid()
    requires forall b :: b in bodies ==> Readable(b)
    decreases |bodies|
  {
    if bodies == [] then d else
    ProcessKeepsValid(cfg, d, bodies[0]);
    ProcessAll(cfg, Process(cfg, d, bodies[0]), bodies[1..])
  }

  lemma ActKeepsValid(cfg: Config, d: Device, b: Bytes, kind: Kind)
    requires d.Valid() && Fits(b, kind)
    ensures Act(cfg, d, b, kind).Valid()
  {
  }

  lemma HandleKeepsValid(cfg: Config, d: Device, b: Bytes, kind: Kind)
    requires cfg.Valid() && d.Valid() && Fits(b, kind)
    ensures Handle(cfg, d, b, kind).Valid()
  {
    match kind {
      case Hello =>
      case QueryInfo =>
      case Ignored =>
      case Unknown =>
      case _ => ActKeepsValid(cfg, d, b, kind);
    }
  }

  lemma ProcessKeepsValid(cfg: Config, d: Device, b: Bytes)
    requires cfg.Valid() && d.Valid() && Readable(b)
    ensures Process(cfg, d, b).Valid()
  {
    HandleKeepsValid(cfg, d, b, BodyKind(b));
  }

  lemma ProcessFirst(cfg: Config, d: Device, b: Bytes, bodies: seq<Bytes>)
    requires cfg.Valid() && d.Valid() && Readable(b) && forall c :: c in bodies ==> Readable(c)
    ensures forall c :: c in [b] + bodies ==> Readable(c)
    ensures Process(cfg, d, b).Valid() && ProcessAll(cfg, d, [b] + bodies) == ProcessAll(cfg, Process(cfg, d, b), bodies)
  {
    ProcessKeepsValid(cfg, d, b);
    assert ([b] + bodies)[1..] == bodies;
  }

  // ---------- replies ----------

  /** One frame and nothing else: the big-endian prefix is the length of the rest. */
  predicate IsFrame(s: Bytes) { |s| >= 4 && Get32(s, 0) == |s| - 4 }

  ghost predicate AllFramed(log: seq<Effect>) {
    forall e :: e in log && e.Sent? ==> IsFrame(e.frame)
  }

  lemma FrameIsFrame(body: Bytes)
    requires |body| < TWO_32
    ensures IsFrame(Frame(body)) && Bodies(Frame(body)) == [body] && Rest(Frame(body)) == []
  {
    FrameParses(body, []);
    assert Frame(body) + [] == Frame(body);
    assert Bodies([]) == [];
  }

  lemma {:induction false} FormatsSendNothing(b: Bytes, from: nat, n: nat)
    requires FormatsFit(b, from, n)
    ensures AllFramed(Formats(b, from, n))
    decreases n
  {
    if n > 0 {
      FormatsSendNothing(b, from + 8 + Get32(b, from + 4), n - 1);
    }
  }

  lemma ReplyFramed(d: Device, payload: Bytes)
    requires AllFramed(d.log) && |payload| < TWO_32
    ensures AllFramed(d.Reply(payload).log)
  {
    FrameIsFrame(payload);
  }

  lemma EmitFramed(d: Device, installed: bool, e: Effect)
    requires AllFramed(d.log) && !e.Sent?
    ensures AllFramed(d.Emit(installed, e).log)
  {
  }

  lemma ActSendsFrames(cfg: Config, d: Device, b: Bytes, kind: Kind)
    requires d.Valid() && Fits(b, kind) && AllFramed(d.log)
    ensures AllFramed(Act(cfg, d, b, kind).log)
  {
    match kind {
      case KeepAlive => ReplyFramed(d, CALV);
      case ClipboardData => FormatsSendNothing(b, 17, Get32(b, 13));
      case _ =>
    }
  }

  lemma HandleSendsFrames(cfg: Config, d: Device, b: Bytes, kind: Kind)
    requires cfg.Valid() && d.Valid() && Fits(b, kind) && AllFramed(d.log)
    ensures AllFramed(Handle(cfg, d, b, kind).log)
  {
    match kind {
      case Hello =>
        ReplyFramed(d, HelloBack(cfg));
        EmitFramed(d.Reply(HelloBack(cfg)).(connected := false), true, Slept(1000));
      case QueryInfo => ReplyFramed(d, Info(cfg));
      case Ignored =>
      case Unknown =>
      case _ =>
        ActSendsFrames(cfg, d, b, kind);
        ReplyFramed(Act(cfg, d, b, kind), CNOP);
    }
  }

  /** Whatever messages arrive, everything ever sent is a frame with the right prefix. */
  lemma {:induction false} AllRepliesFramed(cfg: Config, d: Device, bodies: seq<Bytes>)
    requires cfg.Valid() && d.Valid()
    requires forall b :: b in bodies ==> Readable(b)
    requires AllFramed(d.log)
    ensures AllFramed(ProcessAll(cfg, d, bodies).log)
    decreases |bodies|
  {
    if bodies != [] {
      assert bodies[0] in bodies;
      HandleSendsFrames(cfg, d, bodies[0], BodyKind(bodies[0]));
      ProcessKeepsValid(cfg, d, bodies[0]);
      AllRepliesFramed(cfg, Process(cfg, d, bodies[0]), bodies[1..]);
    }
  }

  /** The bytes that went to the server... */
  function Wire(log: seq<Effect>): Bytes {
    if log == [] then [] else (if log[0].Sent? then log[0].frame else []) + Wire(log[1..])
  }

  /** ...and the payloads of what was sent. */
  function Payloads(log: seq<Effect>): seq<Bytes>
    requires AllFramed(log)
  {
    if log == [] then [] else (if log[0].Sent? then [log[0].frame[4..]] else []) + Payloads(log[1..])
  }

  /** Read as the client itself would read them, the bytes are exactly the payloads, in order. */
  lemma {:induction false} WireParses(log: seq<Effect>)
    requires AllFramed(log)
    ensures Bodies(Wire(log)) == Payloads(log) && Rest(Wire(log)) == []
  {
    if log != [] {
      WireParses(log[1..]);
      var rest := Wire(log[1..]);
      if log[0].Sent? {
        var f := log[0].frame;
        assert log[0] in log && IsFrame(f);
        FrontOf(f, rest);
        assert f[|f|..] == [] && (f + rest)[4..|f|] == f[4..];
      } else {
        assert Wire(log) == rest;
      }
    }
  }

  // ---------- the clipboard round trip ----------

  const FORMAT_TEXT := 0

  /** Longer text does not fit the reply buffer of 1024 bytes behind the 29 bytes of header fields. */
  const TEXT_LIMIT := 995

  type Text = s: Bytes | |s| <= TEXT_LIMIT witness []

  /** The body that uSynergySendClipboard builds. */
  function ClipboardBody(sequenceNumber: int, text: Bytes): Bytes
    requires 0 <= sequenceNumber < TWO_32 && |text| + 12 < TWO_32
  {
    DCLP + [0] + Put32(sequenceNumber) + Put32(12 + |text|) + Put32(1) + Put32(FORMAT_TEXT) + Put32(|text|) + text
  }

  lemma ClipboardLayout(sequenceNumber: int, text: Bytes)
    requires 0 <= sequenceNumber < TWO_32 && |text| + 12 < TWO_32
    ensures var b := ClipboardBody(sequenceNumber, text);
      && |b| == 25 + |text| && b[..4] == DCLP
      && Get32(b, 13) == 1 && Get32(b, 17) == FORMAT_TEXT && Get32(b, 21) == |text| && b[25..] == text
  {
    var b := ClipboardBody(sequenceNumber, text);
    GetPut32(1, []);
    GetPut32(FORMAT_TEXT, []);
    GetPut32(|text|, []);
    var head := DCLP + [0] + Put32(sequenceNumber) + Put32(12 + |text|);
    Get32At(head, 1, Put32(FORMAT_TEXT) + Put32(|text|) + text);
    Get32At(head + Put32(1), FORMAT_TEXT, Put32(|text|) + text);
    Get32At(head + Put32(1) + Put32(FORMAT_TEXT), |text|, text);
    assert b == head + Put32(1) + (Put32(FORMAT_TEXT) + Put32(|text|) + text);
    assert b == (head + Put32(1)) + Put32(FORMAT_TEXT) + (Put32(|text|) + text);
  }

  /** What the server reads before the format: the clipboard, the number of the last enter message and the
      length of the rest. */
  lemma ClipboardHeader(sequenceNumber: int, text: Bytes)
    requires 0 <= sequenceNumber < TWO_32 && |text| + 12 < TWO_32
    ensures var b := ClipboardBody(sequenceNumber, text);
      |b| == 25 + |text| && b[4] == 0 && Get32(b, 5) == sequenceNumber && Get32(b, 9) == |b| - 13
  {
    var b := ClipboardBody(sequenceNumber, text);
    var rest := Put32(1) + Put32(FORMAT_TEXT) + Put32(|text|) + text;
    Get32At(DCLP + [0], sequenceNumber, Put32(12 + |text|) + rest);
    Get32At(DCLP + [0] + Put32(sequenceNumber), 12 + |text|, rest);
    assert b == (DCLP + [0]) + Put32(sequenceNumber) + (Put32(12 + |text|) + rest);
    assert b == (DCLP + [0] + Put32(sequenceNumber)) + Put32(12 + |text|) + rest;
  }

  lemma Get32At(head: Bytes, v: int, tail: Bytes)
    requires 0 <= v < TWO_32
    ensures Get32(head + Put32(v) + tail, |head|) == v
  {
    GetPut32(v, tail);
    var s := head + Put32(v) + tail;
    assert s[|head|..] == Put32(v) + tail;
    assert Get32(s, |head|) == Get32(s[|head|..], 0);
  }

  /** A clipboard frame, parsed by the DCLP handler, is read as one frame and gives exactly one
      callback, with exactly the text, whatever the sequence number. */
  lemma ClipboardRoundTrip(cfg: Config, d: Device, sequenceNumber: int, text: Bytes)
    requires cfg.Valid() && d.Valid() && cfg.clipboardCallback
    requires 0 <= sequenceNumber < TWO_32 && |text| + 25 < TWO_32
    ensures var b := ClipboardBody(sequenceNumber, text);
      && Bodies(Frame(b)) == [b] && Rest(Frame(b)) == []
      && Readable(b)
      && Process(cfg, d, b).log == d.log + [Clipboard(FORMAT_TEXT, text)] + [Sent(Frame(CNOP))]
  {
    var b := ClipboardBody(sequenceNumber, text);
    ClipboardLayout(sequenceNumber, text);
    FrameIsFrame(b);
    assert b[0] == 68;
    ClipboardFormats(b, text);
    assert KindOf(DCLP) == ClipboardData;
  }

  lemma ClipboardFormats(b: Bytes, text: Bytes)
    requires |b| == 25 + |text| && Get32(b, 17) == FORMAT_TEXT && Get32(b, 21) == |text| && b[25..] == text
    ensures FormatsFit(b, 17, 1) && Formats(b, 17, 1) == [Clipboard(FORMAT_TEXT, text)]
  {
    assert FormatsFit(b, 25 + |text|, 0);
    assert b[25..25 + |text|] == text;
    assert Formats(b, 25 + |text|, 0) == [];
  }
}
