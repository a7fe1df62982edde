/** The embedded client's context (uSynergyContext) with its two fixed buffers: reassembly of frames
    in the receive buffer, whose tail holds stale bytes, and building of replies in the other. */
module EmbeddedClient {
  import opened Octets
  import opened Framing
  import opened Messages
  import opened Receiving

  const RECEIVE_BUFFER_SIZE := 4096
  const REPLY_BUFFER_SIZE := 1024

  /** A longer name does not fit the trace line that reports the connection. */
  const NAME_LIMIT := 234

  class EmbeddedClient {
    const cfg: Config

    var connected: bool
    var hasReceivedHello: bool
    var isCaptured: bool
    var lastMessageTime: int
    var sequenceNumber: int
    const receiveBuffer: array<UInt8>
    var receiveOfs: int
    const replyBuffer: array<UInt8>
    var replyCur: int                   // offset of m_replyCur in the reply buffer
    var mouseX: int
    var mouseY: int
    var mouseWheelX: int
    var mouseWheelY: int
    var mouseButtonLeft: bool
    var mouseButtonRight: bool
    var mouseButtonMiddle: bool
    var joystickSticks: seq<Bytes>
    var joystickButtons: seq<int>
    var sends: nat                      // calls of the send function so far
    var log: seq<Effect>                // what the callbacks and the send function were given

    function Dev(): Device
      reads this
    {
      Device(connected, hasReceivedHello, isCaptured, sequenceNumber, mouseX, mouseY, mouseWheelX, mouseWheelY,
             mouseButtonLeft, mouseButtonRight, mouseButtonMiddle, joystickSticks, joystickButtons, sends, log)
    }

    ghost predicate Sized()
      reads this
    {
      && receiveBuffer.Length == RECEIVE_BUFFER_SIZE && replyBuffer.Length == REPLY_BUFFER_SIZE
      && receiveBuffer != replyBuffer
      && cfg.Valid() && |cfg.name| <= NAME_LIMIT
      && Dev().Valid()
    }

    /** uSynergyInit, with the configuration filled in. */
    constructor (cfg: Config)
      requires cfg.Valid() && |cfg.name| <= NAME_LIMIT
      ensures Ready() && Pending() == [] && this.cfg == cfg && lastMessageTime == 0
      ensures fresh(receiveBuffer) && fresh(replyBuffer)
      ensures !connected && !hasReceivedHello && !isCaptured && sequenceNumber == 0 && log == [] && sends == 0
    {
      this.cfg := cfg;
      connected, hasReceivedHello, isCaptured := false, false, false;
      lastMessageTime, sequenceNumber := 0, 0;
      receiveBuffer := new UInt8[RECEIVE_BUFFER_SIZE](_ => 0);
      replyBuffer := new UInt8[REPLY_BUFFER_SIZE](_ => 0);
      receiveOfs, replyCur := 0, 4;
      mouseX, mouseY, mouseWheelX, mouseWheelY := 0, 0, 0, 0;
      mouseButtonLeft, mouseButtonRight, mouseButtonMiddle := false, false, false;
      joystickSticks := [[0, 0, 0, 0], [0, 0, 0, 0], [0, 0, 0, 0], [0, 0, 0, 0]];
      joystickButtons := [0, 0, 0, 0];
      sends, log := 0, [];
    }

    // ---------- replies ----------

    /** The reply body written so far. */
    ghost function Payload(): Bytes
      requires replyBuffer.Length == REPLY_BUFFER_SIZE && 4 <= replyCur <= REPLY_BUFFER_SIZE
      reads this`replyCur, replyBuffer
    {
      replyBuffer[4..replyCur]
    }

    method AddString(s: Bytes)
      requires replyBuffer.Length == REPLY_BUFFER_SIZE && 4 <= replyCur && replyCur + |s| <= REPLY_BUFFER_SIZE
      modifies this`replyCur, replyBuffer
      ensures replyCur == old(replyCur) + |s| && Payload() == old(Payload()) + s
    {
      forall i | 0 <= i < |s| {
        replyBuffer[replyCur + i] := s[i];
      }
      replyCur := replyCur + |s|;
    }

    method AddUInt8(value: UInt8)
      requires replyBuffer.Length == REPLY_BUFFER_SIZE && 4 <= replyCur && replyCur + 1 <= REPLY_BUFFER_SIZE
      modifies this`replyCur, replyBuffer
      ensures replyCur == old(replyCur) + 1 && Payload() == old(Payload()) + [value]
    {
      replyBuffer[replyCur] := value;
      replyCur := replyCur + 1;
    }

    method AddUInt16(value: int)
      requires 0 <= value < TWO_16
      requires replyBuffer.Length == REPLY_BUFFER_SIZE && 4 <= replyCur && replyCur + 2 <= REPLY_BUFFER_SIZE
      modifies this`replyCur, replyBuffer
      ensures replyCur == old(replyCur) + 2 && Payload() == old(Payload()) + Put16(value)
    {
      replyBuffer[replyCur] := value / 0x100;
      replyBuffer[replyCur + 1] := value % 0x100;
      replyCur := replyCur + 2;
    }

    method AddUInt32(value: int)
      requires 0 <= value < TWO_32
      requires replyBuffer.Length == REPLY_BUFFER_SIZE && 4 <= replyCur && replyCur + 4 <= REPLY_BUFFER_SIZE
      modifies this`replyCur, replyBuffer
      ensures replyCur == old(replyCur) + 4 && Payload() == old(Payload()) + Put32(value)
    {
      replyBuffer[replyCur] := value / 0x100_0000;
      replyBuffer[replyCur + 1] := value / 0x1_0000 % 0x100;
      replyBuffer[replyCur + 2] := value / 0x100 % 0x100;
      replyBuffer[replyCur + 3] := value % 0x100;
      replyCur := replyCur + 4;
    }

    method SendReply() returns (ret: bool)
      requires replyBuffer.Length == REPLY_BUFFER_SIZE && 4 <= replyCur <= REPLY_BUFFER_SIZE
      modifies this`replyCur, this`sends, this`log, replyBuffer
      ensures replyCur == 4
      ensures ret == cfg.sendOk(old(sends)) && sends == old(sends) + 1
      ensures log == old(log) + [Sent(Frame(old(Payload())))]
    {
      var replyLen := replyCur;
      var bodyLen := replyLen - 4;
      ghost var body := Payload();
      replyBuffer[0] := bodyLen / 0x100_0000;
      replyBuffer[1] := bodyLen / 0x1_0000 % 0x100;
      replyBuffer[2] := bodyLen / 0x100 % 0x100;
      replyBuffer[3] := bodyLen % 0x100;
      assert replyBuffer[..replyLen] == replyBuffer[..4] + replyBuffer[4..replyLen];
      assert replyBuffer[..4] == Put32(|body|);
      assert replyBuffer[4..replyLen] == body;
      log := log + [Sent(replyBuffer[..replyLen])];
      ret := cfg.sendOk(sends);
      sends := sends + 1;
      replyCur := 4;
    }

    // ---------- messages ----------

    /** The message at the front of the receive buffer has this body. */
    ghost predicate InFront(b: Bytes)
      requires receiveBuffer.Length == RECEIVE_BUFFER_SIZE
      reads receiveBuffer
    {
      4 + |b| <= RECEIVE_BUFFER_SIZE && receiveBuffer[4..4 + |b|] == b
    }

    function Net16(i: nat): (v: int)
      requires receiveBuffer.Length == RECEIVE_BUFFER_SIZE && i + 2 <= RECEIVE_BUFFER_SIZE
      reads receiveBuffer
      ensures v == Get16(receiveBuffer[..], i)
    {
      (receiveBuffer[i] as int) * 0x100 + receiveBuffer[i + 1] as int
    }

    function Net32(i: nat): (v: int)
      requires receiveBuffer.Length == RECEIVE_BUFFER_SIZE && i + 4 <= RECEIVE_BUFFER_SIZE
      reads receiveBuffer
      ensures v == Get32(receiveBuffer[..], i)
    {
      (receiveBuffer[i] as int) * 0x100_0000 + (receiveBuffer[i + 1] as int) * 0x1_0000
      + (receiveBuffer[i + 2] as int) * 0x100 + receiveBuffer[i + 3] as int
    }

    /** Reading the message is reading its body, four bytes on. */
    lemma ReadBody(b: Bytes, i: nat)
      requires receiveBuffer.Length == RECEIVE_BUFFER_SIZE && InFront(b)
      ensures i < |b| ==> receiveBuffer[4 + i] == b[i]
      ensures i + 2 <= |b| ==> Net16(4 + i) == Get16(b, i)
      ensures i + 4 <= |b| ==> Net32(4 + i) == Get32(b, i)
      ensures i <= |b| ==> receiveBuffer[4 + i..4 + |b|] == b[i..]
    {
      forall k: nat | k < |b| ensures receiveBuffer[4 + k] == b[k] {
        assert receiveBuffer[4..4 + |b|][k] == b[k];
      }
    }

    method BuildHello()
      requires replyBuffer.Length == REPLY_BUFFER_SIZE && replyCur == 4 && cfg.Valid() && |cfg.name| <= NAME_LIMIT
      modifies this`replyCur, replyBuffer
      ensures 4 <= replyCur <= REPLY_BUFFER_SIZE && Payload() == HelloBack(cfg)
    {
      AddString(SYNERGY);
      assert Payload() == SYNERGY;
      AddUInt16(PROTOCOL_MAJOR);
      AddUInt16(PROTOCOL_MINOR);
      AddUInt32(|cfg.name|);
      AddString(cfg.name);
    }

    method ReplyHello()
      requires Sized() && replyCur == 4
      modifies this`replyCur, this`sends, this`log, this`connected, this`hasReceivedHello, replyBuffer
      ensures replyCur == 4 && Dev() == Handle(cfg, old(Dev()), SYNERGY, Hello)
    {
      BuildHello();
      var ok := SendReply();
      if !ok {
        connected := false;
        log := log + [Slept(1000)];
      } else {
        hasReceivedHello := true;
      }
    }

    method BuildInfo()
      requires replyBuffer.Length == REPLY_BUFFER_SIZE && replyCur == 4 && cfg.Valid()
      modifies this`replyCur, replyBuffer
      ensures 4 <= replyCur <= REPLY_BUFFER_SIZE && Payload() == Info(cfg)
    {
      AddString(DINF);
      assert Payload() == DINF;
      AddUInt16(0);
      AddUInt16(0);
      AddUInt16(cfg.width);
      AddUInt16(cfg.height);
      AddUInt16(0);
      AddUInt16(0);
      AddUInt16(0);
    }

    method ReplyInfo()
      requires Sized() && replyCur == 4
      modifies this`replyCur, this`sends, this`log, replyBuffer
      ensures replyCur == 4 && Dev() == old(Dev()).Reply(Info(cfg))
    {
      BuildInfo();
      var _ := SendReply();
    }

    method ReplyId(id: Bytes)
      requires replyBuffer.Length == REPLY_BUFFER_SIZE && replyCur == 4 && |id| == 4
      modifies this`replyCur, this`sends, this`log, replyBuffer
      ensures replyCur == 4 && Dev() == old(Dev()).Reply(id)
    {
      AddString(id);
      assert Payload() == id;
      var _ := SendReply();
    }

    method SendMouseCallback()
      modifies this`log
      ensures Dev() == old(Dev()).Emit(cfg.mouseCallback, MouseEffect(old(Dev())))
    {
      if !cfg.mouseCallback {
        return;
      }
      log := log + [Mouse(mouseX, mouseY, mouseWheelX, mouseWheelY, mouseButtonLeft, mouseButtonRight, mouseButtonMiddle)];
    }

    method SendKeyboardCallback(key: int, modifiers: int, down: bool, isRepeat: bool)
      modifies this`log
      ensures Dev() == old(Dev()).Emit(cfg.keyboardCallback, Key(key, modifiers, down, isRepeat))
    {
      if !cfg.keyboardCallback {
        return;
      }
      log := log + [Key(key, modifiers, down, isRepeat)];
    }

    method SendJoystickCallback(number: nat)
      requires number < |joystickButtons| == |joystickSticks|
      modifies this`log
      ensures Dev() == old(Dev()).Emit(cfg.joystickCallback, Joystick(number, joystickButtons[number], joystickSticks[number]))
    {
      if !cfg.joystickCallback {
        return;
      }
      log := log + [Joystick(number, joystickButtons[number], joystickSticks[number])];
    }

    method HandleScreen(ghost b: Bytes, kind: Kind)
      requires Sized() && InFront(b) && Fits(b, kind) && (kind.Enter? || kind.Leave?)
      modifies this`sequenceNumber, this`isCaptured, this`log
      ensures Sized() && Dev() == Act(cfg, old(Dev()), b, kind)
    {
      if kind.Enter? {
        ReadBody(b, 8);
        sequenceNumber := Net32(12);
      }
      isCaptured := kind.Enter?;
      if cfg.screenCallback {
        log := log + [ScreenActive(kind.Enter?)];
      }
    }

    method HandleMouseButton(ghost b: Bytes, down: bool)
      requires Sized() && InFront(b) && Fits(b, MouseButton(down))
      modifies this`mouseButtonLeft, this`mouseButtonRight, this`mouseButtonMiddle, this`log
      ensures Dev() == Act(cfg, old(Dev()), b, MouseButton(down))
    {
      ReadBody(b, 4);
      var btn := receiveBuffer[8] as int - 1;
      if btn == 2 {
        mouseButtonRight := down;
      } else if btn == 1 {
        mouseButtonMiddle := down;
      } else {
        mouseButtonLeft := down;
      }
      SendMouseCallback();
    }

    method HandleMouseMove(ghost b: Bytes)
      requires Sized() && InFront(b) && Fits(b, MouseMove)
      modifies this`mouseX, this`mouseY, this`log
      ensures Dev() == Act(cfg, old(Dev()), b, MouseMove)
    {
      ReadBody(b, 4);
      ReadBody(b, 6);
      mouseX, mouseY := Net16(8), Net16(10);
      SendMouseCallback();
    }

    method HandleMouseWheel(ghost b: Bytes)
      requires Sized() && InFront(b) && Fits(b, MouseWheel)
      modifies this`mouseWheelX, this`mouseWheelY, this`log
      ensures Dev() == Act(cfg, old(Dev()), b, MouseWheel)
    {
      ReadBody(b, 4);
      ReadBody(b, 6);
      mouseWheelX, mouseWheelY := Wrapped16(mouseWheelX + Net16(8)), Wrapped16(mouseWheelY + Net16(10));
      SendMouseCallback();
    }

    method HandleKey(ghost b: Bytes, kind: Kind)
      requires Sized() && InFront(b) && Fits(b, kind) && (kind.KeyDown? || kind.KeyRepeat? || kind.KeyUp?)
      modifies this`log
      ensures Dev() == Act(cfg, old(Dev()), b, kind)
    {
      ReadBody(b, 6);
      ReadBody(b, 8);
      ReadBody(b, 10);
      var modifiers := Net16(10);
      match kind {
        case KeyDown => SendKeyboardCallback(Net16(12), modifiers, true, false);
        case KeyRepeat => SendKeyboardCallback(Net16(14), modifiers, true, true);
        case KeyUp => SendKeyboardCallback(Net16(12), modifiers, false, false);
      }
    }

    method HandleGameButtons(ghost b: Bytes)
      requires Sized() && InFront(b) && Fits(b, GameButtons)
      modifies this`joystickButtons, this`log
      ensures Dev() == Act(cfg, old(Dev()), b, GameButtons)
    {
      ReadBody(b, 4);
      ReadBody(b, 5);
      var number := receiveBuffer[8];
      if number < JOYSTICKS {
        joystickButtons := joystickButtons[number := Net16(9)];
        SendJoystickCallback(number);
      }
    }

    method HandleGameSticks(ghost b: Bytes)
      requires Sized() && InFront(b) && Fits(b, GameSticks)
      modifies this`joystickSticks, this`log
      ensures Dev() == Act(cfg, old(Dev()), b, GameSticks)
    {
      ReadBody(b, 4);
      DataInBody(b, 5, 4);
      var number := receiveBuffer[8];
      if number < JOYSTICKS {
        joystickSticks := joystickSticks[number := receiveBuffer[9..13]];
        SendJoystickCallback(number);
      }
    }

    method HandleClipboard(ghost b: Bytes)
      requires Sized() && InFront(b) && Fits(b, ClipboardData)
      modifies this`log
      ensures Dev() == Act(cfg, old(Dev()), b, ClipboardData)
    {
      ReadBody(b, 13);
      ReadFormats(b, 17, Net32(17), 21);
    }

    /** Reads the formats from offset `start` of the message, `from` of its body, on. */
    method ReadFormats(ghost b: Bytes, ghost from: nat, count: nat, start: nat)
      requires receiveBuffer.Length == RECEIVE_BUFFER_SIZE && InFront(b)
      requires start == from + 4 && FormatsFit(b, from, count)
      modifies this`log
      ensures log == if cfg.clipboardCallback then old(log) + Formats(b, from, count) else old(log)
    {
      var numFormats, parse := count, start;
      ghost var at, log0, all := from, log, Formats(b, from, count);
      ghost var read: seq<Effect> := [];
      assert read + all == all && log0 + [] == log0;
      while numFormats > 0
        invariant parse == at + 4 && Reading(b, at, numFormats, read, all)
        invariant log == log0 + Passed(read)
      {
        parse, at, read := ReadNext(b, at, parse, numFormats, read, all, log0);
        numFormats := numFormats - 1;
      }
      assert read + [] == read;
    }

    /** What the clipboard callback is given. */
    ghost function Passed(read: seq<Effect>): seq<Effect> {
      if cfg.clipboardCallback then read else []
    }

    /** The body of that loop. */
    method ReadNext(ghost b: Bytes, ghost at: nat, parse: nat, ghost n: nat, ghost read: seq<Effect>, ghost all: seq<Effect>,
                    ghost log0: seq<Effect>)
      returns (next: nat, ghost at': nat, ghost read': seq<Effect>)
      requires receiveBuffer.Length == RECEIVE_BUFFER_SIZE && InFront(b)
      requires n > 0 && parse == at + 4 && Reading(b, at, n, read, all) && log == log0 + Passed(read)
      modifies this`log
      ensures next == at' + 4 && Reading(b, at', n - 1, read', all) && log == log0 + Passed(read')
    {
      ghost var first;
      first, at' := FormatsStep(b, at, n, read, all);
      next := ReadFormat(b, at, parse, first);
      read' := read + [first];
      assert (log0 + read) + [first] == log0 + (read + [first]);
    }

    /** Reads one format and passes it on. */
    method ReadFormat(ghost b: Bytes, ghost from: nat, at: nat, ghost clip: Effect) returns (next: nat)
      requires receiveBuffer.Length == RECEIVE_BUFFER_SIZE && InFront(b)
      requires at == from + 4 && from + 8 <= |b| && from + 8 + Get32(b, from + 4) <= |b|
      requires clip == Clipboard(Get32(b, from), b[from + 8..from + 8 + Get32(b, from + 4)])
      modifies this`log
      ensures next == from + 8 + Get32(b, from + 4) + 4
      ensures log == if cfg.clipboardCallback then old(log) + [clip] else old(log)
    {
      FormatInBody(b, from);
      var format := Net32(at);
      var size := Net32(at + 4);
      next := at + 8;
      if cfg.clipboardCallback {
        log := log + [Clipboard(format, receiveBuffer[next..next + size])];
      }
      next := next + size;
    }

    lemma FormatInBody(b: Bytes, i: nat)
      requires receiveBuffer.Length == RECEIVE_BUFFER_SIZE && InFront(b)
      requires i + 8 <= |b| && i + 8 + Get32(b, i + 4) <= |b|
      ensures Net32(4 + i) == Get32(b, i) && Net32(8 + i) == Get32(b, i + 4)
      ensures receiveBuffer[12 + i..12 + i + Get32(b, i + 4)] == b[i + 8..i + 8 + Get32(b, i + 4)]
    {
      ReadBody(b, i);
      ReadBody(b, i + 4);
      DataInBody(b, i + 8, Get32(b, i + 4));
    }

    lemma DataInBody(b: Bytes, i: nat, size: nat)
      requires receiveBuffer.Length == RECEIVE_BUFFER_SIZE && InFront(b) && i + size <= |b|
      ensures receiveBuffer[4 + i..4 + i + size] == b[i..i + size]
    {
      ReadBody(b, i);
      assert receiveBuffer[4 + i..4 + i + size] == receiveBuffer[4 + i..4 + |b|][..size];
      assert b[i..i + size] == b[i..][..size];
    }

    /** The messages that are answered with a no-op. */
    method HandleActing(ghost b: Bytes, kind: Kind)
      requires Sized() && replyCur == 4 && InFront(b) && Fits(b, kind)
      requires !kind.Hello? && !kind.QueryInfo? && !kind.Ignored? && !kind.Unknown?
      modifies this, replyBuffer
      ensures receiveOfs == old(receiveOfs) && lastMessageTime == old(lastMessageTime) && replyCur == 4
      ensures Dev() == Act(cfg, old(Dev()), b, kind)
    {
      match kind {
        case Enter => HandleScreen(b, kind);
        case Leave => HandleScreen(b, kind);
        case MouseButton(down) => HandleMouseButton(b, down);
        case MouseMove => HandleMouseMove(b);
        case MouseWheel => HandleMouseWheel(b);
        case KeyDown => HandleKey(b, kind);
        case KeyRepeat => HandleKey(b, kind);
        case KeyUp => HandleKey(b, kind);
        case GameButtons => HandleGameButtons(b);
        case GameSticks => HandleGameSticks(b);
        case SetOptions =>
        case KeepAlive => ReplyId(CALV);
        case ClipboardData => HandleClipboard(b);
      }
    }

    /** The 7-byte comparison reads past a body of 4 to 6 bytes; a readable body cannot be taken for
        a hello by what happens to lie behind it. */
    lemma HelloTest(b: Bytes)
      requires receiveBuffer.Length == RECEIVE_BUFFER_SIZE && InFront(b) && Readable(b)
      ensures receiveBuffer[4..11] == SYNERGY <==> SYNERGY <= b
      ensures receiveBuffer[4..8] == b[..4]
    {
      ReadBody(b, 0);
      assert receiveBuffer[4..8] == receiveBuffer[4..4 + |b|][..4];
      assert receiveBuffer[4..11][..4] == receiveBuffer[4..8];
      if |b| >= 7 {
        assert receiveBuffer[4..11] == receiveBuffer[4..4 + |b|][..7] == b[..7];
        assert SYNERGY <= b <==> b[..7] == SYNERGY;
      }
    }

    /** sProcessMessage: the effect depends on the body of the message in front and on nothing behind it. */
    method ProcessMessage(ghost b: Bytes)
      requires Sized() && replyCur == 4 && InFront(b) && Readable(b)
      modifies this, replyBuffer
      ensures receiveOfs == old(receiveOfs) && lastMessageTime == old(lastMessageTime) && replyCur == 4
      ensures Dev() == Process(cfg, old(Dev()), b)
    {
      HelloTest(b);
      if receiveBuffer[4..11] == SYNERGY {
        ReplyHello();
      } else {
        HandleMessage(b, KindOf(receiveBuffer[4..8]));
      }
    }

    method HandleMessage(ghost b: Bytes, kind: Kind)
      requires Sized() && replyCur == 4 && InFront(b) && Fits(b, kind) && !kind.Hello?
      modifies this, replyBuffer
      ensures receiveOfs == old(receiveOfs) && lastMessageTime == old(lastMessageTime) && replyCur == 4
      ensures Dev() == Handle(cfg, old(Dev()), b, kind)
    {
      if kind == QueryInfo {
        ReplyInfo();
      } else if kind == Ignored {
      } else if kind == Unknown {
        ReadBody(b, 0);
        assert receiveBuffer[4..8] == receiveBuffer[4..4 + |b|][..4];
        log := log + [UnknownPacket(receiveBuffer[4..8])];
      } else {
        HandleActing(b, kind);
        ReplyId(CNOP);
      }
    }

    // ---------- receiving ----------

    /** The bytes received and not yet processed. */
    ghost function Pending(): Bytes
      requires receiveBuffer.Length == RECEIVE_BUFFER_SIZE && 0 <= receiveOfs <= RECEIVE_BUFFER_SIZE
      reads this`receiveOfs, receiveBuffer
    {
      receiveBuffer[..receiveOfs]
    }

    /** The header bytes, stale ones included, never announce a body too long for the buffer. */
    ghost predicate HeaderSmall()
      requires receiveBuffer.Length == RECEIVE_BUFFER_SIZE
      reads receiveBuffer
    {
      receiveBuffer[0] == 0 && receiveBuffer[1] == 0 && receiveBuffer[2] <= 0x0f
    }

    /** Between calls: nothing half-built, nothing complete left unprocessed, and room for at least
        one more byte. */
    ghost predicate Ready()
      reads this, receiveBuffer
    {
      && Sized() && replyCur == 4 && HeaderSmall()
      && 0 <= receiveOfs < RECEIVE_BUFFER_SIZE
      && !Complete(Pending()) && Legal(Pending(), Readable)
    }

    /** Processes the message in front and moves what follows it to the front. */
    method EatPacket(packlen: int, ghost b: Bytes, ghost rest: Bytes)
      requires Sized() && replyCur == 4 && HeaderSmall() && 4 <= packlen + 4 <= receiveOfs <= RECEIVE_BUFFER_SIZE
      requires InFront(b) && Readable(b) && Pending()[4 + packlen..] == rest && SmallHeader(rest)
      modifies this, receiveBuffer, replyBuffer
      ensures Sized() && replyCur == 4 && HeaderSmall() && lastMessageTime == old(lastMessageTime)
      ensures receiveOfs == old(receiveOfs) - packlen - 4 && Pending() == rest
      ensures Dev() == Process(cfg, old(Dev()), b)
    {
      ProcessKeepsValid(cfg, Dev(), b);
      ProcessMessage(b);
      MoveToFront(packlen + 4);
    }

    lemma MessageInFront(packlen: int)
      requires receiveBuffer.Length == RECEIVE_BUFFER_SIZE && 0 <= receiveOfs <= RECEIVE_BUFFER_SIZE
      requires Legal(Pending(), Readable) && Complete(Pending()) && packlen == Get32(Pending(), 0)
      ensures 0 <= packlen && 4 + packlen <= receiveOfs
      ensures InFront(Pending()[4..4 + packlen]) && Readable(Pending()[4..4 + packlen])
      ensures SmallHeader(Pending()[4 + packlen..])
    {
      var b := Pending()[4..4 + packlen];
      assert |b| == packlen;
      forall i | 0 <= i < packlen
        ensures receiveBuffer[4..4 + packlen][i] == b[i]
      {
        assert Pending()[4 + i] == receiveBuffer[4 + i];
      }
      assert receiveBuffer[4..4 + packlen] == b;
    }

    method MoveToFront(n: int)
      requires receiveBuffer.Length == RECEIVE_BUFFER_SIZE && HeaderSmall() && 4 <= n <= receiveOfs <= RECEIVE_BUFFER_SIZE
      requires SmallHeader(Pending()[n..])
      modifies this`receiveOfs, receiveBuffer
      ensures receiveOfs == old(receiveOfs) - n && Pending() == old(Pending())[n..] && HeaderSmall()
    {
      var left := receiveOfs - n;
      assert forall i :: 0 <= i < left ==> Pending()[n..][i] == receiveBuffer[i + n];
      forall i | 0 <= i < left {
        receiveBuffer[i] := receiveBuffer[i + n];
      }
      receiveOfs := left;
    }

    /** One turn of the packet-eating loop. */
    method EatNext(packlen: int, ghost d0: Device, ghost s0: Bytes)
      requires Sized() && replyCur == 4 && HeaderSmall() && 0 <= receiveOfs <= RECEIVE_BUFFER_SIZE
      requires Eating(cfg, d0, s0, Dev(), Pending()) && Complete(Pending()) && packlen == Get32(Pending(), 0)
      modifies this, receiveBuffer, replyBuffer
      ensures Sized() && replyCur == 4 && HeaderSmall() && 0 <= receiveOfs <= RECEIVE_BUFFER_SIZE
      ensures receiveOfs < old(receiveOfs) && lastMessageTime == old(lastMessageTime)
      ensures Eating(cfg, d0, s0, Dev(), Pending())
    {
      ghost var d, s := Dev(), Pending();
      ghost var b, rest := EatOne(cfg, d0, s0, d, s);
      MessageInFront(packlen);
      EatPacket(packlen, b, rest);
    }

    /** The packet-eating loop; `packlen` is the length that stopped it. */
    method EatPackets() returns (packlen: int)
      requires Sized() && replyCur == 4 && HeaderSmall() && 0 <= receiveOfs <= RECEIVE_BUFFER_SIZE
      requires Legal(Pending(), Readable)
      modifies this, receiveBuffer, replyBuffer
      ensures Ready() && lastMessageTime == old(lastMessageTime)
      ensures 0 <= packlen <= RECEIVE_BUFFER_SIZE
      ensures Eaten(cfg, old(Dev()), old(Pending()), Dev(), Pending())
    {
      packlen := 0;
      ghost var s0, d0 := Pending(), Dev();
      EatNone(cfg, d0, s0);
      while true
        invariant Sized() && replyCur == 4 && HeaderSmall() && 0 <= receiveOfs <= RECEIVE_BUFFER_SIZE
        invariant lastMessageTime == old(lastMessageTime) && Eating(cfg, d0, s0, Dev(), Pending())
        decreases receiveOfs
      {
        packlen := Signed32(Net32(0));
        HeaderInFront();
        if packlen + 4 > receiveOfs {
          break;
        }
        EatNext(packlen, d0, s0);
      }
      EatDone(cfg, d0, s0, Dev(), Pending());
    }

    /** The length read from the first four bytes, complete or stale, stops the loop exactly when no
        complete message is in front, and is never too long for the buffer. */
    lemma HeaderInFront()
      requires receiveBuffer.Length == RECEIVE_BUFFER_SIZE && HeaderSmall() && 0 <= receiveOfs <= RECEIVE_BUFFER_SIZE
      requires Legal(Pending(), Readable)
      ensures var packlen := Signed32(Net32(0));
        && 0 <= packlen <= MAX_BODY + 3
        && (packlen + 4 <= receiveOfs <==> Complete(Pending()))
        && (Complete(Pending()) ==> packlen == Get32(Pending(), 0))
    {
      if receiveOfs >= 4 {
        assert Get32(Pending(), 0) == Net32(0);
      }
    }

    method SetDisconnected()
      modifies this`connected, this`hasReceivedHello, this`isCaptured, this`replyCur, this`sequenceNumber
      ensures !connected && !hasReceivedHello && !isCaptured && sequenceNumber == 0 && replyCur == 4
      ensures Dev() == Disconnected(old(Dev()))
    {
      connected := false;
      hasReceivedHello := false;
      isCaptured := false;
      replyCur := 4;
      sequenceNumber := 0;
    }

    /** The state between two calls, as Receiving sees it. */
    ghost function Current(): Link
      requires receiveBuffer.Length == RECEIVE_BUFFER_SIZE && 0 <= receiveOfs <= RECEIVE_BUFFER_SIZE
      reads this, receiveBuffer
    {
      Link(Dev(), Pending(), lastMessageTime)
    }

    /** sUpdateContext.  `ditched` tells whether the oversize branch was taken. */
    method UpdateContext(receipt: Turn) returns (ditched: bool)
      requires Ready() && 0 <= lastMessageTime < TWO_32 && (receipt.Failed? || receipt.Received?) && Continues(receipt)
      modifies this, receiveBuffer, replyBuffer
      ensures Ready() && 0 <= lastMessageTime < TWO_32 && !ditched
      ensures Legal(old(Pending()) + Data(receipt), Readable)
      ensures Current() == Updated(cfg, old(Current()), receipt)
    {
      ditched := false;
      match receipt {
        case Failed =>
          assert Pending() + [] == Pending();
          SetDisconnected();
          log := log + [Slept(1000)];
        case Received(data, now) =>
          TakeIn(data, now);
          var packlen := EatPackets();
          ditched := packlen > RECEIVE_BUFFER_SIZE;
      }
    }

    /** The data fits the room that was offered and continues an acceptable stream. */
    ghost predicate Continues(receipt: Turn)
      requires receiveBuffer.Length == RECEIVE_BUFFER_SIZE && 0 <= receiveOfs <= RECEIVE_BUFFER_SIZE
      reads this, receiveBuffer
    {
      receipt.Received? ==>
        && 0 <= receipt.now < TWO_32 && |receipt.data| <= RECEIVE_BUFFER_SIZE - receiveOfs
        && Legal(Pending() + receipt.data, Readable)
    }

    /** The part of sUpdateContext between a receive that did not fail and the packet loop. */
    method TakeIn(data: Bytes, now: int)
      requires Ready() && 0 <= lastMessageTime < TWO_32 && Continues(Received(data, now))
      modifies this, receiveBuffer
      ensures Sized() && replyCur == 4 && HeaderSmall() && 0 <= receiveOfs <= RECEIVE_BUFFER_SIZE
      ensures Pending() == old(Pending()) + data
      ensures Dev() == Noted(old(Dev()), |data|, now, old(lastMessageTime))
      ensures lastMessageTime == if old(hasReceivedHello) && |data| > 0 then now else old(lastMessageTime)
    {
      Receive(data);
      if |data| == 0 {
        log := log + [Slept(500)];
      }
      NoteTime(|data|, now);
    }

    /** The receive function writes behind the pending bytes. */
    method Receive(data: Bytes)
      requires Ready() && |data| <= RECEIVE_BUFFER_SIZE - receiveOfs && Legal(Pending() + data, Readable)
      modifies this`receiveOfs, receiveBuffer
      ensures receiveOfs == old(receiveOfs) + |data| && Pending() == old(Pending()) + data && HeaderSmall()
    {
      forall i | 0 <= i < |data| {
        receiveBuffer[receiveOfs + i] := data[i];
      }
      ghost var s := Pending();
      receiveOfs := receiveOfs + |data|;
      assert Pending() == s + data;
      assert forall i :: 0 <= i < 3 && i < receiveOfs ==> receiveBuffer[i] == (s + data)[i];
      assert forall i :: receiveOfs <= i < 3 ==> receiveBuffer[i] == old(receiveBuffer[i]);
    }

    method NoteTime(n: nat, now: int)
      requires 0 <= now < TWO_32 && 0 <= lastMessageTime < TWO_32 && replyCur == 4
      modifies this`connected, this`hasReceivedHello, this`isCaptured, this`replyCur, this`sequenceNumber, this`lastMessageTime
      ensures replyCur == 4 && lastMessageTime == if old(hasReceivedHello) && n > 0 then now else old(lastMessageTime)
      ensures connected == (old(connected) && !(old(hasReceivedHello) && n == 0 && (now - old(lastMessageTime)) % TWO_32 > 2000))
      ensures Dev() == if TimedOut(old(Dev()), n, now, old(lastMessageTime)) then Disconnected(old(Dev())) else old(Dev())
    {
      if hasReceivedHello {
        if n == 0 {
          if (now - lastMessageTime) % TWO_32 > IDLE_TIMEOUT {
            SetDisconnected();
          }
        } else {
          lastMessageTime := now;
        }
      }
    }

    /** uSynergyUpdate; `connectResult` is what the connect function returns if it is called. */
    method Update(connectResult: bool, receipt: Turn)
      requires Ready() && 0 <= lastMessageTime < TWO_32 && (connected ==> (receipt.Failed? || receipt.Received?) && Continues(receipt))
      modifies this, receiveBuffer, replyBuffer
      ensures Ready() && 0 <= lastMessageTime < TWO_32
      ensures var call := if old(connected) then receipt else Connects(connectResult);
        && Legal(old(Pending()) + Data(call), Readable)
        && Current() == Updated(cfg, old(Current()), call)
    {
      assert Pending() + [] == Pending();
      if connected {
        var _ := UpdateContext(receipt);
      } else if connectResult {
        connected := true;
      }
    }

    method BuildClipboard(text: Bytes)
      requires replyBuffer.Length == REPLY_BUFFER_SIZE && replyCur == 4 && |text| <= TEXT_LIMIT
      requires 0 <= sequenceNumber < TWO_32
      modifies this`replyCur, replyBuffer
      ensures 4 <= replyCur <= REPLY_BUFFER_SIZE && Payload() == ClipboardBody(sequenceNumber, text)
    {
      BuildClipboardStart(|text|);
      BuildClipboardFormat(text);
    }

    method BuildClipboardStart(length: nat)
      requires replyBuffer.Length == REPLY_BUFFER_SIZE && replyCur == 4 && length <= TEXT_LIMIT
      requires 0 <= sequenceNumber < TWO_32
      modifies this`replyCur, replyBuffer
      ensures replyCur == 17 && Payload() == DCLP + [0] + Put32(sequenceNumber) + Put32(12 + length)
    {
      AddString(DCLP);
      assert Payload() == DCLP;
      AddUInt8(0);
      AddUInt32(sequenceNumber);
      AddUInt32(4 + 4 + 4 + length);
    }

    method BuildClipboardFormat(text: Bytes)
      requires replyBuffer.Length == REPLY_BUFFER_SIZE && replyCur == 17 && |text| <= TEXT_LIMIT
      modifies this`replyCur, replyBuffer
      ensures 4 <= replyCur <= REPLY_BUFFER_SIZE
      ensures Payload() == old(Payload()) + Put32(1) + Put32(FORMAT_TEXT) + Put32(|text|) + text
    {
      AddUInt32(1);
      AddUInt32(FORMAT_TEXT);
      AddUInt32(|text|);
      AddString(text);
    }

    /** uSynergySendClipboard, for text that fits. */
    method SendClipboard(text: Bytes)
      requires Ready() && |text| <= TEXT_LIMIT
      modifies this`replyCur, this`sends, this`log, replyBuffer
      ensures Ready() && log == old(log) + [Sent(Frame(ClipboardBody(sequenceNumber, text)))] && sequenceNumber == old(sequenceNumber)
      ensures Legal(old(Pending()) + Data(Sends(text)), Readable)
      ensures Current() == Updated(cfg, old(Current()), Sends(text))
    {
      assert Pending() + [] == Pending();
      ghost var d := Dev();
      BuildClipboard(text);
      var _ := SendReply();
      assert Dev() == Said(d, text);
    }
  }

  /** Part of the stream s0 has been processed; `s` is still to be processed in state d. */
  ghost predicate Eating(cfg: Config, d0: Device, s0: Bytes, d: Device, s: Bytes) {
    && cfg.Valid() && d0.Valid() && d.Valid() && Legal(s0, Readable) && Legal(s, Readable)
    && Rest(s) == Rest(s0)
    && (forall b :: b in Bodies(s0) ==> Readable(b))
    && (forall b :: b in Bodies(s) ==> Readable(b))
    && ProcessAll(cfg, d, Bodies(s)) == ProcessAll(cfg, d0, Bodies(s0))
  }

  /** All of it has: exactly the complete frames, in order, and the incomplete rest is kept. */
  ghost predicate Eaten(cfg: Config, d0: Device, s0: Bytes, d: Device, s: Bytes) {
    && cfg.Valid() && d0.Valid() && (forall b :: b in Bodies(s0) ==> Readable(b))
    && s == Rest(s0) && d == ProcessAll(cfg, d0, Bodies(s0))
  }

  lemma EatNone(cfg: Config, d: Device, s: Bytes)
    requires cfg.Valid() && d.Valid() && Legal(s, Readable)
    ensures Eating(cfg, d, s, d, s)
  {
    LegalBodies(s, Readable);
  }

  lemma EatFirst(s: Bytes)
    requires Legal(s, Readable) && Complete(s)
    ensures var n := 4 + Get32(s, 0);
      && Readable(s[4..n]) && Legal(s[n..], Readable) && (forall c :: c in Bodies(s[n..]) ==> Readable(c))
      && Bodies(s) == [s[4..n]] + Bodies(s[n..]) && Rest(s) == Rest(s[n..])
  {
    LegalFirst(s, Readable);
    LegalBodies(s[4 + Get32(s, 0)..], Readable);
    ReadsFirst(s);
  }

  lemma EatNextBody(cfg: Config, d0: Device, s0: Bytes, d: Device, s: Bytes, b: Bytes, rest: Bytes)
    requires Eating(cfg, d0, s0, d, s) && Bodies(s) == [b] + Bodies(rest) && Rest(s) == Rest(rest)
    requires Readable(b) && Legal(rest, Readable) && forall c :: c in Bodies(rest) ==> Readable(c)
    ensures Eating(cfg, d0, s0, Process(cfg, d, b), rest)
  {
    ProcessFirst(cfg, d, b, Bodies(rest));
  }

  lemma EatOne(cfg: Config, d0: Device, s0: Bytes, d: Device, s: Bytes) returns (b: Bytes, rest: Bytes)
    requires Eating(cfg, d0, s0, d, s) && Complete(s)
    ensures b == s[4..4 + Get32(s, 0)] && rest == s[4 + Get32(s, 0)..]
    ensures cfg.Valid() && d.Valid() && Readable(b) && Legal(rest, Readable)
    ensures Eating(cfg, d0, s0, Process(cfg, d, b), rest)
  {
    var n := 4 + Get32(s, 0);
    b, rest := s[4..n], s[n..];
    EatFirst(s);
    EatNextBody(cfg, d0, s0, d, s, b, rest);
  }

  lemma EatDone(cfg: Config, d0: Device, s0: Bytes, d: Device, s: Bytes)
    requires Eating(cfg, d0, s0, d, s) && !Complete(s)
    ensures Eaten(cfg, d0, s0, d, s) && |s| < RECEIVE_BUFFER_SIZE
  {
    LegalBodies(s, Readable);
  }
}
