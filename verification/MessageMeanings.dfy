/** What the server's messages mean to the embedded client, read off the bytes of their bodies. */
module MessageMeanings {
  import opened Octets
  import opened Framing
  import opened Messages

  // ---------- names ----------

  function Name(a: char, b: char, c: char, d: char): seq<int> { [a as int, b as int, c as int, d as int] }

  lemma NamesOfInput()
    ensures DMDN == Name('D', 'M', 'D', 'N') && DMUP == Name('D', 'M', 'U', 'P')
    ensures DMMV == Name('D', 'M', 'M', 'V') && DMWM == Name('D', 'M', 'W', 'M')
    ensures DKDN == Name('D', 'K', 'D', 'N') && DKRP == Name('D', 'K', 'R', 'P') && DKUP == Name('D', 'K', 'U', 'P')
    ensures DGBT == Name('D', 'G', 'B', 'T') && DGST == Name('D', 'G', 'S', 'T')
  {
  }

  lemma NamesOfTheRest()
    ensures QINF == Name('Q', 'I', 'N', 'F') && DINF == Name('D', 'I', 'N', 'F')
    ensures CIAK == Name('C', 'I', 'A', 'K') && CROP == Name('C', 'R', 'O', 'P')
    ensures CINN == Name('C', 'I', 'N', 'N') && COUT == Name('C', 'O', 'U', 'T')
    ensures DSOP == Name('D', 'S', 'O', 'P') && CALV == Name('C', 'A', 'L', 'V') && CNOP == Name('C', 'N', 'O', 'P')
    ensures DCLP == Name('D', 'C', 'L', 'P')
    ensures SYNERGY == Name('S', 'y', 'n', 'e') + ['r' as int, 'g' as int, 'y' as int]
  {
  }

  predicate Is(b: Bytes, id: Bytes) { |b| >= 4 && b[..4] == id }

  lemma NotHello(b: Bytes)
    requires |b| >= 4
    ensures BodyKind(b) == if SYNERGY <= b then Hello else KindOf(b[..4])
    ensures SYNERGY <= b ==> b[..4] == [83, 121, 110, 101]
  {
    if SYNERGY <= b {
      assert b[..4] == SYNERGY[..4];
    }
  }

  lemma ButtonIds(id: Bytes)
    requires |id| == 4
    ensures (KindOf(id) == MouseButton(true) <==> id == DMDN) && (KindOf(id) == MouseButton(false) <==> id == DMUP)
  {
  }

  lemma MotionIds(id: Bytes)
    requires |id| == 4
    ensures (KindOf(id) == MouseMove <==> id == DMMV) && (KindOf(id) == MouseWheel <==> id == DMWM)
  {
  }

  lemma KeyIds(id: Bytes)
    requires |id| == 4
    ensures (KindOf(id) == KeyDown <==> id == DKDN) && (KindOf(id) == KeyRepeat <==> id == DKRP) && (KindOf(id) == KeyUp <==> id == DKUP)
  {
  }

  lemma ScreenIds(id: Bytes)
    requires |id| == 4
    ensures (KindOf(id) == Enter <==> id == CINN) && (KindOf(id) == Leave <==> id == COUT)
  {
  }

  lemma GameIds(id: Bytes)
    requires |id| == 4
    ensures (KindOf(id) == GameButtons <==> id == DGBT) && (KindOf(id) == GameSticks <==> id == DGST)
  {
  }

  lemma OtherIds(id: Bytes)
    requires |id| == 4
    ensures (KindOf(id) == QueryInfo <==> id == QINF) && (KindOf(id) == Ignored <==> id == CIAK || id == CROP) && !KindOf(id).Hello?
  {
  }

  lemma OptionIds(id: Bytes)
    requires |id| == 4
    ensures KindOf(id) == SetOptions <==> id == DSOP
  {
  }

  lemma AliveIds(id: Bytes)
    requires |id| == 4
    ensures KindOf(id) == KeepAlive <==> id == CALV
  {
  }

  lemma ClipboardIds(id: Bytes)
    requires |id| == 4
    ensures KindOf(id) == ClipboardData <==> id == DCLP
  {
  }

  /** The message is dispatched by its name. */
  lemma PointerNames(b: Bytes)
    requires |b| >= 4
    ensures BodyKind(b) == MouseButton(true) <==> Is(b, DMDN)
    ensures BodyKind(b) == MouseButton(false) <==> Is(b, DMUP)
    ensures BodyKind(b) == MouseMove <==> Is(b, DMMV)
    ensures BodyKind(b) == MouseWheel <==> Is(b, DMWM)
  {
    NotHello(b);
    ButtonIds(b[..4]);
    MotionIds(b[..4]);
  }

  lemma KeyNames(b: Bytes)
    requires |b| >= 4
    ensures BodyKind(b) == KeyDown <==> Is(b, DKDN)
    ensures BodyKind(b) == KeyRepeat <==> Is(b, DKRP)
    ensures BodyKind(b) == KeyUp <==> Is(b, DKUP)
  {
    NotHello(b);
    KeyIds(b[..4]);
  }

  lemma FocusNames(b: Bytes)
    requires |b| >= 4
    ensures BodyKind(b) == Enter <==> Is(b, CINN)
    ensures BodyKind(b) == Leave <==> Is(b, COUT)
    ensures BodyKind(b) == GameButtons <==> Is(b, DGBT)
    ensures BodyKind(b) == GameSticks <==> Is(b, DGST)
  {
    NotHello(b);
    ScreenIds(b[..4]);
    GameIds(b[..4]);
  }

  lemma OtherNames(b: Bytes)
    requires |b| >= 4
    ensures BodyKind(b) == Hello <==> SYNERGY <= b
    ensures BodyKind(b) == QueryInfo <==> Is(b, QINF)
    ensures BodyKind(b) == Ignored <==> Is(b, CIAK) || Is(b, CROP)
    ensures BodyKind(b) == SetOptions <==> Is(b, DSOP)
    ensures BodyKind(b) == KeepAlive <==> Is(b, CALV)
    ensures BodyKind(b) == ClipboardData <==> Is(b, DCLP)
  {
    NotHello(b);
    OtherIds(b[..4]);
    OptionIds(b[..4]);
    AliveIds(b[..4]);
    ClipboardIds(b[..4]);
  }

  function Word(b: Bytes, i: nat): int
    requires i + 2 <= |b|
  {
    b[i] as int * 0x100 + b[i + 1] as int
  }

  // ---------- series of messages, seen from the last one ----------

  lemma {:induction false} ProcessLast(cfg: Config, d: Device, bodies: seq<Bytes>)
    requires cfg.Valid() && d.Valid() && (forall b :: b in bodies ==> Readable(b)) && bodies != []
    ensures var before, last := bodies[..|bodies| - 1], bodies[|bodies| - 1];
      && (forall b :: b in before ==> Readable(b)) && ProcessAll(cfg, d, before).Valid()
      && ProcessAll(cfg, d, bodies) == Process(cfg, ProcessAll(cfg, d, before), last)
    decreases |bodies|
  {
    var before, last := bodies[..|bodies| - 1], bodies[|bodies| - 1];
    assert forall b :: b in before ==> b in bodies;
    ProcessKeepsValid(cfg, d, bodies[0]);
    var d1 := Process(cfg, d, bodies[0]);
    if |bodies| == 1 {
      assert bodies[1..] == [] && before == [];
      assert ProcessAll(cfg, d1, []) == d1;
    } else {
      assert bodies[1..][..|bodies| - 2] == before[1..] && before[0] == bodies[0];
      ProcessLast(cfg, d1, bodies[1..]);
    }
  }

  // ---------- the pointer ----------

  datatype Which = Left | Middle | Right

  /** Button 3 is the right one, 2 the middle one, any other the left one. */
  predicate Names(number: UInt8, which: Which) {
    match which
    case Right => number == 3
    case Middle => number == 2
    case Left => number != 3 && number != 2
  }

  predicate About(b: Bytes, which: Which) { (Is(b, DMDN) || Is(b, DMUP)) && |b| >= 5 && Names(b[4], which) }

  /** A button is down if and only if the last message about it said so. */
  function Down(before: bool, bodies: seq<Bytes>, which: Which): bool {
    if bodies == [] then before else
    var last := bodies[|bodies| - 1];
    if About(last, which) then Is(last, DMDN) else Down(before, bodies[..|bodies| - 1], which)
  }

  function Pressed(p: Pointer, which: Which): bool {
    match which case Left => p.left case Middle => p.middle case Right => p.right
  }

  /** The pointer is where the last motion message put it. */
  function Position(before: (int, int), bodies: seq<Bytes>): (int, int) {
    if bodies == [] then before else
    var last := bodies[|bodies| - 1];
    if Is(last, DMMV) && |last| >= 8 then (Word(last, 4), Word(last, 6)) else Position(before, bodies[..|bodies| - 1])
  }

  /** The wheel messages add up. */
  function Turned(bodies: seq<Bytes>): (int, int) {
    if bodies == [] then (0, 0) else
    var (x, y) := Turned(bodies[..|bodies| - 1]);
    var last := bodies[|bodies| - 1];
    if Is(last, DMWM) && |last| >= 8 then (x + Word(last, 4), y + Word(last, 6)) else (x, y)
  }

  /** 16 bits of a sum, as a signed number. */
  predicate Wraps(v: int, sum: int) { -0x8000 <= v < 0x8000 && (v - sum) % TWO_16 == 0 }

  /** The pointer's part of the state. */
  datatype Pointer = Pointer(x: int, y: int, wheelX: int, wheelY: int, left: bool, middle: bool, right: bool)

  function PointerOf(d: Device): Pointer { Pointer(d.mouseX, d.mouseY, d.wheelX, d.wheelY, d.left, d.middle, d.right) }

  lemma ActPointer(cfg: Config, d: Device, b: Bytes, kind: Kind)
    requires d.Valid() && Fits(b, kind)
    ensures var p, p' := PointerOf(d), PointerOf(Act(cfg, d, b, kind));
      match kind
      case MouseMove => p' == p.(x := Word(b, 4), y := Word(b, 6))
      case MouseWheel => p' == p.(wheelX := Wrapped16(p.wheelX + Word(b, 4)), wheelY := Wrapped16(p.wheelY + Word(b, 6)))
      case MouseButton(down) =>
        p' == if b[4] == 3 then p.(right := down) else if b[4] == 2 then p.(middle := down) else p.(left := down)
      case _ => p' == p
  {
  }

  lemma HandlePointer(cfg: Config, d: Device, b: Bytes, kind: Kind)
    requires cfg.Valid() && d.Valid() && Fits(b, kind)
    ensures PointerOf(Handle(cfg, d, b, kind)) == PointerOf(Act(cfg, d, b, kind))
  {
    match kind {
      case Hello =>
      case QueryInfo =>
      case Ignored =>
      case Unknown =>
      case _ =>
    }
  }

  /** What one message does to the pointer. */
  predicate Moves(p: Pointer, b: Bytes, p': Pointer, which: Which) {
    && (p'.x, p'.y) == (if Is(b, DMMV) && |b| >= 8 then (Word(b, 4), Word(b, 6)) else (p.x, p.y))
    && p'.wheelX == (if Is(b, DMWM) && |b| >= 8 then Wrapped16(p.wheelX + Word(b, 4)) else p.wheelX)
    && p'.wheelY == (if Is(b, DMWM) && |b| >= 8 then Wrapped16(p.wheelY + Word(b, 6)) else p.wheelY)
    && Pressed(p', which) == if About(b, which) then Is(b, DMDN) else Pressed(p, which)
  }

  lemma PointerByOne(cfg: Config, d: Device, b: Bytes, which: Which)
    requires cfg.Valid() && d.Valid() && Readable(b)
    ensures Moves(PointerOf(d), b, PointerOf(Process(cfg, d, b)), which)
  {
    var kind := BodyKind(b);
    PointerNames(b);
    HandlePointer(cfg, d, b, kind);
    ActPointer(cfg, d, b, kind);
    MovesByKind(PointerOf(d), b, PointerOf(Handle(cfg, d, b, kind)), kind, which);
  }

  lemma MovesByKind(p: Pointer, b: Bytes, p': Pointer, kind: Kind, which: Which)
    requires kind == MouseButton(true) <==> Is(b, DMDN)
    requires kind == MouseButton(false) <==> Is(b, DMUP)
    requires (kind == MouseMove <==> Is(b, DMMV)) && (kind == MouseWheel <==> Is(b, DMWM)) && Fits(b, kind)
    requires match kind
      case MouseMove => p' == p.(x := Word(b, 4), y := Word(b, 6))
      case MouseWheel => p' == p.(wheelX := Wrapped16(p.wheelX + Word(b, 4)), wheelY := Wrapped16(p.wheelY + Word(b, 6)))
      case MouseButton(down) =>
        p' == if b[4] == 3 then p.(right := down) else if b[4] == 2 then p.(middle := down) else p.(left := down)
      case _ => p' == p
    ensures Moves(p, b, p', which)
  {
  }

  predicate Tells(p: Pointer, bodies: seq<Bytes>, p': Pointer, which: Which) {
    && Pressed(p', which) == Down(Pressed(p, which), bodies, which)
    && (p'.x, p'.y) == Position((p.x, p.y), bodies)
    && Wraps(p'.wheelX, p.wheelX + Turned(bodies).0) && Wraps(p'.wheelY, p.wheelY + Turned(bodies).1)
  }

  lemma TellsOn(p: Pointer, bodies: seq<Bytes>, q: Pointer, q': Pointer, which: Which)
    requires bodies != [] && Tells(p, bodies[..|bodies| - 1], q, which) && Moves(q, bodies[|bodies| - 1], q', which)
    ensures Tells(p, bodies, q', which)
  {
    var before, last := bodies[..|bodies| - 1], bodies[|bodies| - 1];
    if Is(last, DMWM) && |last| >= 8 {
      WrapsOn(q.wheelX, p.wheelX + Turned(before).0, Word(last, 4));
      WrapsOn(q.wheelY, p.wheelY + Turned(before).1, Word(last, 6));
    }
  }

  /** After any messages, each button is as the last message about it said, the pointer is where the last
      motion put it, and the wheel is where all its turns, added up in 16 bits, put it. */
  lemma {:induction false} PointerTold(cfg: Config, d: Device, bodies: seq<Bytes>, which: Which)
    requires cfg.Valid() && d.Valid() && forall b :: b in bodies ==> Readable(b)
    requires Wraps(d.wheelX, d.wheelX) && Wraps(d.wheelY, d.wheelY)
    ensures Tells(PointerOf(d), bodies, PointerOf(ProcessAll(cfg, d, bodies)), which)
  {
    if bodies != [] {
      var before := bodies[..|bodies| - 1];
      ProcessLast(cfg, d, bodies);
      PointerTold(cfg, d, before, which);
      PointerByOne(cfg, ProcessAll(cfg, d, before), bodies[|bodies| - 1], which);
      TellsOn(PointerOf(d), bodies, PointerOf(ProcessAll(cfg, d, before)), PointerOf(ProcessAll(cfg, d, bodies)), which);
    }
  }

  lemma WrapsOn(v: int, sum: int, more: int)
    requires Wraps(v, sum)
    ensures Wraps(Wrapped16(v + more), sum + more)
  {
  }

  // ---------- focus and joysticks ----------

  /** The screen has the input from an enter message to the next leave message. */
  function Inside(before: bool, bodies: seq<Bytes>): bool {
    if bodies == [] then before else
    var last := bodies[|bodies| - 1];
    if Is(last, CINN) then true else if Is(last, COUT) then false else Inside(before, bodies[..|bodies| - 1])
  }

  /** The number that the last enter message carried. */
  function Sequence(before: int, bodies: seq<Bytes>): int {
    if bodies == [] then before else
    var last := bodies[|bodies| - 1];
    if Is(last, CINN) && |last| >= 12 then Word(last, 8) * 0x1_0000 + Word(last, 10) else Sequence(before, bodies[..|bodies| - 1])
  }

  function ButtonsOf(before: int, bodies: seq<Bytes>, number: nat): int {
    if bodies == [] then before else
    var last := bodies[|bodies| - 1];
    if Is(last, DGBT) && |last| >= 7 && last[4] as int == number then Word(last, 5)
    else ButtonsOf(before, bodies[..|bodies| - 1], number)
  }

  function SticksOf(before: Bytes, bodies: seq<Bytes>, number: nat): Bytes {
    if bodies == [] then before else
    var last := bodies[|bodies| - 1];
    if Is(last, DGST) && |last| >= 9 && last[4] as int == number then last[5..9]
    else SticksOf(before, bodies[..|bodies| - 1], number)
  }

  /** Focus and joysticks in the state. */
  datatype Focus = Focus(inside: bool, number: int, buttons: seq<int>, sticks: seq<Bytes>) {
    predicate Valid() { |sticks| == |buttons| == JOYSTICKS }
  }

  function FocusOf(d: Device): Focus { Focus(d.isCaptured, d.sequenceNumber, d.buttons, d.sticks) }

  lemma ActFocus(cfg: Config, d: Device, b: Bytes, kind: Kind)
    requires d.Valid() && Fits(b, kind)
    ensures var f, f' := FocusOf(d), FocusOf(Act(cfg, d, b, kind));
      match kind
      case Enter => f' == f.(inside := true, number := Word(b, 8) * 0x1_0000 + Word(b, 10))
      case Leave => f' == f.(inside := false)
      case GameButtons => f' == if b[4] < 4 then f.(buttons := f.buttons[b[4] := Word(b, 5)]) else f
      case GameSticks => f' == if b[4] < 4 then f.(sticks := f.sticks[b[4] := b[5..9]]) else f
      case _ => f' == f
  {
  }

  lemma HandleFocus(cfg: Config, d: Device, b: Bytes, kind: Kind)
    requires cfg.Valid() && d.Valid() && Fits(b, kind)
    ensures FocusOf(Handle(cfg, d, b, kind)) == FocusOf(Act(cfg, d, b, kind))
  {
    match kind {
      case Hello =>
      case QueryInfo =>
      case Ignored =>
      case Unknown =>
      case _ =>
    }
  }

  predicate FocusTells(f: Focus, bodies: seq<Bytes>, f': Focus, number: nat)
    requires f.Valid() && f'.Valid() && number < JOYSTICKS
  {
    && f'.inside == Inside(f.inside, bodies) && f'.number == Sequence(f.number, bodies)
    && f'.buttons[number] == ButtonsOf(f.buttons[number], bodies, number)
    && f'.sticks[number] == SticksOf(f.sticks[number], bodies, number)
  }

  /** What one message does to them. */
  predicate Changes(f: Focus, b: Bytes, f': Focus, number: nat)
    requires f.Valid() && f'.Valid() && number < JOYSTICKS
  {
    && f'.inside == (if Is(b, CINN) then true else if Is(b, COUT) then false else f.inside)
    && f'.number == (if Is(b, CINN) && |b| >= 12 then Word(b, 8) * 0x1_0000 + Word(b, 10) else f.number)
    && f'.buttons[number] == (if Is(b, DGBT) && |b| >= 7 && b[4] as int == number then Word(b, 5) else f.buttons[number])
    && f'.sticks[number] == (if Is(b, DGST) && |b| >= 9 && b[4] as int == number then b[5..9] else f.sticks[number])
  }

  lemma FocusByOne(cfg: Config, d: Device, b: Bytes, number: nat)
    requires cfg.Valid() && d.Valid() && Readable(b) && number < JOYSTICKS
    ensures Process(cfg, d, b).Valid() && Changes(FocusOf(d), b, FocusOf(Process(cfg, d, b)), number)
  {
    var kind := BodyKind(b);
    HandleKeepsValid(cfg, d, b, kind);
    FocusNames(b);
    HandleFocus(cfg, d, b, kind);
    ActFocus(cfg, d, b, kind);
    ChangesByKind(FocusOf(d), b, FocusOf(Handle(cfg, d, b, kind)), kind, number);
  }

  lemma ChangesByKind(f: Focus, b: Bytes, f': Focus, kind: Kind, number: nat)
    requires f.Valid() && f'.Valid() && number < JOYSTICKS && Fits(b, kind)
    requires (kind == Enter <==> Is(b, CINN)) && (kind == Leave <==> Is(b, COUT))
    requires (kind == GameButtons <==> Is(b, DGBT)) && (kind == GameSticks <==> Is(b, DGST))
    requires match kind
      case Enter => f' == f.(inside := true, number := Word(b, 8) * 0x1_0000 + Word(b, 10))
      case Leave => f' == f.(inside := false)
      case GameButtons => f' == if b[4] < 4 then f.(buttons := f.buttons[b[4] := Word(b, 5)]) else f
      case GameSticks => f' == if b[4] < 4 then f.(sticks := f.sticks[b[4] := b[5..9]]) else f
      case _ => f' == f
    ensures Changes(f, b, f', number)
  {
  }

  /** After any messages the screen has the input if the last enter or leave message was an enter, with
      that message's number; and each joystick is as the last messages about it said. */
  lemma {:induction false} FocusTold(cfg: Config, d: Device, bodies: seq<Bytes>, number: nat)
    requires cfg.Valid() && d.Valid() && (forall b :: b in bodies ==> Readable(b)) && number < JOYSTICKS
    ensures ProcessAll(cfg, d, bodies).Valid()
    ensures FocusTells(FocusOf(d), bodies, FocusOf(ProcessAll(cfg, d, bodies)), number)
  {
    if bodies != [] {
      var before, last := bodies[..|bodies| - 1], bodies[|bodies| - 1];
      ProcessLast(cfg, d, bodies);
      FocusTold(cfg, d, before, number);
      FocusByOne(cfg, ProcessAll(cfg, d, before), last, number);
    }
  }

  // ---------- callbacks and answers ----------

  /** A frame with a four-byte payload. */
  function Short(id: Bytes): Bytes
    requires |id| == 4
  {
    [0, 0, 0, 4] + id
  }

  lemma ShortIs(id: Bytes)
    requires |id| == 4
    ensures Frame(id) == Short(id)
  {
  }

  /** These calls have been made and these frames sent since. */
  predicate Logged(d: Device, d': Device, effects: seq<Effect>) { d'.log == d.log + effects }

  function IfInstalled(installed: bool, e: Effect): seq<Effect> { if installed then [e] else [] }

  lemma ActedAndAnswered(cfg: Config, d: Device, b: Bytes, kind: Kind, call: seq<Effect>)
    requires cfg.Valid() && d.Valid() && Fits(b, kind)
    requires !kind.Hello? && !kind.QueryInfo? && !kind.Ignored? && !kind.Unknown?
    requires Logged(d, Act(cfg, d, b, kind), call)
    ensures Logged(d, Handle(cfg, d, b, kind), call + [Sent(Short(CNOP))])
  {
    ShortIs(CNOP);
    assert (d.log + call) + [Sent(Short(CNOP))] == d.log + (call + [Sent(Short(CNOP))]);
  }

  /** A motion, wheel or button message is reported with the whole state of the pointer after it, and
      answered. */
  lemma MouseReported(cfg: Config, d: Device, b: Bytes)
    requires cfg.Valid() && d.Valid() && Readable(b) && (Is(b, DMDN) || Is(b, DMUP) || Is(b, DMMV) || Is(b, DMWM))
    ensures var d' := Process(cfg, d, b);
      var now := Mouse(d'.mouseX, d'.mouseY, d'.wheelX, d'.wheelY, d'.left, d'.right, d'.middle);
      Logged(d, d', IfInstalled(cfg.mouseCallback, now) + [Sent(Short(CNOP))])
  {
    var kind := BodyKind(b);
    PointerNames(b);
    HandlePointer(cfg, d, b, kind);
    MouseCalls(cfg, d, b, kind);
    ActedAndAnswered(cfg, d, b, kind, IfInstalled(cfg.mouseCallback, MouseEffect(Act(cfg, d, b, kind))));
  }

  lemma MouseCalls(cfg: Config, d: Device, b: Bytes, kind: Kind)
    requires d.Valid() && Fits(b, kind) && (kind.MouseButton? || kind.MouseMove? || kind.MouseWheel?)
    ensures Logged(d, Act(cfg, d, b, kind), IfInstalled(cfg.mouseCallback, MouseEffect(Act(cfg, d, b, kind))))
  {
    assert d.log + [] == d.log;
  }

  /** A key message is reported with its own key, modifiers and kind, and answered. */
  lemma KeyReported(cfg: Config, d: Device, b: Bytes)
    requires cfg.Valid() && d.Valid() && Readable(b) && (Is(b, DKDN) || Is(b, DKRP) || Is(b, DKUP))
    ensures |b| >= 10 && (Is(b, DKRP) ==> |b| >= 12)
    ensures var key := Key(if Is(b, DKRP) then Word(b, 10) else Word(b, 8), Word(b, 6), !Is(b, DKUP), Is(b, DKRP));
      Logged(d, Process(cfg, d, b), IfInstalled(cfg.keyboardCallback, key) + [Sent(Short(CNOP))])
  {
    var kind := BodyKind(b);
    KeyNames(b);
    var key := Key(if kind.KeyRepeat? then Word(b, 10) else Word(b, 8), Word(b, 6), !kind.KeyUp?, kind.KeyRepeat?);
    KeyCalls(cfg, d, b, kind);
    ActedAndAnswered(cfg, d, b, kind, IfInstalled(cfg.keyboardCallback, key));
  }

  lemma KeyCalls(cfg: Config, d: Device, b: Bytes, kind: Kind)
    requires d.Valid() && Fits(b, kind) && (kind.KeyDown? || kind.KeyRepeat? || kind.KeyUp?)
    ensures var key := Key(if kind.KeyRepeat? then Word(b, 10) else Word(b, 8), Word(b, 6), !kind.KeyUp?, kind.KeyRepeat?);
      Logged(d, Act(cfg, d, b, kind), IfInstalled(cfg.keyboardCallback, key))
  {
    assert d.log + [] == d.log;
  }

  /** Entering and leaving the screen are reported and answered. */
  lemma ScreenReported(cfg: Config, d: Device, b: Bytes)
    requires cfg.Valid() && d.Valid() && Readable(b) && (Is(b, CINN) || Is(b, COUT))
    ensures Logged(d, Process(cfg, d, b), IfInstalled(cfg.screenCallback, ScreenActive(Is(b, CINN))) + [Sent(Short(CNOP))])
  {
    var kind := BodyKind(b);
    FocusNames(b);
    assert d.log + [] == d.log;
    ActedAndAnswered(cfg, d, b, kind, IfInstalled(cfg.screenCallback, ScreenActive(kind.Enter?)));
  }

  /** A joystick message is reported with the joystick's state after it, if there is such a joystick, and
      answered. */
  lemma JoystickReported(cfg: Config, d: Device, b: Bytes)
    requires cfg.Valid() && d.Valid() && Readable(b) && (Is(b, DGBT) || Is(b, DGST))
    ensures |b| >= 7 && Process(cfg, d, b).Valid()
    ensures var d' := Process(cfg, d, b);
      var call := if b[4] < 4 then IfInstalled(cfg.joystickCallback, Joystick(b[4], d'.buttons[b[4]], d'.sticks[b[4]])) else [];
      Logged(d, d', call + [Sent(Short(CNOP))])
  {
    var kind := BodyKind(b);
    FocusNames(b);
    HandleKeepsValid(cfg, d, b, kind);
    HandleFocus(cfg, d, b, kind);
    JoystickCalls(cfg, d, b, kind);
    var a := Act(cfg, d, b, kind);
    ActedAndAnswered(cfg, d, b, kind,
      if b[4] < 4 then IfInstalled(cfg.joystickCallback, Joystick(b[4], a.buttons[b[4]], a.sticks[b[4]])) else []);
  }

  lemma JoystickCalls(cfg: Config, d: Device, b: Bytes, kind: Kind)
    requires d.Valid() && Fits(b, kind) && (kind.GameButtons? || kind.GameSticks?)
    ensures Act(cfg, d, b, kind).Valid()
    ensures var a := Act(cfg, d, b, kind);
      Logged(d, a, if b[4] < 4 then IfInstalled(cfg.joystickCallback, Joystick(b[4], a.buttons[b[4]], a.sticks[b[4]])) else [])
  {
    assert d.log + [] == d.log;
  }

  /** A query is answered with the width and the height at their places and zero everywhere else. */
  lemma QueryAnswered(cfg: Config, d: Device, b: Bytes)
    requires cfg.Valid() && d.Valid() && Readable(b) && Is(b, QINF)
    ensures var d' := Process(cfg, d, b);
      exists info: Bytes :: |info| == 18 && d' == d.(log := d'.log, sends := d.sends + 1) && Logged(d, d', [Sent([0, 0, 0, 18] + info)])
        && info[..4] == DINF && Word(info, 8) == cfg.width && Word(info, 10) == cfg.height
        && forall i :: 4 <= i < 18 && !(8 <= i < 12) ==> info[i] == 0
  {
    OtherNames(b);
    var info := Info(cfg);
    assert Frame(info) == [0, 0, 0, 18] + info;
    assert info[8] as int == cfg.width / 0x100 && info[9] as int == cfg.width % 0x100;
    assert info[10] as int == cfg.height / 0x100 && info[11] as int == cfg.height % 0x100;
  }

  /** A hello is answered with the version and the name; whether that could be sent decides whether the
      connection is greeted or given up. */
  lemma HelloAnswered(cfg: Config, d: Device, b: Bytes)
    requires cfg.Valid() && d.Valid() && Readable(b) && SYNERGY <= b
    ensures var d' := Process(cfg, d, b);
      var back := SYNERGY + [0, 1, 0, 4] + [0, 0, |cfg.name| / 0x100, |cfg.name| % 0x100] + cfg.name;
      && (if cfg.sendOk(d.sends)
          then d'.hasReceivedHello && d'.connected == d.connected && Logged(d, d', [Sent(Frame(back))])
          else !d'.connected && d'.hasReceivedHello == d.hasReceivedHello && Logged(d, d', [Sent(Frame(back)), Slept(1000)]))
      && d'.sends == d.sends + 1
  {
    OtherNames(b);
    HelloBytes(cfg);
    HelloHandled(cfg, d, b);
  }

  lemma HelloBytes(cfg: Config)
    requires cfg.Valid()
    ensures HelloBack(cfg) == SYNERGY + [0, 1, 0, 4] + [0, 0, |cfg.name| / 0x100, |cfg.name| % 0x100] + cfg.name
  {
    assert Put16(PROTOCOL_MAJOR) + Put16(PROTOCOL_MINOR) == [0, 1, 0, 4];
    assert Put32(|cfg.name|) == [0, 0, |cfg.name| / 0x100, |cfg.name| % 0x100];
  }

  lemma HelloHandled(cfg: Config, d: Device, b: Bytes)
    requires cfg.Valid() && d.Valid() && Fits(b, Hello)
    ensures var d', frame := Handle(cfg, d, b, Hello), Frame(HelloBack(cfg));
      && (if cfg.sendOk(d.sends)
          then d'.hasReceivedHello && d'.connected == d.connected && Logged(d, d', [Sent(frame)])
          else !d'.connected && d'.hasReceivedHello == d.hasReceivedHello && Logged(d, d', [Sent(frame), Slept(1000)]))
      && d'.sends == d.sends + 1
  {
    var frame := Frame(HelloBack(cfg));
    assert (d.log + [Sent(frame)]) + [Slept(1000)] == d.log + [Sent(frame), Slept(1000)];
  }

  /** A keep-alive is sent back and answered like the rest, options are answered, acknowledgments and
      resets are ignored, and an unknown name is noted. */
  lemma OthersAnswered(cfg: Config, d: Device, b: Bytes)
    requires cfg.Valid() && d.Valid() && Readable(b)
    ensures Is(b, CALV) ==> Logged(d, Process(cfg, d, b), [Sent(Short(CALV)), Sent(Short(CNOP))])
    ensures Is(b, DSOP) ==> Logged(d, Process(cfg, d, b), [Sent(Short(CNOP))])
    ensures Is(b, CIAK) || Is(b, CROP) ==> Process(cfg, d, b) == d
    ensures BodyKind(b) == Unknown ==> Process(cfg, d, b) == d.(log := d.log + [UnknownPacket(b[..4])])
  {
    OtherNames(b);
    if Is(b, CALV) {
      AliveAnswered(cfg, d, b);
    } else if Is(b, DSOP) {
      OptionsAnswered(cfg, d, b);
    }
  }

  lemma AliveAnswered(cfg: Config, d: Device, b: Bytes)
    requires cfg.Valid() && d.Valid() && Fits(b, KeepAlive)
    ensures Logged(d, Handle(cfg, d, b, KeepAlive), [Sent(Short(CALV)), Sent(Short(CNOP))])
  {
    ShortIs(CALV);
    ActedAndAnswered(cfg, d, b, KeepAlive, [Sent(Short(CALV))]);
    assert [Sent(Short(CALV))] + [Sent(Short(CNOP))] == [Sent(Short(CALV)), Sent(Short(CNOP))];
  }

  lemma OptionsAnswered(cfg: Config, d: Device, b: Bytes)
    requires cfg.Valid() && d.Valid() && Fits(b, SetOptions)
    ensures Logged(d, Handle(cfg, d, b, SetOptions), [Sent(Short(CNOP))])
  {
    assert d.log + [] == d.log;
    ActedAndAnswered(cfg, d, b, SetOptions, []);
    assert [] + [Sent(Short(CNOP))] == [Sent(Short(CNOP))];
  }

  // ---------- clipboards with any formats ----------

  type Format = f: int | 0 <= f < TWO_32

  type Data = s: Bytes | |s| < TWO_32 witness []

  datatype Clip = Clip(format: Format, data: Data)

  /** The formats as the server writes them, and what comes behind. */
  function Written(clips: seq<Clip>, tail: Bytes): Bytes {
    if clips == [] then tail
    else Put32(clips[0].format) + Put32(|clips[0].data|) + clips[0].data + Written(clips[1..], tail)
  }

  function Calls(clips: seq<Clip>): seq<Effect> {
    if clips == [] then [] else [Clipboard(clips[0].format, clips[0].data)] + Calls(clips[1..])
  }

  lemma OneFormat(head: Bytes, clip: Clip, rest: Bytes)
    ensures var b := head + (Put32(clip.format) + Put32(|clip.data|) + clip.data + rest);
      && Get32(b, |head|) == clip.format && Get32(b, |head| + 4) == |clip.data|
      && b[|head| + 8..|head| + 8 + |clip.data|] == clip.data
      && b[|head| + 8 + |clip.data|..] == rest
  {
    var b := head + (Put32(clip.format) + Put32(|clip.data|) + clip.data + rest);
    assert b == head + Put32(clip.format) + (Put32(|clip.data|) + clip.data + rest);
    assert b == (head + Put32(clip.format)) + Put32(|clip.data|) + (clip.data + rest);
    Get32At(head, clip.format, Put32(|clip.data|) + clip.data + rest);
    Get32At(head + Put32(clip.format), |clip.data|, clip.data + rest);
  }

  /** n formats can be read from there, and these are the callbacks that are made of them. */
  predicate PassesOn(b: Bytes, from: nat, n: nat, calls: seq<Effect>) {
    FormatsFit(b, from, n) && Formats(b, from, n) == calls
  }

  lemma FirstFormat(b: Bytes, from: nat, clip: Clip, rest: Bytes)
    requires from <= |b| && b[from..] == Put32(clip.format) + Put32(|clip.data|) + clip.data + rest
    ensures CarriesFirst(b, from, clip) && b[from + 8 + |clip.data|..] == rest
  {
    assert b == b[..from] + b[from..];
    OneFormat(b[..from], clip, rest);
  }

  /** This format lies there. */
  predicate CarriesFirst(b: Bytes, from: nat, clip: Clip) {
    && from + 8 + |clip.data| <= |b|
    && Get32(b, from) == clip.format && Get32(b, from + 4) == |clip.data|
    && b[from + 8..from + 8 + |clip.data|] == clip.data
  }

  /** The formats lie one behind the other from there on. */
  predicate Carries(b: Bytes, from: nat, clips: seq<Clip>)
    decreases |clips|
  {
    clips == [] || (CarriesFirst(b, from, clips[0]) && Carries(b, from + 8 + |clips[0].data|, clips[1..]))
  }

  lemma {:induction false} CarriedArePassedOn(b: Bytes, from: nat, clips: seq<Clip>)
    requires Carries(b, from, clips)
    ensures PassesOn(b, from, |clips|, Calls(clips))
    decreases |clips|
  {
    if clips != [] {
      CarriedArePassedOn(b, from + 8 + |clips[0].data|, clips[1..]);
    }
  }

  lemma CarriesOn(b: Bytes, from: nat, clips: seq<Clip>)
    requires clips != [] && CarriesFirst(b, from, clips[0]) && Carries(b, from + 8 + |clips[0].data|, clips[1..])
    ensures Carries(b, from, clips)
  {
  }

  lemma WrittenAt(b: Bytes, from: nat, clips: seq<Clip>, tail: Bytes)
    requires clips != [] && from <= |b| && b[from..] == Written(clips, tail)
    ensures CarriesFirst(b, from, clips[0]) && b[from + 8 + |clips[0].data|..] == Written(clips[1..], tail)
  {
    FirstFormat(b, from, clips[0], Written(clips[1..], tail));
  }

  lemma {:induction false} WrittenAreCarried(b: Bytes, from: nat, clips: seq<Clip>, tail: Bytes)
    requires from <= |b| && b[from..] == Written(clips, tail)
    ensures Carries(b, from, clips)
    decreases |clips|
  {
    if clips != [] {
      WrittenAt(b, from, clips, tail);
      WrittenAreCarried(b, from + 8 + |clips[0].data|, clips[1..], tail);
      CarriesOn(b, from, clips);
    }
  }

  /** Formats written behind any head are passed on once each, in order, with their own bytes. */
  lemma FormatsPassedOn(b: Bytes, from: nat, clips: seq<Clip>, tail: Bytes)
    requires from <= |b| && b[from..] == Written(clips, tail)
    ensures PassesOn(b, from, |clips|, Calls(clips))
  {
    WrittenAreCarried(b, from, clips, tail);
    CarriedArePassedOn(b, from, clips);
  }

  /** A clipboard message that carries these formats is reported with one call each, if there is a callback,
      and answered; nothing else changes. */
  lemma ClipboardReported(cfg: Config, d: Device, b: Bytes, clips: seq<Clip>, tail: Bytes)
    requires cfg.Valid() && d.Valid() && Readable(b) && Is(b, DCLP)
    requires |b| >= 17 && Get32(b, 13) == |clips| && b[17..] == Written(clips, tail)
    ensures var d' := Process(cfg, d, b);
      && Logged(d, d', (if cfg.clipboardCallback then Calls(clips) else []) + [Sent(Short(CNOP))])
      && d' == d.(log := d'.log, sends := d.sends + 1)
  {
    OtherNames(b);
    FormatsPassedOn(b, 17, clips, tail);
    var calls := if cfg.clipboardCallback then Calls(clips) else [];
    ClipboardCalls(cfg, d, b, Calls(clips));
    ActedAndAnswered(cfg, d, b, ClipboardData, calls);
    OnlyLogged(cfg, d, b, calls);
  }

  lemma ClipboardCalls(cfg: Config, d: Device, b: Bytes, calls: seq<Effect>)
    requires d.Valid() && Fits(b, ClipboardData) && PassesOn(b, 17, Get32(b, 13), calls)
    ensures Act(cfg, d, b, ClipboardData) == d.(log := d.log + if cfg.clipboardCallback then calls else [])
  {
    assert d.log + [] == d.log;
  }

  lemma OnlyLogged(cfg: Config, d: Device, b: Bytes, calls: seq<Effect>)
    requires cfg.Valid() && d.Valid() && Fits(b, ClipboardData) && Act(cfg, d, b, ClipboardData) == d.(log := d.log + calls)
    ensures var d' := Handle(cfg, d, b, ClipboardData); d' == d.(log := d'.log, sends := d.sends + 1)
  {
  }
}
