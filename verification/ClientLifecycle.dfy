/** CClient and the keep-alive part of CServerProxy, with the handlers and timers they register. */
module ClientLifecycle {
  import opened Options
  import opened ClientStates

  // ---------- who owns which handlers ----------

  /** The handlers and timers of others when the client is made, and the first address after that. */
  datatype Registrations = Registrations(handlers: map<Key, Job>, timers: set<Target>, first: Target)

  /** Handlers of others are not for the client's kinds of events and not on addresses it is given later. */
  ghost predicate Foreigners(o: Registrations) {
    && o.first >= 2
    && (forall k :: k in o.handlers ==> o.handlers[k].Foreign? && k.target < o.first)
    && (forall k :: k in o.handlers && k.target == SCREEN ==>
          k.kind != Suspend && k.kind != Resume && k.kind != ShapeChanged && k.kind != ClipboardGrabbed)
    && (forall k :: k in o.handlers && k.target == CLIENT ==> k.kind != FileChunkSending && k.kind != FileReceived)
    && (forall t :: t in o.timers ==> t < o.first)
  }

  type Others = o: Registrations | Foreigners(o) witness Registrations(map[], {}, 2)

  /** The table holds what others have registered and exactly what belongs to the phase. */
  ghost predicate Registered(handlers: map<Key, Job>, o: Others, dragDrop: bool, phase: Phase) {
    forall k :: Entry(handlers, k) == if k in o.handlers then Some(o.handlers[k]) else Handler(dragDrop, phase, k)
  }

  function Entry(handlers: map<Key, Job>, k: Key): Option<Job> {
    if k in handlers then Some(handlers[k]) else None
  }

  function TimerKeys(timer: Option<Target>): set<Key> {
    if timer.Some? then {Key(Timer, timer.value)} else {}
  }

  function ConnectingKeys(stream: Option<Target>): set<Key> {
    if stream.Some? then {Key(Connected, stream.value), Key(ConnectionFailed, stream.value)} else {}
  }

  function ConnectionKeys(stream: Option<Target>): set<Key> {
    if stream.Some? then
      {Key(InputReady, stream.value), Key(OutputError, stream.value), Key(InputShutdown, stream.value),
       Key(OutputShutdown, stream.value), Key(Disconnected, stream.value)}
    else {}
  }

  const SCREEN_KEYS := {Key(ShapeChanged, SCREEN), Key(ClipboardGrabbed, SCREEN)}

  function WithAlarm(h: map<Key, Job>, alarm: Option<Target>): map<Key, Job> {
    if alarm.Some? then h[Key(Timer, alarm.value) := OnKeepAliveAlarm] else h
  }

  function TimerIds(timer: Option<Target>): set<Target> { if timer.Some? then {timer.value} else {} }

  // ---------- the event queue ----------

  class EventTable {
    var handlers: map<Key, Job>
    var timers: set<Target>
    var next: Target
    var posted: seq<News>

    constructor (handlers: map<Key, Job>, timers: set<Target>, next: Target)
      ensures this.handlers == handlers && this.timers == timers && this.next == next && posted == []
    {
      this.handlers, this.timers, this.next, posted := handlers, timers, next, [];
    }

    method AdoptHandler(kind: Kind, target: Target, job: Job)
      modifies this`handlers
      ensures handlers == old(handlers)[Key(kind, target) := job]
    {
      handlers := handlers[Key(kind, target) := job];
    }

    method RemoveHandler(kind: Kind, target: Target)
      modifies this`handlers
      ensures handlers == old(handlers) - {Key(kind, target)}
    {
      handlers := handlers - {Key(kind, target)};
    }

    method NewOneShotTimer() returns (timer: Target)
      modifies this`timers, this`next
      ensures timer == old(next) && next == timer + 1 && timers == old(timers) + {timer}
    {
      timer := Allocate();
      timers := timers + {timer};
    }

    method DeleteTimer(timer: Target)
      modifies this`timers
      ensures timers == old(timers) - {timer}
    {
      timers := timers - {timer};
    }

    /** A new address. */
    method Allocate() returns (address: Target)
      modifies this`next
      ensures address == old(next) && next == address + 1
    {
      address := next;
      next := next + 1;
    }

    method AddEvent(news: News)
      modifies this`posted
      ensures posted == old(posted) + [news]
    {
      posted := posted + [news];
    }
  }

  // ---------- the proxy ----------

  class ServerProxy {
    const stream: Target
    const events: EventTable
    var keepAliveAlarm: real
    var keepAliveAlarmTimer: Option<Target>
    var parseHandshake: bool

    constructor (stream: Target, events: EventTable)
      modifies events`handlers, events`timers, events`next
      ensures this.stream == stream && this.events == events && parseHandshake
      ensures keepAliveAlarm == KEEP_ALIVE_RATE * KEEP_ALIVES_UNTIL_DEATH && keepAliveAlarmTimer == Some(old(events.next))
      ensures events.next == old(events.next) + 1 && events.timers == old(events.timers) + {old(events.next)}
      ensures events.handlers ==
        old(events.handlers)[Key(InputReady, stream) := OnData][Key(Timer, old(events.next)) := OnKeepAliveAlarm]
    {
      this.stream, this.events := stream, events;
      keepAliveAlarm, keepAliveAlarmTimer, parseHandshake := 0.0, None, true;
      new;
      events.AdoptHandler(InputReady, stream, OnData);
      assert events.handlers - {} == events.handlers && events.timers - {} == events.timers;
      SetKeepAliveRate(KEEP_ALIVE_RATE);
    }

    /** ~CServerProxy. */
    method Destroy()
      modifies this, events`handlers, events`timers, events`next
      ensures events.handlers == old(events.handlers) - TimerKeys(old(keepAliveAlarmTimer)) - {Key(InputReady, stream)}
      ensures events.timers == old(events.timers) - TimerIds(old(keepAliveAlarmTimer)) && events.next == old(events.next)
    {
      SetKeepAliveRate(-1.0);
      events.RemoveHandler(InputReady, stream);
    }

    method ResetKeepAliveAlarm()
      modifies this`keepAliveAlarmTimer, events`handlers, events`timers, events`next
      ensures keepAliveAlarmTimer == if keepAliveAlarm > 0.0 then Some(old(events.next)) else None
      ensures events.next == if keepAliveAlarm > 0.0 then old(events.next) + 1 else old(events.next)
      ensures events.handlers == WithAlarm(old(events.handlers) - TimerKeys(old(keepAliveAlarmTimer)), keepAliveAlarmTimer)
      ensures events.timers == old(events.timers) - TimerIds(old(keepAliveAlarmTimer)) + TimerIds(keepAliveAlarmTimer)
    {
      if keepAliveAlarmTimer.Some? {
        events.RemoveHandler(Timer, keepAliveAlarmTimer.value);
        events.DeleteTimer(keepAliveAlarmTimer.value);
        keepAliveAlarmTimer := None;
      }
      assert old(keepAliveAlarmTimer) == None ==>
        events.handlers == old(events.handlers) - {} && events.timers == old(events.timers) - {};
      if keepAliveAlarm > 0.0 {
        var timer := events.NewOneShotTimer();
        keepAliveAlarmTimer := Some(timer);
        events.AdoptHandler(Timer, timer, OnKeepAliveAlarm);
      }
    }

    method SetKeepAliveRate(rate: real)
      modifies this`keepAliveAlarm, this`keepAliveAlarmTimer, events`handlers, events`timers, events`next
      ensures keepAliveAlarm == rate * KEEP_ALIVES_UNTIL_DEATH
      ensures keepAliveAlarmTimer == if keepAliveAlarm > 0.0 then Some(old(events.next)) else None
      ensures events.next == if keepAliveAlarm > 0.0 then old(events.next) + 1 else old(events.next)
      ensures events.handlers == WithAlarm(old(events.handlers) - TimerKeys(old(keepAliveAlarmTimer)), keepAliveAlarmTimer)
      ensures events.timers == old(events.timers) - TimerIds(old(keepAliveAlarmTimer)) + TimerIds(keepAliveAlarmTimer)
    {
      keepAliveAlarm := rate * KEEP_ALIVES_UNTIL_DEATH;
      ResetKeepAliveAlarm();
    }
  }

  // ---------- how the table changes ----------

  /** The keys that belong to a phase and not to the idle one. */
  function Gone(phase: Phase): set<Key> {
    match phase
    case Idle => {}
    case Connecting(stream, timer) => TimerKeys(Some(timer)) + ConnectingKeys(Some(stream))
    case Greeting(stream, timer) => TimerKeys(Some(timer)) + ConnectionKeys(Some(stream))
    case Up(p) => SCREEN_KEYS + TimerKeys(p.alarm) + ConnectionKeys(Some(p.stream))
  }

  /** Keys that nobody else uses. */
  ghost predicate OwnKeys(keys: set<Key>, first: Target) {
    forall k :: k in keys ==> k.target >= first || k in SCREEN_KEYS
  }

  lemma RestStay(dragDrop: bool, phase: Phase, k: Key)
    requires k !in Gone(phase)
    ensures Handler(dragDrop, phase, k) == Handler(dragDrop, Idle, k)
  {
  }

  /** Removing the keys of the phase, and perhaps more of the client's own, leaves the idle phase's. */
  lemma ToIdle(h: map<Key, Job>, o: Others, dragDrop: bool, phase: Phase, removed: set<Key>)
    requires Registered(h, o, dragDrop, phase)
    requires Gone(phase) <= removed && OwnKeys(removed, o.first)
    ensures Registered(h - removed, o, dragDrop, Idle)
  {
    forall k
      ensures Entry(h - removed, k) == if k in o.handlers then Some(o.handlers[k]) else Handler(dragDrop, Idle, k)
    {
      assert Entry(h, k) == if k in o.handlers then Some(o.handlers[k]) else Handler(dragDrop, phase, k);
      if k !in removed {
        RestStay(dragDrop, phase, k);
      }
    }
  }

  /** What cleanupScreen removes. */
  function ScreenKeys(phase: Phase): set<Key> {
    if phase.Up? then ProxyKeys(phase.proxy.alarm, phase.proxy.stream) else {}
  }

  function ProxyKeys(alarm: Option<Target>, stream: Target): set<Key> {
    SCREEN_KEYS + TimerKeys(alarm) + {Key(InputReady, stream)}
  }

  function AlarmIds(phase: Phase): set<Target> {
    if phase.Up? then TimerIds(phase.proxy.alarm) else {}
  }

  /** The stream and the timer that a phase has. */
  predicate Has(phase: Phase, stream: Option<Target>, timer: Option<Target>) {
    match phase
    case Idle => stream == None && timer == None
    case Connecting(s, t) => stream == Some(s) && timer == Some(t)
    case Greeting(s, t) => stream == Some(s) && timer == Some(t)
    case Up(p) => stream == Some(p.stream) && timer == None
  }

  /** The table that cleaning up the timer, the screen and the connection leaves is that of the idle
      phase; so it is if cleaning up the connecting handlers comes in between. */
  lemma LeavingClears(h: map<Key, Job>, timers: set<Target>, o: Others, dragDrop: bool, s: State, stream: Option<Target>,
                      timer: Option<Target>)
    requires NewAddresses(o.first, s) && Has(s.phase, stream, timer)
    requires Registered(h, o, dragDrop, s.phase) && timers == o.timers + Timers(s.phase)
    ensures Registered(h - TimerKeys(timer) - ScreenKeys(s.phase) - ConnectingKeys(stream) - ConnectionKeys(stream), o, dragDrop, Idle)
    ensures !s.phase.Connecting? ==>
      Registered(h - TimerKeys(timer) - ScreenKeys(s.phase) - ConnectionKeys(stream), o, dragDrop, Idle)
    ensures timers - TimerIds(timer) - AlarmIds(s.phase) == o.timers
  {
    var a, b, c, d := TimerKeys(timer), ScreenKeys(s.phase), ConnectingKeys(stream), ConnectionKeys(stream);
    AllOwn(o.first, s, stream, timer);
    RemovedAll(h, a, b, c, d);
    GoneIsRemoved(s.phase, stream, timer);
    ToIdle(h, o, dragDrop, s.phase, a + b + c + d);
    if !s.phase.Connecting? {
      ToIdle(h, o, dragDrop, s.phase, a + b + d);
    }
    TimersGone(o, s, timer);
  }

  lemma GoneIsRemoved(phase: Phase, stream: Option<Target>, timer: Option<Target>)
    requires Has(phase, stream, timer)
    ensures Gone(phase) <= TimerKeys(timer) + ScreenKeys(phase) + ConnectingKeys(stream) + ConnectionKeys(stream)
    ensures !phase.Connecting? ==> Gone(phase) <= TimerKeys(timer) + ScreenKeys(phase) + ConnectionKeys(stream)
  {
  }

  lemma RemovedAll(h: map<Key, Job>, a: set<Key>, b: set<Key>, c: set<Key>, d: set<Key>)
    ensures h - a - b - c - d == h - (a + b + c + d)
    ensures h - a - b - d == h - (a + b + d)
  {
  }

  lemma TimersGone(o: Others, s: State, timer: Option<Target>)
    requires NewAddresses(o.first, s)
    requires s.phase.Connecting? || s.phase.Greeting? ==> timer == Some(s.phase.timer)
    requires s.phase == Idle || s.phase.Up? ==> timer == None
    ensures o.timers + Timers(s.phase) - TimerIds(timer) - AlarmIds(s.phase) == o.timers
  {
  }

  lemma AllOwn(first: Target, s: State, stream: Option<Target>, timer: Option<Target>)
    requires NewAddresses(first, s) && Has(s.phase, stream, timer)
    ensures OwnKeys(TimerKeys(timer) + ScreenKeys(s.phase) + ConnectingKeys(stream) + ConnectionKeys(stream), first)
  {
  }

  /** The same before there is a proxy, for the cleanup calls that the other ways out make. */
  lemma WaitingClears(h: map<Key, Job>, o: Others, dragDrop: bool, s: State, stream: Option<Target>, timer: Option<Target>)
    requires NewAddresses(o.first, s) && Has(s.phase, stream, timer) && (s.phase.Connecting? || s.phase.Greeting?)
    requires Registered(h, o, dragDrop, s.phase)
    ensures Registered(h - TimerKeys(timer) - ConnectingKeys(stream) - ConnectionKeys(stream), o, dragDrop, Idle)
    ensures s.phase.Connecting? ==> Registered(h - TimerKeys(timer) - ConnectingKeys(stream), o, dragDrop, Idle)
    ensures s.phase.Greeting? ==> Registered(h - TimerKeys(timer) - ConnectionKeys(stream), o, dragDrop, Idle)
  {
    var a, b, c := TimerKeys(timer), ConnectingKeys(stream), ConnectionKeys(stream);
    AllOwn(o.first, s, stream, timer);
    assert h - a - b - c == h - (a + b + c) && h - a - b == h - (a + b) && h - a - c == h - (a + c);
    ToIdle(h, o, dragDrop, s.phase, a + b + c);
    ToIdle(h, o, dragDrop, s.phase, if s.phase.Connecting? then a + b else a + c);
  }

  lemma StartTable(h: map<Key, Job>, o: Others, dragDrop: bool)
    requires h == o.handlers
    ensures var h' := h[Key(Suspend, SCREEN) := OnSuspend][Key(Resume, SCREEN) := OnResume];
      Registered(if dragDrop then h'[Key(FileChunkSending, CLIENT) := OnFileChunkSending][Key(FileReceived, CLIENT) := OnFileReceived]
                 else h', o, dragDrop, Idle)
  {
  }

  lemma ConnectingTable(h: map<Key, Job>, o: Others, dragDrop: bool, stream: Target, timer: Target)
    requires Registered(h, o, dragDrop, Idle) && o.first <= stream && o.first <= timer && stream != timer
    ensures Registered(
      h[Key(Connected, stream) := OnConnected][Key(ConnectionFailed, stream) := OnConnectionFailed]
        [Key(Timer, timer) := OnConnectTimeout], o, dragDrop, Connecting(stream, timer))
  {
  }

  function WithConnection(h: map<Key, Job>, s: Target): map<Key, Job> {
    h[Key(Disconnected, s) := OnDisconnected][Key(InputReady, s) := OnHello]
      [Key(OutputError, s) := OnOutputError][Key(InputShutdown, s) := OnDisconnected]
      [Key(OutputShutdown, s) := OnDisconnected]
  }

  lemma GreetingTable(h: map<Key, Job>, o: Others, dragDrop: bool, stream: Target, timer: Target)
    requires Registered(h, o, dragDrop, Connecting(stream, timer)) && o.first <= stream && o.first <= timer && stream != timer
    ensures Registered(WithConnection(h - ConnectingKeys(Some(stream)), stream), o, dragDrop, Greeting(stream, timer))
  {
    var h' := WithConnection(h - ConnectingKeys(Some(stream)), stream);
    forall k
      ensures Entry(h', k) == if k in o.handlers then Some(o.handlers[k]) else Handler(dragDrop, Greeting(stream, timer), k)
    {
      assert Entry(h, k) == if k in o.handlers then Some(o.handlers[k]) else Handler(dragDrop, Connecting(stream, timer), k);
    }
  }

  function WithScreen(h: map<Key, Job>, stream: Target, alarm: Target): map<Key, Job> {
    h[Key(InputReady, stream) := OnData][Key(Timer, alarm) := OnKeepAliveAlarm]
      [Key(ShapeChanged, SCREEN) := OnShapeChanged][Key(ClipboardGrabbed, SCREEN) := OnClipboardGrabbed]
  }

  lemma UpTable(h: map<Key, Job>, o: Others, dragDrop: bool, stream: Target, timer: Target, p: Proxy)
    requires Registered(h, o, dragDrop, Greeting(stream, timer)) && o.first <= stream && o.first <= timer && stream != timer
    requires p.stream == stream && p.alarm.Some? && p.alarm.value > stream && p.alarm.value > timer
    ensures Registered(WithScreen(h, stream, p.alarm.value) - TimerKeys(Some(timer)), o, dragDrop, Up(p))
  {
    var h' := WithScreen(h, stream, p.alarm.value) - TimerKeys(Some(timer));
    forall k
      ensures Entry(h', k) == if k in o.handlers then Some(o.handlers[k]) else Handler(dragDrop, Up(p), k)
    {
      assert Entry(h, k) == if k in o.handlers then Some(o.handlers[k]) else Handler(dragDrop, Greeting(stream, timer), k);
    }
  }

  /** Replacing the alarm timer. */
  lemma AlarmTable(h: map<Key, Job>, o: Others, dragDrop: bool, p: Proxy, alarm: Option<Target>)
    requires Registered(h, o, dragDrop, Up(p)) && o.first <= p.stream
    requires p.alarm.Some? ==> o.first <= p.alarm.value != p.stream
    requires alarm.Some? ==> o.first <= alarm.value != p.stream
    ensures Registered(WithAlarm(h - TimerKeys(p.alarm), alarm), o, dragDrop, Up(p.(alarm := alarm)))
  {
    var h' := WithAlarm(h - TimerKeys(p.alarm), alarm);
    forall k
      ensures Entry(h', k) == if k in o.handlers then Some(o.handlers[k]) else Handler(dragDrop, Up(p.(alarm := alarm)), k)
    {
      assert Entry(h, k) == if k in o.handlers then Some(o.handlers[k]) else Handler(dragDrop, Up(p), k);
    }
  }

  lemma AlarmStep(h: map<Key, Job>, timers: set<Target>, o: Others, dragDrop: bool, s: State)
    requires NewAddresses(o.first, s) && s.phase.Up?
    requires Registered(h, o, dragDrop, s.phase) && timers == o.timers + Timers(s.phase)
    ensures NewAddresses(o.first, ResetAlarm(s))
    ensures var p, p' := s.phase.proxy, ResetAlarm(s).phase.proxy;
      && Registered(WithAlarm(h - TimerKeys(p.alarm), p'.alarm), o, dragDrop, ResetAlarm(s).phase)
      && timers - TimerIds(p.alarm) + TimerIds(p'.alarm) == o.timers + Timers(ResetAlarm(s).phase)
  {
    AlarmTable(h, o, dragDrop, s.phase.proxy, ResetAlarm(s).phase.proxy.alarm);
  }

  // ---------- the client ----------

  class Client {
    const events: EventTable
    const enableDragDrop: bool
    var stream: Option<Target>
    var timer: Option<Target>
    var server: ServerProxy?
    var ready: bool
    var suspended: bool
    var connectOnResume: bool
    var screen: seq<ScreenCall>

    ghost const others: Others
    ghost var phase: Phase

    ghost function Current(): State
      reads this, events
    {
      State(phase, suspended, connectOnResume, events.next, screen, events.posted)
    }

    /** The fields say which phase it is: connecting is having a timer, connected is having a proxy. */
    ghost predicate Fields()
      reads this, server
    {
      match phase
      case Idle => stream == None && timer == None && server == null && !ready
      case Connecting(s, t) => stream == Some(s) && timer == Some(t) && server == null && !ready
      case Greeting(s, t) => stream == Some(s) && timer == Some(t) && server == null && !ready
      case Up(p) => stream == Some(p.stream) && timer == None && server != null && ready == p.ready && Server(p)
    }

    ghost predicate Server(p: Proxy)
      requires server != null
      reads this, server
    {
      && server.events == events && server.stream == p.stream && server.parseHandshake == !p.ready
      && server.keepAliveAlarm == p.patience && server.keepAliveAlarmTimer == p.alarm
    }

    ghost predicate Valid()
      reads this, events, server
    {
      && NewAddresses(others.first, Current()) && Fields()
      && Registered(events.handlers, others, enableDragDrop, phase)
      && events.timers == others.timers + Timers(phase)
    }

    constructor (events: EventTable, enableDragDrop: bool)
      requires Foreigners(Registrations(events.handlers, events.timers, events.next)) && events.posted == []
      modifies events`handlers
      ensures Valid() && this.events == events && this.enableDragDrop == enableDragDrop
      ensures others == Registrations(old(events.handlers), events.timers, events.next)
      ensures Current() == State(Idle, false, false, events.next, [], [])
    {
      this.events, this.enableDragDrop := events, enableDragDrop;
      stream, timer, server := None, None, null;
      ready, suspended, connectOnResume, screen := false, false, false, [];
      others, phase := Registrations(events.handlers, events.timers, events.next), Idle;
      new;
      StartTable(events.handlers, others, enableDragDrop);
      events.AdoptHandler(Suspend, SCREEN, OnSuspend);
      events.AdoptHandler(Resume, SCREEN, OnResume);
      if enableDragDrop {
        events.AdoptHandler(FileChunkSending, CLIENT, OnFileChunkSending);
        events.AdoptHandler(FileReceived, CLIENT, OnFileReceived);
      }
    }

    predicate IsConnected()
      reads this
    {
      server != null
    }

    predicate IsConnecting()
      reads this
    {
      timer != None
    }

    /** Connected and connecting never hold together, being ready takes a proxy, and while suspended
        there is no stream; every state is sane by ClientStates.AlwaysSane. */
    lemma FieldFacts()
      requires Valid() && Sane(others.first, Current())
      ensures !(IsConnected() && IsConnecting()) && (stream == None <==> !IsConnected() && !IsConnecting())
      ensures (ready ==> IsConnected()) && (suspended ==> stream == None)
    {
    }

    // ---------- setting up and cleaning up ----------

    method SetupConnecting()
      requires stream.Some?
      modifies events`handlers
      ensures events.handlers ==
        old(events.handlers)[Key(Connected, stream.value) := OnConnected][Key(ConnectionFailed, stream.value) := OnConnectionFailed]
    {
      events.AdoptHandler(Connected, stream.value, OnConnected);
      events.AdoptHandler(ConnectionFailed, stream.value, OnConnectionFailed);
    }

    method SetupConnection()
      requires stream.Some?
      modifies events`handlers
      ensures var s := stream.value;
        events.handlers == WithConnection(old(events.handlers), s)
    {
      events.AdoptHandler(Disconnected, stream.value, OnDisconnected);
      events.AdoptHandler(InputReady, stream.value, OnHello);
      events.AdoptHandler(OutputError, stream.value, OnOutputError);
      events.AdoptHandler(InputShutdown, stream.value, OnDisconnected);
      events.AdoptHandler(OutputShutdown, stream.value, OnDisconnected);
    }

    method SetupScreen()
      requires stream.Some? && server == null
      modifies this`ready, this`server, events`handlers, events`timers, events`next
      ensures fresh(server) && !ready && Server(Proxy(stream.value, KEEP_ALIVE_RATE * KEEP_ALIVES_UNTIL_DEATH, Some(old(events.next)), false))
      ensures events.next == old(events.next) + 1 && events.timers == old(events.timers) + {old(events.next)}
      ensures events.handlers == WithScreen(old(events.handlers), stream.value, old(events.next))
    {
      ready := false;
      server := new ServerProxy(stream.value, events);
      events.AdoptHandler(ShapeChanged, SCREEN, OnShapeChanged);
      events.AdoptHandler(ClipboardGrabbed, SCREEN, OnClipboardGrabbed);
    }

    method SetupTimer()
      requires timer.None?
      modifies this`timer, events`handlers, events`timers, events`next
      ensures timer == Some(old(events.next)) && events.next == old(events.next) + 1
      ensures events.timers == old(events.timers) + {old(events.next)}
      ensures events.handlers == old(events.handlers)[Key(Timer, old(events.next)) := OnConnectTimeout]
    {
      var t := events.NewOneShotTimer();
      timer := Some(t);
      events.AdoptHandler(Timer, t, OnConnectTimeout);
    }

    method CleanupConnecting()
      modifies events`handlers
      ensures events.handlers == old(events.handlers) - ConnectingKeys(stream)
    {
      if stream.Some? {
        events.RemoveHandler(Connected, stream.value);
        events.RemoveHandler(ConnectionFailed, stream.value);
      }
    }

    method CleanupConnection()
      modifies this`stream, events`handlers
      ensures events.handlers == old(events.handlers) - ConnectionKeys(old(stream)) && stream == None
    {
      if stream.Some? {
        events.RemoveHandler(InputReady, stream.value);
        events.RemoveHandler(OutputError, stream.value);
        events.RemoveHandler(InputShutdown, stream.value);
        events.RemoveHandler(OutputShutdown, stream.value);
        events.RemoveHandler(Disconnected, stream.value);
        stream := None;
      }
    }

    /** What belongs to the proxy. */
    ghost function ServerKeys(): set<Key>
      reads this, server
    {
      if server == null then {} else ProxyKeys(server.keepAliveAlarmTimer, server.stream)
    }

    ghost function ServerTimers(): set<Target>
      reads this, server
    {
      if server == null then {} else TimerIds(server.keepAliveAlarmTimer)
    }

    method CleanupScreen()
      requires server != null ==> server.events == events
      modifies this`server, this`ready, this`screen, server, events`handlers, events`timers, events`next
      ensures server == null && events.next == old(events.next)
      ensures events.handlers == old(events.handlers) - old(ServerKeys()) && events.timers == old(events.timers) - old(ServerTimers())
      ensures ready == (old(ready) && old(server) == null)
      ensures screen == old(screen) + if old(server) != null && old(ready) then [Disable] else []
    {
      if server != null {
        if ready {
          screen := screen + [Disable];
          ready := false;
        }
        events.RemoveHandler(ShapeChanged, SCREEN);
        events.RemoveHandler(ClipboardGrabbed, SCREEN);
        server.Destroy();
        server := null;
      }
    }

    method CleanupTimer()
      modifies this`timer, events`handlers, events`timers
      ensures timer == None && events.handlers == old(events.handlers) - TimerKeys(old(timer))
      ensures events.timers == old(events.timers) - TimerIds(old(timer))
    {
      if timer.Some? {
        events.RemoveHandler(Timer, timer.value);
        events.DeleteTimer(timer.value);
        timer := None;
      }
    }

    // ---------- leaving ----------

    /** The cleanup calls that disconnect makes; handleOutputError and handleDisconnected make the same
        ones but for cleanupConnecting. */
    method TearDown(connecting: bool)
      requires server != null ==> server.events == events
      modifies this`timer, this`server, this`ready, this`screen, this`stream, server
      modifies events`handlers, events`timers, events`next
      ensures stream == None && timer == None && server == null
      ensures ready == (old(ready) && old(server) == null)
      ensures screen == old(screen) + if old(server) != null && old(ready) then [Disable] else []
      ensures events.next == old(events.next) && events.timers == old(events.timers) - TimerIds(old(timer)) - old(ServerTimers())
      ensures var h := old(events.handlers) - TimerKeys(old(timer)) - old(ServerKeys());
        events.handlers == (if connecting then h - ConnectingKeys(old(stream)) else h) - ConnectionKeys(old(stream))
    {
      CleanupTimer();
      CleanupScreen();
      if connecting {
        CleanupConnecting();
      }
      CleanupConnection();
    }

    lemma FieldsSay()
      requires Fields()
      ensures Has(phase, stream, timer) && ServerKeys() == ScreenKeys(phase) && ServerTimers() == AlarmIds(phase)
      ensures ready == Ready(Current()) && (ready ==> server != null) && (server != null ==> server.events == events)
    {
    }

    /** What the calls take away is what the phase had registered. */
    lemma TearDownClears(connecting: bool)
      requires Valid() && (phase.Connecting? ==> connecting)
      ensures var h := events.handlers - TimerKeys(timer) - ServerKeys();
        Registered((if connecting then h - ConnectingKeys(stream) else h) - ConnectionKeys(stream), others, enableDragDrop, Idle)
      ensures events.timers - TimerIds(timer) - ServerTimers() == others.timers
      ensures ready == Ready(Current()) && (ready ==> server != null) && (server != null ==> server.events == events)
    {
      FieldsSay();
      LeavingClears(events.handlers, events.timers, others, enableDragDrop, Current(), stream, timer);
    }

    /** After that, the client is idle. */
    method CleanUp(connecting: bool)
      requires Valid() && (phase.Connecting? ==> connecting)
      modifies this, events`handlers, events`timers, events`next, server
      ensures Valid() && suspended == old(suspended) && connectOnResume == old(connectOnResume)
      ensures phase == Idle && events.next == old(events.next)
      ensures screen == old(screen) + if Ready(old(Current())) then [Disable] else []
    {
      TearDownClears(connecting);
      TearDown(connecting);
      phase := Idle;
    }

    /** Cleans up and tells why. */
    method GoIdle(connecting: bool, why: News)
      requires Valid() && (phase.Connecting? ==> connecting)
      modifies this, events, server
      ensures Valid() && Current() == Leave(old(Current()), why)
    {
      CleanUp(connecting);
      events.AddEvent(why);
    }

    /** disconnect, with or without a message. */
    method Disconnect(failed: bool)
      requires Valid()
      modifies this, events, server
      ensures Valid() && Current() == Drop(old(Current()), failed)
    {
      connectOnResume := false;
      GoIdle(true, if failed then HasFailed else IsDisconnected);
    }

    // ---------- connecting ----------

    method Connect(outcome: Outcome)
      requires Valid()
      modifies this, events
      ensures Valid() && Current() == ConnectTo(old(Current()), outcome)
    {
      if stream.Some? {
        return;
      }
      if suspended {
        connectOnResume := true;
        return;
      }
      if outcome.ResolveFails? || outcome.CreateFails? {
        NothingToRemove(events.handlers, others, enableDragDrop, None);
        GiveUp();
        return;
      }
      var socket := events.Allocate();
      stream := Some(socket);
      if outcome.FilterFails? {
        NothingToRemove(events.handlers, others, enableDragDrop, stream);
        GiveUp();
        return;
      }
      var packets := events.Allocate();
      stream := Some(packets);
      StartConnecting();
      if outcome.SocketFails? {
        HandleConnectionFailed();
      }
    }

    /** The part of connect between making the stream and using the socket. */
    method StartConnecting()
      requires stream.Some? && timer == None && server == null && !ready
      requires others.first <= stream.value < events.next
      requires Registered(events.handlers, others, enableDragDrop, Idle) && events.timers == others.timers
      modifies this`timer, this`phase, events`handlers, events`timers, events`next
      ensures Valid() && phase == Connecting(stream.value, old(events.next)) && events.next == old(events.next) + 1
    {
      ConnectingTable(events.handlers, others, enableDragDrop, stream.value, events.next);
      SetupConnecting();
      SetupTimer();
      phase := Connecting(stream.value, timer.value);
    }

    /** What connect does when something throws; it is also the body of handleConnectionFailed. */
    method GiveUp()
      modifies this`timer, this`stream, events`handlers, events`timers, events`posted
      ensures timer == None && stream == None && events.posted == old(events.posted) + [HasFailed]
      ensures events.handlers == old(events.handlers) - TimerKeys(old(timer)) - ConnectingKeys(old(stream))
      ensures events.timers == old(events.timers) - TimerIds(old(timer))
    {
      CleanupTimer();
      CleanupConnecting();
      stream := None;
      events.AddEvent(HasFailed);
    }

    method SwitchHandlers()
      requires stream.Some?
      modifies events`handlers
      ensures events.handlers == WithConnection(old(events.handlers) - ConnectingKeys(stream), stream.value)
    {
      CleanupConnecting();
      SetupConnection();
    }

    method HandleConnected()
      requires Valid() && phase.Connecting?
      modifies this`phase, events`handlers
      ensures Valid() && Current() == old(Current()).(phase := Greeting(old(phase).stream, old(phase).timer))
    {
      ghost var s, t, h := phase.stream, phase.timer, events.handlers;
      SwitchHandlers();
      GreetingTable(h, others, enableDragDrop, s, t);
      phase := Greeting(s, t);
    }

    method HandleConnectionFailed()
      requires Valid() && phase.Connecting?
      modifies this, events
      ensures Valid() && Current() == Leave(old(Current()), HasFailed)
    {
      WaitingClears(events.handlers, others, enableDragDrop, Current(), stream, timer);
      TimersGone(others, Current(), timer);
      GiveUp();
      phase := Idle;
    }

    method HandleConnectTimeout()
      requires Valid() && (phase.Connecting? || phase.Greeting?)
      modifies this, events
      ensures Valid() && Current() == Leave(old(Current()), HasFailed)
    {
      WaitingClears(events.handlers, others, enableDragDrop, Current(), stream, timer);
      TimersGone(others, Current(), timer);
      CleanupTimer();
      CleanupConnecting();
      CleanupConnection();
      events.AddEvent(HasFailed);
      phase := Idle;
    }

    // ---------- the greeting ----------

    method HandleHello(hello: Hello)
      requires Valid() && phase.Greeting?
      modifies this, events
      ensures Valid() && Current() == Perform(old(Current()), OnHello, Env(Started, hello, []))
    {
      if hello.BadHello? {
        RefuseHello();
        return;
      }
      if hello.Incompatible? {
        RefuseHello();
        return;
      }
      AcceptHello();
      if hello.more {
        events.AddEvent(MoreInput(stream.value));
      }
    }

    method RefuseHello()
      requires Valid() && phase.Greeting?
      modifies this, events
      ensures Valid() && Current() == Leave(old(Current()), HasFailed)
    {
      events.AddEvent(HasFailed);
      CleanupGreeting();
    }

    method CleanupGreeting()
      requires Valid() && phase.Greeting?
      modifies this, events
      ensures Valid() && Current() == old(Current()).(phase := Idle)
    {
      WaitingClears(events.handlers, others, enableDragDrop, Current(), stream, timer);
      TimersGone(others, Current(), timer);
      CleanupTimerAndConnection();
      phase := Idle;
    }

    method CleanupTimerAndConnection()
      modifies this`timer, this`stream, events`handlers, events`timers
      ensures timer == None && stream == None && events.timers == old(events.timers) - TimerIds(old(timer))
      ensures events.handlers == old(events.handlers) - TimerKeys(old(timer)) - ConnectionKeys(old(stream))
    {
      CleanupTimer();
      CleanupConnection();
    }

    method AcceptHello()
      requires Valid() && phase.Greeting?
      modifies this`ready, this`server, this`timer, this`phase, events`handlers, events`timers, events`next
      ensures Valid() && events.next == old(events.next) + 1
      ensures phase == Up(Proxy(old(phase).stream, KEEP_ALIVE_RATE * KEEP_ALIVES_UNTIL_DEATH, Some(old(events.next)), false))
      ensures server != null && fresh(server)
    {
      ghost var s, t := phase.stream, phase.timer;
      ghost var p := Proxy(s, KEEP_ALIVE_RATE * KEEP_ALIVES_UNTIL_DEATH, Some(events.next), false);
      UpTable(events.handlers, others, enableDragDrop, s, t, p);
      SetupScreen();
      CleanupTimer();
      phase := Up(p);
    }

    // ---------- suspending ----------

    method HandleSuspend()
      requires Valid()
      modifies this, events, server
      ensures Valid() && Current() == Drop(old(Current()), false).(suspended := true, connectOnResume := old(phase).Up?)
    {
      suspended := true;
      var wasConnected := IsConnected();
      Disconnect(false);
      connectOnResume := wasConnected;
    }

    method HandleResume(outcome: Outcome)
      requires Valid()
      modifies this, events
      ensures Valid() && Current() == Perform(old(Current()), OnResume, Env(outcome, BadHello, []))
    {
      suspended := false;
      if connectOnResume {
        connectOnResume := false;
        Connect(outcome);
      }
    }

    // ---------- messages from the server ----------

    /** resetKeepAliveAlarm, called for a keep-alive message. */
    method RenewAlarm()
      requires Valid() && phase.Up?
      modifies this`phase, server, events`handlers, events`timers, events`next
      ensures Valid() && phase.Up? && Current() == ResetAlarm(old(Current()))
    {
      ghost var s := ResetAlarm(Current());
      AlarmStep(events.handlers, events.timers, others, enableDragDrop, Current());
      server.ResetKeepAliveAlarm();
      phase := s.phase;
    }

    /** setKeepAliveRate, called for options. */
    method ChangeRate(rate: real)
      requires Valid() && phase.Up?
      modifies this`phase, server, events`handlers, events`timers, events`next
      ensures Valid() && phase.Up? && Current() == SetRate(old(Current()), rate)
    {
      server.keepAliveAlarm := rate * KEEP_ALIVES_UNTIL_DEATH;
      phase := Up(phase.proxy.(patience := rate * KEEP_ALIVES_UNTIL_DEATH));
      RenewAlarm();
    }

    method ChangeRates(rates: seq<real>)
      requires Valid() && phase.Up?
      modifies this`phase, server, events`handlers, events`timers, events`next
      ensures Valid() && phase.Up? && Current() == SetRates(old(Current()), rates)
    {
      var i := 0;
      assert rates[0..] == rates;
      while i < |rates|
        invariant 0 <= i <= |rates| && Valid() && phase.Up?
        invariant SetRates(Current(), rates[i..]) == SetRates(old(Current()), rates)
      {
        assert rates[i..][1..] == rates[i + 1..];
        ChangeRate(rates[i]);
        i := i + 1;
      }
    }

    method HandshakeComplete()
      requires Valid() && phase.Up?
      modifies this`ready, this`screen, this`phase, server`parseHandshake, events`posted
      ensures Valid() && phase.Up? && Current() == Complete(old(Current()))
    {
      server.parseHandshake := false;
      ready := true;
      screen := screen + [Enable];
      events.AddEvent(ClientStates.IsConnected);
      phase := Up(phase.proxy.(ready := true));
    }

    /** Both parsers; false means that the connection is gone. */
    method ParseMessage(m: Message) returns (okay: bool)
      requires Valid() && phase.Up?
      modifies this, events, server
      ensures Valid() && Current() == Receive(old(Current()), m) && okay == phase.Up?
      ensures okay ==> server == old(server)
    {
      match m {
        case SetOptions(rates) =>
          var handshake := server.parseHandshake;
          ChangeRates(rates);
          if handshake {
            HandshakeComplete();
          }
          return true;
        case ResetOptions =>
          ChangeRate(KEEP_ALIVE_RATE);
          return true;
        case KeepAlive =>
          RenewAlarm();
          return true;
        case Passing =>
          return true;
        case Ordinary =>
          if server.parseHandshake {
            Disconnect(true);
            return false;
          }
          return true;
        case Close =>
          Disconnect(false);
          return false;
        case Bad =>
          Disconnect(true);
          return false;
        case Refusal =>
          Disconnect(true);
          return false;
        case Garbage =>
          Disconnect(true);
          return false;
      }
    }

    method HandleData(messages: seq<Message>)
      requires Valid() && phase.Up?
      modifies this, events, server
      ensures Valid() && Current() == ReceiveAll(old(Current()), messages)
    {
      var i, okay := 0, true;
      assert messages[0..] == messages;
      while i < |messages| && okay
        invariant 0 <= i <= |messages| && Valid() && okay == phase.Up?
        invariant server == old(server) || server == null
        invariant ReceiveAll(Current(), messages[i..]) == ReceiveAll(old(Current()), messages)
      {
        assert messages[i..][1..] == messages[i + 1..];
        okay := ParseMessage(messages[i]);
        i := i + 1;
      }
    }

    method HandleKeepAliveAlarm()
      requires Valid()
      modifies this, events, server
      ensures Valid() && Current() == Drop(old(Current()), true)
    {
      Disconnect(true);
    }

    /** handleShapeChanged and handleClipboardGrabbed talk to the proxy; they are only registered while
        there is one. */
    method TellProxy()
      requires server != null
    {
    }

    /** handleFileChunkSending and sendFileChunk; `failed` tells that the assertion there that there is a
        proxy fails. */
    method HandleFileChunkSending() returns (failed: bool)
      ensures failed == (server == null)
    {
      if server == null {
        return true;
      }
      TellProxy();
      return false;
    }

    // ---------- events ----------

    /** dispatchEvent, for any event whatever: if a handler is registered it is run. */
    method DispatchEvent(k: Key, env: Env) returns (failed: bool)
      requires Valid()
      modifies this, events, server
      ensures Valid() && Current() == Next(enableDragDrop, old(Current()), Dispatch(k, env))
      ensures failed == Fails(enableDragDrop, old(Current()), Dispatch(k, env))
    {
      if k !in events.handlers {
        assert Entry(events.handlers, k) == None;
        return false;
      }
      var job := events.handlers[k];
      assert Entry(events.handlers, k) == Some(job);
      if k in others.handlers {
        HandlerIsNotOthers(others, enableDragDrop, Current(), k);
      }
      failed := RunJob(job, k, env);
    }

    method RunJob(job: Job, ghost k: Key, env: Env) returns (failed: bool)
      requires Valid() && (job.Foreign? || Handler(enableDragDrop, phase, k) == Some(job))
      modifies this, events, server
      ensures Valid() && Current() == Perform(old(Current()), job, env)
      ensures failed == !Suits(old(phase), job)
    {
      HandlersSuit(enableDragDrop, phase, k);
      failed := false;
      if job.OnSuspend? {
        HandleSuspend();
      } else if job.OnResume? {
        HandleResume(env.outcome);
      } else if job.OnShapeChanged? || job.OnClipboardGrabbed? {
        TellProxy();
      } else if job.OnFileChunkSending? {
        failed := HandleFileChunkSending();
      } else if !job.Foreign? && !job.OnFileReceived? {
        RunConnectionJob(job, env);
      }
    }

    /** The handlers on streams and timers. */
    method RunConnectionJob(job: Job, env: Env)
      requires Valid() && Suits(phase, job) && !job.OnSuspend? && !job.OnResume? && !job.OnShapeChanged? && !job.OnClipboardGrabbed?
      requires !job.Foreign? && !job.OnFileChunkSending? && !job.OnFileReceived?
      modifies this, events, server
      ensures Valid() && Current() == Perform(old(Current()), job, env)
    {
      if job.OnConnected? {
        HandleConnected();
      } else if job.OnConnectionFailed? {
        HandleConnectionFailed();
      } else if job.OnConnectTimeout? {
        HandleConnectTimeout();
      } else if job.OnHello? {
        HandleHello(env.hello);
      } else if job.OnData? {
        HandleData(env.messages);
      } else if job.OnKeepAliveAlarm? {
        HandleKeepAliveAlarm();
      } else {
        // handleDisconnected and handleOutputError
        GoIdle(false, ClientStates.IsDisconnected);
      }
    }

    // ---------- the end ----------

    /** ~CClient: the table is given back as it was found if and only if drag and drop is off. */
    method Destroy()
      requires Valid()
      modifies this, events, server
      ensures events.timers == others.timers
      ensures forall k :: Entry(events.handlers, k) == AfterDestruction(others, enableDragDrop, k)
      ensures events.handlers == others.handlers <==> !enableDragDrop
    {
      ghost var h := events.handlers;
      FieldsSay();
      LeavingClears(h, events.timers, others, enableDragDrop, Current(), stream, timer);
      DestructionLeaves(h, others, enableDragDrop, TimerKeys(timer), ServerKeys(), ConnectingKeys(stream), ConnectionKeys(stream));
      RemoveSuspendHandlers();
      TearDown(true);
    }

    method RemoveSuspendHandlers()
      modifies events`handlers
      ensures events.handlers == old(events.handlers) - {Key(Suspend, SCREEN)} - {Key(Resume, SCREEN)}
    {
      events.RemoveHandler(Suspend, SCREEN);
      events.RemoveHandler(Resume, SCREEN);
    }
  }

  /** What the destructor leaves registered. */
  function AfterDestruction(o: Others, dragDrop: bool, k: Key): Option<Job> {
    if k in o.handlers then Some(o.handlers[k])
    else if dragDrop && k == Key(FileChunkSending, CLIENT) then Some(OnFileChunkSending)
    else if dragDrop && k == Key(FileReceived, CLIENT) then Some(OnFileReceived)
    else None
  }

  lemma DestructionLeaves(h: map<Key, Job>, o: Others, dragDrop: bool, a: set<Key>, b: set<Key>, c: set<Key>, d: set<Key>)
    requires Registered(h - a - b - c - d, o, dragDrop, Idle)
    ensures var left := h - {Key(Suspend, SCREEN)} - {Key(Resume, SCREEN)} - a - b - c - d;
      && (forall k :: Entry(left, k) == AfterDestruction(o, dragDrop, k))
      && (left == o.handlers <==> !dragDrop)
  {
    var rest := h - a - b - c - d;
    var left := h - {Key(Suspend, SCREEN)} - {Key(Resume, SCREEN)} - a - b - c - d;
    assert left == rest - {Key(Suspend, SCREEN), Key(Resume, SCREEN)};
    forall k
      ensures Entry(left, k) == AfterDestruction(o, dragDrop, k)
    {
      assert Entry(rest, k) == if k in o.handlers then Some(o.handlers[k]) else Handler(dragDrop, Idle, k);
    }
    SameEntries(left, o.handlers);
    assert AfterDestruction(o, dragDrop, Key(FileReceived, CLIENT)) == Entry(left, Key(FileReceived, CLIENT));
  }

  lemma SameEntries(a: map<Key, Job>, b: map<Key, Job>)
    ensures a == b <==> forall k :: Entry(a, k) == Entry(b, k)
  {
    if forall k :: Entry(a, k) == Entry(b, k) {
      forall k
        ensures (k in a <==> k in b) && (k in a ==> a[k] == b[k])
      {
        assert Entry(a, k) == Entry(b, k);
      }
    }
  }

  lemma HandlerIsNotOthers(o: Others, dragDrop: bool, s: State, k: Key)
    requires NewAddresses(o.first, s) && k in o.handlers
    ensures Handler(dragDrop, s.phase, k) == None && o.handlers[k].Foreign?
  {
  }

  /** Cleaning up while nothing is registered removes nothing that is registered. */
  lemma NothingToRemove(h: map<Key, Job>, o: Others, dragDrop: bool, stream: Option<Target>)
    requires Registered(h, o, dragDrop, Idle) && (stream.Some? ==> stream.value >= o.first)
    ensures Registered(h - TimerKeys(None) - ConnectingKeys(stream), o, dragDrop, Idle)
  {
    assert h - TimerKeys(None) - ConnectingKeys(stream) == h - ConnectingKeys(stream);
    ToIdle(h, o, dragDrop, Idle, ConnectingKeys(stream));
  }
}
