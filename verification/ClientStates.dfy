/** The life of CClient's connection, as a state machine.  The client's fields, handlers and timers are
    tied to it in module ClientLifecycle. */
module ClientStates {
  import opened Options

  // ---------- events, handlers, targets ----------

  type Target = nat

  /** The targets of the screen and of the client itself.  Streams and timers come after them. */
  const SCREEN: Target := 0
  const CLIENT: Target := 1

  datatype Kind =
    | Suspend | Resume | ShapeChanged | ClipboardGrabbed
    | FileChunkSending | FileReceived
    | Connected | ConnectionFailed
    | Disconnected | InputReady | OutputError | InputShutdown | OutputShutdown
    | Timer
    | Elsewhere(name: nat)

  datatype Key = Key(kind: Kind, target: Target)

  datatype Job =
    | OnSuspend | OnResume | OnShapeChanged | OnClipboardGrabbed
    | OnFileChunkSending | OnFileReceived
    | OnConnected | OnConnectionFailed | OnConnectTimeout
    | OnDisconnected | OnOutputError | OnHello
    | OnData | OnKeepAliveAlarm
    | Foreign(id: nat)

  // ---------- states ----------

  /** The proxy: its stream, the seconds after which it takes the server for dead (not positive: never),
      its alarm timer, and whether the handshake is complete. */
  datatype Proxy = Proxy(stream: Target, patience: real, alarm: Option<Target>, ready: bool)

  datatype Phase =
    | Idle
    | Connecting(stream: Target, timer: Target)
    | Greeting(stream: Target, timer: Target)
    | Up(proxy: Proxy)

  datatype ScreenCall = Enable | Disable

  /** What the client puts in the event queue. */
  datatype News = IsConnected | IsDisconnected | HasFailed | MoreInput(stream: Target)

  /** `next` is the next address that a new stream or timer gets. */
  datatype State = State(phase: Phase, suspended: bool, connectOnResume: bool, next: Target,
                         screen: seq<ScreenCall>, news: seq<News>)

  // ---------- what the environment decides ----------

  datatype Outcome = ResolveFails | CreateFails | FilterFails | SocketFails | Started

  datatype Hello = BadHello | Incompatible | Compatible(more: bool)

  /** Messages from the server, as far as they matter here.  `rates` are the heartbeat options in the
      message, in seconds. */
  datatype Message =
    | SetOptions(rates: seq<real>)
    | ResetOptions
    | KeepAlive
    | Passing          // noop, info query or info acknowledgment
    | Ordinary         // input, clipboard, screen saver and the like
    | Close
    | Bad              // protocol error
    | Refusal          // incompatible, busy or unknown
    | Garbage          // any other or an incomplete code

  datatype Env = Env(outcome: Outcome, hello: Hello, messages: seq<Message>)

  datatype Input = Connect(outcome: Outcome) | Disconnect(failed: bool) | Dispatch(key: Key, env: Env)

  // ---------- transitions ----------

  const KEEP_ALIVE_RATE := 3.0
  const KEEP_ALIVES_UNTIL_DEATH := 3.0

  function ConnectTo(s: State, outcome: Outcome): State {
    if s.phase != Idle then s
    else if s.suspended then s.(connectOnResume := true)
    else match outcome
      case ResolveFails => s.(news := s.news + [HasFailed])
      case CreateFails => s.(news := s.news + [HasFailed])
      case FilterFails => s.(news := s.news + [HasFailed], next := s.next + 1)
      case SocketFails => s.(news := s.news + [HasFailed], next := s.next + 3)
      case Started => s.(phase := Connecting(s.next + 1, s.next + 2), next := s.next + 3)
  }

  /** Back to idle, telling why. */
  function Leave(s: State, why: News): State {
    s.(phase := Idle, news := s.news + [why],
       screen := if s.phase.Up? && s.phase.proxy.ready then s.screen + [Disable] else s.screen)
  }

  function Drop(s: State, failed: bool): State {
    Leave(s, if failed then HasFailed else IsDisconnected).(connectOnResume := false)
  }

  /** resetKeepAliveAlarm: a new timer if the rate is positive. */
  function ResetAlarm(s: State): State
    requires s.phase.Up?
    ensures ResetAlarm(s).phase.Up?
  {
    var p := s.phase.proxy;
    if p.patience > 0.0
    then s.(phase := Up(p.(alarm := Some(s.next))), next := s.next + 1)
    else s.(phase := Up(p.(alarm := None)))
  }

  function SetRate(s: State, rate: real): State
    requires s.phase.Up?
    ensures SetRate(s, rate).phase.Up?
  {
    ResetAlarm(s.(phase := Up(s.phase.proxy.(patience := rate * KEEP_ALIVES_UNTIL_DEATH))))
  }

  function SetRates(s: State, rates: seq<real>): (r: State)
    requires s.phase.Up?
    ensures r.phase.Up?
    decreases |rates|
  {
    if rates == [] then s else SetRates(SetRate(s, rates[0]), rates[1..])
  }

  /** handshakeComplete. */
  function Complete(s: State): State
    requires s.phase.Up?
  {
    s.(phase := Up(s.phase.proxy.(ready := true)), screen := s.screen + [Enable], news := s.news + [IsConnected])
  }

  /** Both parsers: which one applies depends on whether the handshake is complete. */
  function Receive(s: State, m: Message): State
    requires s.phase.Up?
  {
    var ready := s.phase.proxy.ready;
    match m
    case SetOptions(rates) => var s' := SetRates(s, rates); if ready then s' else Complete(s')
    case ResetOptions => SetRate(s, KEEP_ALIVE_RATE)
    case KeepAlive => ResetAlarm(s)
    case Passing => s
    case Ordinary => if ready then s else Drop(s, true)
    case Close => Drop(s, false)
    case Bad => Drop(s, true)
    case Refusal => Drop(s, true)
    case Garbage => Drop(s, true)
  }

  function ReceiveAll(s: State, ms: seq<Message>): State
    decreases |ms|
  {
    if ms == [] || !s.phase.Up? then s else ReceiveAll(Receive(s, ms[0]), ms[1..])
  }

  /** The handler that is registered for an event, if any is. */
  function Handler(dragDrop: bool, phase: Phase, k: Key): Option<Job> {
    if k.target == SCREEN then
      if k.kind == Suspend then Some(OnSuspend)
      else if k.kind == Resume then Some(OnResume)
      else if k.kind == ShapeChanged && phase.Up? then Some(OnShapeChanged)
      else if k.kind == ClipboardGrabbed && phase.Up? then Some(OnClipboardGrabbed)
      else None
    else if k.target == CLIENT then
      if k.kind == FileChunkSending && dragDrop then Some(OnFileChunkSending)
      else if k.kind == FileReceived && dragDrop then Some(OnFileReceived)
      else None
    else match phase
      case Idle => None
      case Connecting(stream, timer) =>
        if k == Key(Connected, stream) then Some(OnConnected)
        else if k == Key(ConnectionFailed, stream) then Some(OnConnectionFailed)
        else if k == Key(Timer, timer) then Some(OnConnectTimeout)
        else None
      case Greeting(stream, timer) =>
        if k == Key(Timer, timer) then Some(OnConnectTimeout)
        else if k == Key(InputReady, stream) then Some(OnHello)
        else OnStream(stream, k)
      case Up(p) =>
        if p.alarm.Some? && k == Key(Timer, p.alarm.value) then Some(OnKeepAliveAlarm)
        else if k == Key(InputReady, p.stream) then Some(OnData)
        else OnStream(p.stream, k)
  }

  /** The handlers of a connected stream other than the one for input. */
  function OnStream(stream: Target, k: Key): Option<Job> {
    if k.target != stream then None
    else if k.kind == Disconnected || k.kind == InputShutdown || k.kind == OutputShutdown then Some(OnDisconnected)
    else if k.kind == OutputError then Some(OnOutputError)
    else None
  }

  /** The timers that the client has. */
  function Timers(phase: Phase): set<Target> {
    match phase
    case Idle => {}
    case Connecting(_, timer) => {timer}
    case Greeting(_, timer) => {timer}
    case Up(p) => if p.alarm.Some? then {p.alarm.value} else {}
  }

  function Perform(s: State, job: Job, env: Env): State {
    match job
    case OnSuspend => Drop(s, false).(suspended := true, connectOnResume := s.phase.Up?)
    case OnResume =>
      if s.connectOnResume then ConnectTo(s.(suspended := false, connectOnResume := false), env.outcome)
      else s.(suspended := false)
    case OnConnected =>
      if s.phase.Connecting? then s.(phase := Greeting(s.phase.stream, s.phase.timer)) else s
    case OnConnectionFailed => Leave(s, HasFailed)
    case OnConnectTimeout => Leave(s, HasFailed)
    case OnDisconnected => Leave(s, IsDisconnected)
    case OnOutputError => Leave(s, IsDisconnected)
    case OnHello =>
      if !s.phase.Greeting? then s
      else if !env.hello.Compatible? then Leave(s, HasFailed)
      else
        var stream := s.phase.stream;
        State(Up(Proxy(stream, KEEP_ALIVE_RATE * KEEP_ALIVES_UNTIL_DEATH, Some(s.next), false)), s.suspended, s.connectOnResume, s.next + 1, s.screen,
              if env.hello.more then s.news + [MoreInput(stream)] else s.news)
    case OnData => ReceiveAll(s, env.messages)
    case OnKeepAliveAlarm => Drop(s, true)
    case OnShapeChanged => s
    case OnClipboardGrabbed => s
    case OnFileChunkSending => s
    case OnFileReceived => s
    case Foreign(_) => s
  }

  function Next(dragDrop: bool, s: State, input: Input): State {
    match input
    case Connect(outcome) => ConnectTo(s, outcome)
    case Disconnect(failed) => Drop(s, failed)
    case Dispatch(k, env) =>
      var job := Handler(dragDrop, s.phase, k);
      if job.Some? then Perform(s, job.value, env) else s
  }

  function After(dragDrop: bool, start: State, inputs: seq<Input>): State {
    if inputs == [] then start
    else Next(dragDrop, After(dragDrop, start, inputs[..|inputs| - 1]), inputs[|inputs| - 1])
  }

  // ---------- what holds in every run ----------

  /** Enable and disable take turns, beginning with enable. */
  predicate TakeTurns(calls: seq<ScreenCall>) {
    forall i :: 0 <= i < |calls| ==> calls[i] == (if i % 2 == 0 then Enable else Disable)
  }

  /** The news that was told last, not counting the request to look at the input again. */
  function LastNews(news: seq<News>): Option<News> {
    if news == [] then None
    else if news[|news| - 1].MoreInput? then LastNews(news[..|news| - 1])
    else Some(news[|news| - 1])
  }

  predicate Ready(s: State) { s.phase.Up? && s.phase.proxy.ready }

  /** Nothing is set up while suspended; the screen is enabled, and the last news is that the client is
      connected, exactly while the handshake is complete; addresses are new. */
  predicate Sane(first: Target, s: State) {
    && (s.suspended ==> s.phase == Idle)
    && (s.connectOnResume ==> s.suspended)
    && TakeTurns(s.screen) && (|s.screen| % 2 == 1 <==> Ready(s))
    && (LastNews(s.news) == Some(IsConnected) <==> Ready(s))
    && NewAddresses(first, s)
  }

  predicate NewAddresses(first: Target, s: State) {
    && 2 <= first <= s.next
    && match s.phase
       case Idle => true
       case Connecting(stream, timer) => first <= stream < s.next && first <= timer < s.next && stream != timer
       case Greeting(stream, timer) => first <= stream < s.next && first <= timer < s.next && stream != timer
       case Up(p) => first <= p.stream < s.next && (p.alarm.Some? ==> first <= p.alarm.value < s.next && p.alarm.value != p.stream)
  }

  lemma LeaveSane(first: Target, s: State, why: News)
    requires Sane(first, s) && (why == HasFailed || why == IsDisconnected)
    ensures Sane(first, Leave(s, why))
  {
    var news := s.news + [why];
    assert LastNews(news) == Some(why);
  }

  lemma ConnectSane(first: Target, s: State, outcome: Outcome)
    requires Sane(first, s)
    ensures Sane(first, ConnectTo(s, outcome))
  {
    assert LastNews(s.news + [HasFailed]) == Some(HasFailed);
  }

  lemma CompleteSane(first: Target, s: State)
    requires Sane(first, s) && s.phase.Up? && !Ready(s)
    ensures Sane(first, Complete(s))
  {
    assert LastNews(s.news + [IsConnected]) == Some(IsConnected);
  }

  /** Giving the connected client another proxy of the same readiness keeps it sane. */
  lemma ProxySane(first: Target, s: State, p: Proxy, next: Target)
    requires Sane(first, s) && s.phase.Up? && p.ready == s.phase.proxy.ready && p.stream == s.phase.proxy.stream
    requires next >= s.next && (p.alarm.Some? ==> s.next <= p.alarm.value < next || p.alarm == s.phase.proxy.alarm)
    ensures Sane(first, s.(phase := Up(p), next := next))
  {
  }

  lemma AlarmSane(first: Target, s: State)
    requires Sane(first, s) && s.phase.Up?
    ensures Sane(first, ResetAlarm(s)) && Ready(ResetAlarm(s)) == Ready(s)
    ensures ResetAlarm(s).phase.proxy.stream == s.phase.proxy.stream
  {
    var p := s.phase.proxy;
    if p.patience > 0.0 {
      ProxySane(first, s, p.(alarm := Some(s.next)), s.next + 1);
    } else {
      ProxySane(first, s, p.(alarm := None), s.next);
    }
  }

  lemma RateSane(first: Target, s: State, rate: real)
    requires Sane(first, s) && s.phase.Up?
    ensures Sane(first, SetRate(s, rate)) && Ready(SetRate(s, rate)) == Ready(s)
    ensures SetRate(s, rate).phase.proxy.stream == s.phase.proxy.stream
  {
    var p := s.phase.proxy.(patience := rate * KEEP_ALIVES_UNTIL_DEATH);
    ProxySane(first, s, p, s.next);
    AlarmSane(first, s.(phase := Up(p)));
  }

  lemma {:induction false} RatesSane(first: Target, s: State, rates: seq<real>)
    requires Sane(first, s) && s.phase.Up?
    ensures Sane(first, SetRates(s, rates)) && Ready(SetRates(s, rates)) == Ready(s)
    ensures SetRates(s, rates).phase.proxy.stream == s.phase.proxy.stream
    decreases |rates|
  {
    if rates != [] {
      RateSane(first, s, rates[0]);
      RatesSane(first, SetRate(s, rates[0]), rates[1..]);
    }
  }

  lemma DropSane(first: Target, s: State, failed: bool)
    requires Sane(first, s)
    ensures Sane(first, Drop(s, failed))
  {
    LeaveSane(first, s, if failed then HasFailed else IsDisconnected);
  }

  lemma ReceiveSane(first: Target, s: State, m: Message)
    requires Sane(first, s) && s.phase.Up?
    ensures Sane(first, Receive(s, m))
  {
    match m {
      case SetOptions(rates) =>
        RatesSane(first, s, rates);
        if !s.phase.proxy.ready {
          CompleteSane(first, SetRates(s, rates));
        }
      case ResetOptions => RateSane(first, s, KEEP_ALIVE_RATE);
      case KeepAlive => AlarmSane(first, s);
      case Passing =>
      case Ordinary => DropSane(first, s, true);
      case Close => DropSane(first, s, false);
      case _ => DropSane(first, s, true);
    }
  }

  lemma {:induction false} ReceiveAllSane(first: Target, s: State, ms: seq<Message>)
    requires Sane(first, s)
    ensures Sane(first, ReceiveAll(s, ms))
    decreases |ms|
  {
    if ms != [] && s.phase.Up? {
      ReceiveSane(first, s, ms[0]);
      ReceiveAllSane(first, Receive(s, ms[0]), ms[1..]);
    }
  }

  lemma HelloSane(first: Target, s: State, env: Env)
    requires Sane(first, s)
    ensures Sane(first, Perform(s, OnHello, env))
  {
    LeaveSane(first, s, HasFailed);
    if s.phase.Greeting? {
      assert LastNews(s.news + [MoreInput(s.phase.stream)]) == LastNews(s.news);
    }
  }

  lemma PerformSane(first: Target, s: State, job: Job, env: Env)
    requires Sane(first, s)
    ensures Sane(first, Perform(s, job, env))
  {
    LeaveSane(first, s, HasFailed);
    LeaveSane(first, s, IsDisconnected);
    DropSane(first, s, true);
    DropSane(first, s, false);
    if job.OnResume? {
      ConnectSane(first, s.(suspended := false, connectOnResume := false), env.outcome);
    } else if job.OnHello? {
      HelloSane(first, s, env);
    } else if job.OnData? {
      ReceiveAllSane(first, s, env.messages);
    }
  }

  lemma NextSane(dragDrop: bool, first: Target, s: State, input: Input)
    requires Sane(first, s)
    ensures Sane(first, Next(dragDrop, s, input))
  {
    match input {
      case Connect(outcome) => ConnectSane(first, s, outcome);
      case Disconnect(failed) => DropSane(first, s, failed);
      case Dispatch(k, env) =>
        if Handler(dragDrop, s.phase, k).Some? {
          PerformSane(first, s, Handler(dragDrop, s.phase, k).value, env);
        }
    }
  }

  /** From any sane state, whatever the user does and whatever events arrive in whatever order, stale
      ones included, every state is sane. */
  lemma {:induction false} AlwaysSane(dragDrop: bool, first: Target, start: State, inputs: seq<Input>)
    requires Sane(first, start)
    ensures Sane(first, After(dragDrop, start, inputs))
  {
    if inputs != [] {
      AlwaysSane(dragDrop, first, start, inputs[..|inputs| - 1]);
      NextSane(dragDrop, first, After(dragDrop, start, inputs[..|inputs| - 1]), inputs[|inputs| - 1]);
    }
  }

  // ---------- handlers that find what they use ----------

  const FILE_CHUNK := Key(FileChunkSending, CLIENT)

  /** The phases in which a handler can do its work: the stream or the proxy it uses is there. */
  predicate Suits(phase: Phase, job: Job) {
    match job
    case OnConnected => phase.Connecting?
    case OnConnectionFailed => phase.Connecting?
    case OnConnectTimeout => phase.Connecting? || phase.Greeting?
    case OnHello => phase.Greeting?
    case OnDisconnected => phase.Greeting? || phase.Up?
    case OnOutputError => phase.Greeting? || phase.Up?
    case OnData => phase.Up?
    case OnKeepAliveAlarm => phase.Up?
    case OnShapeChanged => phase.Up?
    case OnClipboardGrabbed => phase.Up?
    case OnFileChunkSending => phase.Up?
    case OnSuspend => true
    case OnResume => true
    case OnFileReceived => true
    case Foreign(_) => true
  }

  /** A handler is registered in a phase that it does not suit if and only if it is the one for chunks of
      files to send and there is no proxy. */
  lemma HandlersSuit(dragDrop: bool, phase: Phase, k: Key)
    ensures var job := Handler(dragDrop, phase, k);
      job.Some? ==> (Suits(phase, job.value) <==> !(dragDrop && k == FILE_CHUNK && !phase.Up?))
  {
  }

  /** The input finds a handler that lacks what it uses. */
  predicate Fails(dragDrop: bool, s: State, input: Input) {
    input.Dispatch?
    && var job := Handler(dragDrop, s.phase, input.key);
       job.Some? && !Suits(s.phase, job.value)
  }

  lemma FailsIff(dragDrop: bool, s: State, input: Input)
    ensures Fails(dragDrop, s, input) <==> dragDrop && input.Dispatch? && input.key == FILE_CHUNK && !s.phase.Up?
  {
    if input.Dispatch? {
      HandlersSuit(dragDrop, s.phase, input.key);
    }
  }

  predicate NeverFails(dragDrop: bool, start: State, inputs: seq<Input>) {
    inputs == [] || (NeverFails(dragDrop, start, inputs[..|inputs| - 1])
                     && !Fails(dragDrop, After(dragDrop, start, inputs[..|inputs| - 1]), inputs[|inputs| - 1]))
  }

  /** A chunk of a file to send is announced while the client is not connected. */
  predicate ChunkWhileDown(dragDrop: bool, start: State, inputs: seq<Input>, i: nat)
    requires i < |inputs|
  {
    inputs[i].Dispatch? && inputs[i].key == FILE_CHUNK && !After(dragDrop, start, inputs[..i]).phase.Up?
  }

  /** From any state, whatever the user does and whatever events arrive, every handler that is run finds
      what it uses, if and only if drag and drop is off or no chunk comes while there is no proxy. */
  lemma {:induction false} NeverFailsIff(dragDrop: bool, start: State, inputs: seq<Input>)
    ensures NeverFails(dragDrop, start, inputs)
      <==> !dragDrop || forall i :: 0 <= i < |inputs| ==> !ChunkWhileDown(dragDrop, start, inputs, i)
  {
    if inputs != [] {
      var k := |inputs| - 1;
      var before, s := inputs[..k], After(dragDrop, start, inputs[..k]);
      NeverFailsIff(dragDrop, start, before);
      forall i | 0 <= i < k
        ensures ChunkWhileDown(dragDrop, start, before, i) == ChunkWhileDown(dragDrop, start, inputs, i)
      {
        assert before[..i] == inputs[..i];
      }
      FailsIff(dragDrop, s, inputs[k]);
      assert Fails(dragDrop, s, inputs[k]) <==> dragDrop && ChunkWhileDown(dragDrop, start, inputs, k);
    }
  }

  lemma OneMore(dragDrop: bool, start: State, inputs: seq<Input>, input: Input)
    ensures After(dragDrop, start, inputs + [input]) == Next(dragDrop, After(dragDrop, start, inputs), input)
  {
    assert (inputs + [input])[..|inputs|] == inputs;
  }

  /** The client connects, is greeted, and loses the connection while a chunk is on its way. */
  lemma ChunkAfterDisconnecting(env: Env)
    requires env.hello.Compatible?
    ensures var start := State(Idle, false, false, 2, [], []);
      var up := [Connect(Started)] + [Dispatch(Key(Connected, 3), env)] + [Dispatch(Key(InputReady, 3), env)];
      && After(true, start, up).phase.Up? && !Fails(true, After(true, start, up), Dispatch(FILE_CHUNK, env))
      && Fails(true, After(true, start, up + [Disconnect(false)]), Dispatch(FILE_CHUNK, env))
  {
    var start := State(Idle, false, false, 2, [], []);
    var one := [Connect(Started)];
    var two := one + [Dispatch(Key(Connected, 3), env)];
    assert [] + one == one;
    OneMore(true, start, [], Connect(Started));
    OneMore(true, start, one, Dispatch(Key(Connected, 3), env));
    OneMore(true, start, two, Dispatch(Key(InputReady, 3), env));
    OneMore(true, start, two + [Dispatch(Key(InputReady, 3), env)], Disconnect(false));
  }

  // ---------- suspending ----------

  const SUSPEND := Key(Suspend, SCREEN)
  const RESUME := Key(Resume, SCREEN)

  predicate NoResume(inputs: seq<Input>) {
    forall input :: input in inputs ==> !(input.Dispatch? && input.key == RESUME)
  }

  /** Whether a suspended client is to connect again: the last input that has a say decides.  The user's
      connect asks for it; the user's disconnect, and being told to suspend again, call it off. */
  function Wanted(before: bool, inputs: seq<Input>): bool {
    if inputs == [] then before else
    match inputs[|inputs| - 1]
    case Connect(_) => true
    case Disconnect(_) => false
    case Dispatch(k, _) => k != SUSPEND && Wanted(before, inputs[..|inputs| - 1])
  }

  lemma {:induction false} WhileSuspended(dragDrop: bool, s: State, inputs: seq<Input>)
    requires s.suspended && s.phase == Idle && NoResume(inputs)
    ensures var s' := After(dragDrop, s, inputs);
      s'.suspended && s'.phase == Idle && s'.connectOnResume == Wanted(s.connectOnResume, inputs)
  {
    if inputs != [] {
      var before, last := inputs[..|inputs| - 1], inputs[|inputs| - 1];
      assert last in inputs && forall i :: i in before ==> i in inputs;
      WhileSuspended(dragDrop, s, before);
      if last.Dispatch? && last.key != SUSPEND {
        assert Handler(dragDrop, Idle, last.key) in {None, Some(OnFileChunkSending), Some(OnFileReceived)};
      }
    }
  }

  /** Whatever comes between, resuming starts a new connection if and only if one is wanted then; at the
      suspension it is wanted if the client was connected, and not if it was only connecting. */
  lemma ResumeReconnects(dragDrop: bool, s: State, meanwhile: seq<Input>, env: Env, env': Env)
    requires NoResume(meanwhile)
    ensures var suspended := Next(dragDrop, s, Dispatch(SUSPEND, env));
      var resumed := Next(dragDrop, After(dragDrop, suspended, meanwhile), Dispatch(RESUME, env'));
      && suspended.phase == Idle && !resumed.suspended
      && (resumed.phase.Connecting? <==> Wanted(s.phase.Up?, meanwhile) && env'.outcome == Started)
      && (!resumed.phase.Connecting? ==> resumed.phase == Idle)
  {
    WhileSuspended(dragDrop, Next(dragDrop, s, Dispatch(SUSPEND, env)), meanwhile);
  }

  lemma {:induction false} WantedAfter(before: bool, earlier: seq<Input>, env: Env, later: seq<Input>)
    ensures Wanted(before, earlier + [Dispatch(SUSPEND, env)] + later) == Wanted(false, later)
  {
    var all := earlier + [Dispatch(SUSPEND, env)] + later;
    if later == [] {
      assert all[|all| - 1] == Dispatch(SUSPEND, env);
    } else {
      assert all[|all| - 1] == later[|later| - 1];
      assert all[..|all| - 1] == earlier + [Dispatch(SUSPEND, env)] + later[..|later| - 1];
      WantedAfter(before, earlier, env, later[..|later| - 1]);
    }
  }

  /** Being told to suspend again, the client forgets that it was connected: from then on only what the
      user asks for afterwards counts. */
  lemma SecondSuspendForgets(dragDrop: bool, s: State, earlier: seq<Input>, later: seq<Input>, env: Env, env': Env)
    requires NoResume(earlier) && NoResume(later)
    ensures var again := earlier + [Dispatch(SUSPEND, env)] + later;
      var resumed := Next(dragDrop, After(dragDrop, Next(dragDrop, s, Dispatch(SUSPEND, env)), again), Dispatch(RESUME, env'));
      resumed.phase.Connecting? <==> Wanted(false, later) && env'.outcome == Started
  {
    var again := earlier + [Dispatch(SUSPEND, env)] + later;
    WantedAfter(s.phase.Up?, earlier, env, later);
    ResumeReconnects(dragDrop, s, again, env, env');
  }
}
