/** What the client's inputs come to, told by their outcome: which messages and events end a connection and
    with what news, which keep it, and what becomes of its alarm. */
module ClientOutcomes {
  import opened Options
  import opened ClientStates

  // ---------- addresses ----------

  /** The streams and timers of a phase. */
  function Targets(phase: Phase): set<Target> {
    match phase
    case Idle => {}
    case Connecting(stream, timer) => {stream, timer}
    case Greeting(stream, timer) => {stream, timer}
    case Up(p) => if p.alarm.Some? then {p.stream, p.alarm.value} else {p.stream}
  }

  /** From s to s' only new addresses have come up. */
  predicate OnlyNew(s: State, s': State) {
    s'.next >= s.next && forall t :: t in Targets(s'.phase) ==> t in Targets(s.phase) || t >= s.next
  }

  lemma {:induction false} RatesOnlyNew(s: State, rates: seq<real>)
    requires s.phase.Up?
    ensures OnlyNew(s, SetRates(s, rates))
    decreases |rates|
  {
    if rates != [] {
      RatesOnlyNew(SetRate(s, rates[0]), rates[1..]);
    }
  }

  lemma ReceiveOnlyNew(s: State, m: Message)
    requires s.phase.Up?
    ensures OnlyNew(s, Receive(s, m))
  {
    if m.SetOptions? {
      RatesOnlyNew(s, m.rates);
    }
  }

  lemma {:induction false} ReceiveAllOnlyNew(s: State, ms: seq<Message>)
    ensures OnlyNew(s, ReceiveAll(s, ms))
    decreases |ms|
  {
    if ms != [] && s.phase.Up? {
      ReceiveOnlyNew(s, ms[0]);
      ReceiveAllOnlyNew(Receive(s, ms[0]), ms[1..]);
    }
  }

  lemma ConnectOnlyNew(s: State, outcome: Outcome)
    ensures OnlyNew(s, ConnectTo(s, outcome))
  {
  }

  lemma PerformOnlyNew(s: State, job: Job, env: Env)
    ensures OnlyNew(s, Perform(s, job, env))
  {
    match job {
      case OnResume => ConnectOnlyNew(s.(suspended := false, connectOnResume := false), env.outcome);
      case OnData => ReceiveAllOnlyNew(s, env.messages);
      case _ =>
    }
  }

  lemma NextOnlyNew(dragDrop: bool, s: State, input: Input)
    ensures OnlyNew(s, Next(dragDrop, s, input))
  {
    match input {
      case Connect(outcome) => ConnectOnlyNew(s, outcome);
      case Disconnect(failed) =>
      case Dispatch(k, env) =>
        var job := Handler(dragDrop, s.phase, k);
        if job.Some? {
          PerformOnlyNew(s, job.value, env);
        }
    }
  }

  /** A stream or timer that has been given up stays given up: in every run from there its events, of
      whatever kind, do nothing. */
  lemma {:induction false} GivenUpForGood(dragDrop: bool, s: State, inputs: seq<Input>, t: Target, kind: Kind, env: Env)
    requires 2 <= t < s.next && t !in Targets(s.phase)
    ensures var s' := After(dragDrop, s, inputs);
      && t < s'.next && t !in Targets(s'.phase)
      && Handler(dragDrop, s'.phase, Key(kind, t)) == None
      && Next(dragDrop, s', Dispatch(Key(kind, t), env)) == s'
  {
    if inputs != [] {
      GivenUpForGood(dragDrop, s, inputs[..|inputs| - 1], t, kind, env);
      NextOnlyNew(dragDrop, After(dragDrop, s, inputs[..|inputs| - 1]), inputs[|inputs| - 1]);
    }
  }

  // ---------- the keep-alive alarm ----------

  /** The messages on which the alarm is set anew. */
  predicate Renews(m: Message) { m.KeepAlive? || m.ResetOptions? || (m.SetOptions? && m.rates != []) }

  /** The seconds of silence that the client bears afterwards. */
  function PatienceAfter(before: real, m: Message): real {
    match m
    case SetOptions(rates) => if rates == [] then before else 3.0 * rates[|rates| - 1]
    case ResetOptions => 9.0
    case _ => before
  }

  lemma {:induction false} LastRateCounts(first: Target, s: State, rates: seq<real>)
    requires Sane(first, s) && s.phase.Up? && rates != []
    ensures var s' := SetRates(s, rates);
      && s'.phase.proxy.patience == 3.0 * rates[|rates| - 1]
      && (if s'.phase.proxy.patience > 0.0 then s'.phase.proxy.alarm.Some? && s.next <= s'.phase.proxy.alarm.value < s'.next
          else s'.phase.proxy.alarm == None)
    decreases |rates|
  {
    RateSane(first, s, rates[0]);
    if |rates| > 1 {
      LastRateCounts(first, SetRate(s, rates[0]), rates[1..]);
    }
  }

  /** After such a message the patience is as it says, a new alarm is set if there is an end to it, and the
      old one no longer has a handler; other messages that keep the connection keep the alarm. */
  lemma AlarmAfter(dragDrop: bool, first: Target, s: State, m: Message)
    requires Sane(first, s) && s.phase.Up? && Receive(s, m).phase.Up?
    ensures var s', p, p' := Receive(s, m), s.phase.proxy, Receive(s, m).phase.proxy;
      && p'.stream == p.stream && p'.patience == PatienceAfter(p.patience, m)
      && (!Renews(m) ==> p'.alarm == p.alarm)
      && (Renews(m) && p'.patience <= 0.0 ==> p'.alarm == None)
      && (Renews(m) && p'.patience > 0.0 ==>
            && p'.alarm.Some? && s.next <= p'.alarm.value < s'.next
            && Handler(dragDrop, s'.phase, Key(Timer, p'.alarm.value)) == Some(OnKeepAliveAlarm))
      && (Renews(m) && p.alarm.Some? ==> Handler(dragDrop, s'.phase, Key(Timer, p.alarm.value)) == None)
  {
    if m.SetOptions? {
      if m.rates != [] {
        LastRateCounts(first, s, m.rates);
        RatesSane(first, s, m.rates);
      }
    }
    if Renews(m) {
      OldAndNew(dragDrop, first, s, Receive(s, m));
    }
  }

  /** Of a set alarm and one set anew, on the same stream, only the new one has a handler. */
  lemma OldAndNew(dragDrop: bool, first: Target, s: State, s': State)
    requires NewAddresses(first, s) && s.phase.Up? && s'.phase.Up? && s'.phase.proxy.stream == s.phase.proxy.stream
    requires s'.phase.proxy.alarm.Some? ==> s.next <= s'.phase.proxy.alarm.value
    ensures var p, p' := s.phase.proxy, s'.phase.proxy;
      && (p.alarm.Some? ==> Handler(dragDrop, s'.phase, Key(Timer, p.alarm.value)) == None)
      && (p'.alarm.Some? ==> Handler(dragDrop, s'.phase, Key(Timer, p'.alarm.value)) == Some(OnKeepAliveAlarm))
  {
  }

  /** Once renewed, the old alarm never has an effect again, whatever happens afterwards... */
  lemma OldAlarmIsDead(dragDrop: bool, first: Target, s: State, m: Message, inputs: seq<Input>, env: Env)
    requires Sane(first, s) && s.phase.Up? && s.phase.proxy.alarm.Some? && Renews(m) && Receive(s, m).phase.Up?
    ensures var s' := After(dragDrop, Receive(s, m), inputs);
      Next(dragDrop, s', Dispatch(Key(Timer, s.phase.proxy.alarm.value), env)) == s'
  {
    AlarmAfter(dragDrop, first, s, m);
    ReceiveOnlyNew(s, m);
    GivenUpForGood(dragDrop, Receive(s, m), inputs, s.phase.proxy.alarm.value, Timer, env);
  }

  // ---------- how connections end ----------

  /** The connection is gone, with this news and with the screen disabled if it was enabled; what else the
      client knows is as before. */
  predicate Ended(s: State, s': State, why: News) {
    && s'.phase == Idle && s'.news == s.news + [why]
    && s'.screen == (if Ready(s) then s.screen + [Disable] else s.screen)
    && s'.next == s.next && s'.suspended == s.suspended
  }

  /** ...and the alarm that is set ends the connection. */
  lemma AlarmEnds(dragDrop: bool, s: State, env: Env)
    requires s.phase.Up? && s.phase.proxy.alarm.Some? && s.phase.proxy.alarm.value >= 2
    ensures var s' := Next(dragDrop, s, Dispatch(Key(Timer, s.phase.proxy.alarm.value), env));
      Ended(s, s', HasFailed) && !s'.connectOnResume
  {
  }

  /** Which messages end the connection, and how; the others keep its stream, and the connection is ready
      from the first option message on. */
  lemma MessageEnds(first: Target, s: State, m: Message)
    requires Sane(first, s) && s.phase.Up?
    ensures var s' := Receive(s, m);
      && (!s'.phase.Up? <==> m in {Close, Bad, Refusal, Garbage} || (m == Ordinary && !Ready(s)))
      && (!s'.phase.Up? ==> Ended(s, s', if m == Close then IsDisconnected else HasFailed) && !s'.connectOnResume)
      && (s'.phase.Up? ==>
            && s'.phase.proxy.stream == s.phase.proxy.stream
            && Ready(s') == (Ready(s) || m.SetOptions?)
            && s'.suspended == s.suspended && s'.connectOnResume == s.connectOnResume
            && s'.screen == (if Ready(s') && !Ready(s) then s.screen + [Enable] else s.screen)
            && s'.news == (if Ready(s') && !Ready(s) then s.news + [IsConnected] else s.news))
  {
    if m.SetOptions? {
      RatesSane(first, s, m.rates);
      RatesKeep(s, m.rates);
    }
  }

  lemma {:induction false} RatesKeep(s: State, rates: seq<real>)
    requires s.phase.Up?
    ensures var s' := SetRates(s, rates);
      && s'.screen == s.screen && s'.news == s.news && s'.suspended == s.suspended && s'.connectOnResume == s.connectOnResume
    decreases |rates|
  {
    if rates != [] {
      RatesKeep(SetRate(s, rates[0]), rates[1..]);
    }
  }

  /** Losing the stream ends a greeted or greeting connection, whichever way it is noticed. */
  lemma LostStreamEnds(dragDrop: bool, first: Target, s: State, kind: Kind, env: Env)
    requires Sane(first, s) && kind in {Disconnected, InputShutdown, OutputShutdown, OutputError}
    requires s.phase.Greeting? || s.phase.Up?
    ensures var stream := if s.phase.Greeting? then s.phase.stream else s.phase.proxy.stream;
      var s' := Next(dragDrop, s, Dispatch(Key(kind, stream), env));
      Ended(s, s', IsDisconnected) && s'.connectOnResume == s.connectOnResume
  {
  }

  /** A connection that is not greeted in time, or cannot be made at all, has failed. */
  lemma NotConnectedEnds(dragDrop: bool, first: Target, s: State, env: Env)
    requires Sane(first, s) && (s.phase.Connecting? || s.phase.Greeting?)
    ensures Ended(s, Next(dragDrop, s, Dispatch(Key(Timer, s.phase.timer), env)), HasFailed)
    ensures s.phase.Connecting? ==> Ended(s, Next(dragDrop, s, Dispatch(Key(ConnectionFailed, s.phase.stream), env)), HasFailed)
  {
  }

  /** The user's disconnect, and suspending, end whatever there is and are told even if there is nothing. */
  lemma DisconnectingEnds(dragDrop: bool, s: State, failed: bool, env: Env)
    ensures var s' := Next(dragDrop, s, Disconnect(failed));
      Ended(s, s', if failed then HasFailed else IsDisconnected) && !s'.connectOnResume
    ensures var s' := Next(dragDrop, s, Dispatch(SUSPEND, env));
      Ended(s.(suspended := true), s', IsDisconnected) && s'.connectOnResume == s.phase.Up?
  {
  }

  // ---------- how connections are made ----------

  /** Connecting starts only from nothing and not while suspended, and then on a new stream with a new
      timer; if it cannot start that is told. */
  lemma ConnectingStarts(dragDrop: bool, s: State, outcome: Outcome)
    ensures var s' := Next(dragDrop, s, Connect(outcome));
      && (s.phase != Idle ==> s' == s)
      && (s.phase == Idle && s.suspended ==> s' == s.(connectOnResume := true))
      && (s.phase == Idle && !s.suspended && outcome != Started ==> Ended(s.(next := s'.next), s', HasFailed) && s'.next >= s.next)
      && (s.phase == Idle && !s.suspended && outcome == Started ==>
            && s'.phase.Connecting? && s.next <= s'.phase.stream < s'.next && s.next <= s'.phase.timer < s'.next
            && s'.phase.stream != s'.phase.timer && s' == s.(phase := s'.phase, next := s'.next))
  {
  }

  /** The same stream goes through connecting and greeting, under the same timer, to a connection that is
      not ready yet and bears nine seconds of silence; a greeting that is not understood has failed. */
  lemma GreetingGoesOn(dragDrop: bool, first: Target, s: State, env: Env)
    requires Sane(first, s)
    ensures s.phase.Connecting? ==>
      Next(dragDrop, s, Dispatch(Key(Connected, s.phase.stream), env)) == s.(phase := Greeting(s.phase.stream, s.phase.timer))
    ensures s.phase.Greeting? ==>
      var s' := Next(dragDrop, s, Dispatch(Key(InputReady, s.phase.stream), env));
      if !env.hello.Compatible? then Ended(s, s', HasFailed)
      else
        && s'.phase == Up(Proxy(s.phase.stream, 9.0, Some(s.next), false)) && s'.screen == s.screen
        && s'.news == s.news + (if env.hello.more then [MoreInput(s.phase.stream)] else [])
        && Handler(dragDrop, s'.phase, Key(Timer, s.phase.timer)) == None
  {
  }

  /** While there is a connection the screen's events reach it, and otherwise nobody. */
  lemma ScreenReachesProxy(dragDrop: bool, phase: Phase)
    ensures Handler(dragDrop, phase, Key(ShapeChanged, SCREEN)) == if phase.Up? then Some(OnShapeChanged) else None
    ensures Handler(dragDrop, phase, Key(ClipboardGrabbed, SCREEN)) == if phase.Up? then Some(OnClipboardGrabbed) else None
    ensures phase.Up? && phase.proxy.stream >= 2 && phase.proxy.alarm != Some(phase.proxy.stream) ==>
      Handler(dragDrop, phase, Key(InputReady, phase.proxy.stream)) == Some(OnData)
  {
  }

  /** Input on a connected stream is handed to the parsers, message by message. */
  lemma InputIsParsed(dragDrop: bool, first: Target, s: State, env: Env)
    requires Sane(first, s) && s.phase.Up?
    ensures var s' := Next(dragDrop, s, Dispatch(Key(InputReady, s.phase.proxy.stream), env));
      if env.messages == [] then s' == s
      else s' == ReceiveAll(Receive(s, env.messages[0]), env.messages[1..])
  {
  }

  /** Messages are handled one after the other until one ends the connection; the rest is not looked at. */
  lemma {:induction false} HandledUntilEnd(s: State, ms: seq<Message>, more: seq<Message>)
    ensures ReceiveAll(s, ms + more) == ReceiveAll(ReceiveAll(s, ms), more)
    ensures !ReceiveAll(s, ms).phase.Up? ==> ReceiveAll(s, ms + more) == ReceiveAll(s, ms)
    decreases |ms|
  {
    if ms == [] {
      assert ms + more == more;
    } else if s.phase.Up? {
      assert (ms + more)[1..] == ms[1..] + more;
      HandledUntilEnd(Receive(s, ms[0]), ms[1..], more);
    }
  }
}
