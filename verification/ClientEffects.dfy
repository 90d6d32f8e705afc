/** What each event makes the rendezvous client do, in every run: what the application sees, what
    goes out, and how requests move. */
module ClientEffects {
  import opened Prelude
  import opened Shifts
  import opened RendezvousClient
  import N = RequestReply

  lemma RunSnoc(opts: Options, events: seq<Event>, e: Event)
    requires Run(opts, events).Some? && Possible(Run(opts, events).value, e)
    ensures Run(opts, events + [e]) == Some(Next(Run(opts, events).value, e))
  {
    assert (events + [e])[..|events|] == events;
  }

  // ── A pending request has been sent ──────────────────────────────────────

  function LastSent(log: seq<Out>): Option<(nat, Call)> {
    var wire := Wire(log);
    if wire == [] then None else Some(wire[|wire| - 1])
  }

  ghost predicate SentInv(c: Client) {
    c.pending.Some? && InPhase(c, {Open}) ==> LastSent(c.log) == Some((c.ws.value.id, c.pending.value))
  }

  /** A call that takes the slot of an open connection goes out with that. */
  lemma ReleaseSends(c: Client)
    requires c.pending.None?
    ensures Release(c).ws == c.ws
    ensures Release(c).pending.Some? && InPhase(c, {Open}) ==>
              Wire(Release(c).log) == Wire(c.log) + [(c.ws.value.id, Release(c).pending.value)]
  {
    ReleaseFrame(c);
    if c.queue != [] && c.ws.Some? {
      LogSnoc(c.log, SendRequest(c.ws.value.id, c.queue[0]));
    }
  }

  /** Before the release, a step only frees the slot, and opens a socket only with a free slot. */
  lemma MiddleSlot(c: Client, e: Event)
    requires ConnectionInv(c) && RequestInv(c) && Possible(c, e)
    ensures var mid := BeforeRelease(c, e);
      mid.pending.Some? ==> mid.pending == c.pending && (InPhase(mid, {Open}) ==> mid.ws == c.ws)
  {
    hide Accounted, Mul2;
  }

  lemma SentStep(c: Client, e: Event)
    requires Inv(c) && SentInv(c) && Possible(c, e)
    ensures SentInv(Next(c, e))
  {
    var mid := BeforeRelease(c, e);
    StepThenRelease(c, e);
    MiddleSlot(c, e);
    MiddleSameWire(c, e);
    hide Next, Possible, BeforeRelease, Wire, ConnectionInv, RequestInv, WireInv, BackoffInv, SilenceInv;
    if mid.pending.None? {
      ReleaseSends(mid);
    }
  }

  lemma {:induction false} SentRun(opts: Options, events: seq<Event>)
    requires Run(opts, events).Some?
    ensures SentInv(Run(opts, events).value)
  {
    if events == [] {
    } else {
      hide Inv, SentInv, Next, Possible;
      var init := events[..|events| - 1];
      SentRun(opts, init);
      InvRun(opts, init);
      SentStep(Run(opts, init).value, events[|events| - 1]);
    }
  }

  /** In every run, while a call is pending on an open connection, its frame has left on that very
      socket, and it is the last request that did. */
  lemma {:induction false} PendingIsSent(opts: Options, events: seq<Event>)
    requires Run(opts, events).Some?
    requires var c := Run(opts, events).value; c.pending.Some? && InPhase(c, {Open})
    ensures var c := Run(opts, events).value;
      LastSent(c.log) == Some((c.ws.value.id, c.pending.value))
  {
    SentRun(opts, events);
  }

  // ── Requests ─────────────────────────────────────────────────────────────

  /** In every run a request of a ready client is accepted; it goes out at once on an open
      connection when the slot is free, and queues last when it is not. Any other client throws. */
  lemma RequestTaken(opts: Options, events: seq<Event>, expected: ReplyType)
    requires Run(opts, events).Some?
    ensures var c, end := Run(opts, events).value, Run(opts, events + [CallRequest(expected)]);
      && end.Some?
      && (if !c.fsm.Ready? then end.value == Log(c, Throws)
          else
            && c.ws.Some? && end.value.calls == c.calls + 1
            && var call := Call(c.calls, expected, c.ws.value.id);
               if c.pending.Some? then
                 end.value.pending == c.pending && end.value.queue == c.queue + [call] && Wire(end.value.log) == Wire(c.log)
               else
                 && end.value.pending == Some(call) && end.value.queue == []
                 && Wire(end.value.log) == Wire(c.log) + if InPhase(c, {Open}) then [(c.ws.value.id, call)] else [])
  {
    InvRun(opts, events);
    var c := Run(opts, events).value;
    RunSnoc(opts, events, CallRequest(expected));
    if c.fsm.Ready? {
      ReadyTakes(c, expected);
    }
    // Hidden in the goal only, here and below: the steps before need the definitions.
    hide Run, Inv, Release, Wire;
  }

  lemma ReadyTakes(c: Client, expected: ReplyType)
    requires Inv(c) && c.fsm.Ready?
    ensures c.ws.Some?
    ensures var d, call := Next(c, CallRequest(expected)), Call(c.calls, expected, c.ws.value.id);
      && d.calls == c.calls + 1
      && (if c.pending.Some? then d.pending == c.pending && d.queue == c.queue + [call] && Wire(d.log) == Wire(c.log)
          else
            && d.pending == Some(call) && d.queue == []
            && Wire(d.log) == Wire(c.log) + if InPhase(c, {Open}) then [(c.ws.value.id, call)] else [])
  {
    hide Accounted, Mul2, WireInv, BackoffInv, SilenceInv, Wire;
    var call := Call(c.calls, expected, c.ws.value.id);
    assert [] + [call] == [call] && [call][1..] == [];
    LogSnoc(c.log, Accepts(call));
    LogSnoc(c.log + [Accepts(call)], SendRequest(c.ws.value.id, call));
  }

  function OutcomeOf(f: Frame, expected: ReplyType): Option<Outcome> {
    if f.ErrorEnvelope? then Some(ServerError)
    else if f.Reply? && f.kind == expected then Some(Replied(f.origin))
    else None
  }

  /** In every run the awaited reply, or an error envelope, settles the pending call with just that;
      the first waiting call takes its place and goes out. Any other frame leaves requests alone. */
  lemma FrameSettles(opts: Options, events: seq<Event>, f: Frame)
    requires Run(opts, events).Some? && Run(opts, events).value.pending.Some?
    requires Possible(Run(opts, events).value, Receive(f))
    ensures var c, end := Run(opts, events).value, Run(opts, events + [Receive(f)]);
      && end.Some?
      && match OutcomeOf(f, c.pending.value.expected)
         case None => end.value.pending == c.pending && end.value.queue == c.queue && SettledIds(end.value.log) == SettledIds(c.log)
         case Some(outcome) =>
           && SettledIds(end.value.log) == SettledIds(c.log) + [c.pending.value.id]
           && Settles(c.pending.value.id, outcome) in end.value.log
           && (if c.queue == [] then end.value.pending.None? && end.value.queue == []
               else
                 && end.value.pending == Some(c.queue[0]) && end.value.queue == c.queue[1..]
                 && (InPhase(c, {Open}) ==> LastSent(end.value.log) == Some((c.ws.value.id, c.queue[0]))))
  {
    InvRun(opts, events);
    var c := Run(opts, events).value;
    RunSnoc(opts, events, Receive(f));
    FrameStep(c, f);
    hide Run, Next, Inv;
  }

  lemma FrameStep(c: Client, f: Frame)
    requires Inv(c) && c.pending.Some? && Possible(c, Receive(f))
    ensures var d := Next(c, Receive(f));
      match OutcomeOf(f, c.pending.value.expected)
      case None => d.pending == c.pending && d.queue == c.queue && SettledIds(d.log) == SettledIds(c.log)
      case Some(outcome) =>
        && SettledIds(d.log) == SettledIds(c.log) + [c.pending.value.id]
        && Settles(c.pending.value.id, outcome) in d.log
        && (if c.queue == [] then d.pending.None? && d.queue == []
            else
              && d.pending == Some(c.queue[0]) && d.queue == c.queue[1..]
              && (InPhase(c, {Open}) ==> LastSent(d.log) == Some((c.ws.value.id, c.queue[0]))))
  {
    hide Accounted, Mul2, WireInv, BackoffInv, SilenceInv, SettledIds, Wire;
    match OutcomeOf(f, c.pending.value.expected) {
      case None =>
        LogSnoc(c.log, EmitError);
        LogSnoc(c.log, EmitPush(f));
      case Some(outcome) =>
        var id := c.pending.value.id;
        LogSnoc(c.log, Settles(id, outcome));
        if c.queue != [] {
          LogSnoc(c.log + [Settles(id, outcome)], SendRequest(c.ws.value.id, c.queue[0]));
        }
    }
  }

  // ── What the application and the connection see ──────────────────────────

  /** Outputs other than those of requests. */
  predicate OfRequest(o: Out) {
    o.Accepts? || o.Settles? || o.SendRequest?
  }

  function Observed(log: seq<Out>): seq<Out> {
    if log == [] then []
    else
      var o := log[|log| - 1];
      Observed(log[..|log| - 1]) + if OfRequest(o) then [] else [o]
  }

  /** Reconnecting goes on after a close that nobody asked for, once there was a session. */
  predicate Recovers(c: Client) {
    c.opts.enabled && !Silenced(c.log) && (c.fsm.Ready? || c.attempt > 0)
  }

  /** What an event shows, told from the state, the connection and the history of calls. */
  function Shows(c: Client, e: Event): seq<Out> {
    match e
    case CallConnect =>
      if c.fsm.Disconnected? then [ConnectCalled, StateChange(Disconnected, Connecting), Opens(c.sockets)] else [Throws]
    case CallDisconnect =>
      [DisconnectCalled] + if c.fsm.Reconnecting? then [StateChange(Reconnecting, Disconnected), EmitDisconnect] else []
    case CallRequest(_) => if c.fsm.Ready? then [] else [Throws]
    case CallPush =>
      if !c.fsm.Ready? then [Throws]
      else if c.ws.Some? && c.ws.value.phase == Open then [SendPush(c.ws.value.id)] else []
    case SocketOpened =>
      if c.ws.None? then [] else [StateChange(Connecting, Registering), SendRegister(c.ws.value.id)]
    case SocketFailedToOpen => []
    case Receive(f) =>
      if f.Garbage? then [EmitError]
      else if f.SignalIn? || f.NotifyIn? then [EmitPush(f)]
      else if f.RegisterOk? && c.resolver then [StateChange(Registering, Ready), EmitRegistered]
      else []
    case RegisterTimesOut => []
    case SocketErrs => [EmitError]
    case TimerFires => [StateChange(Reconnecting, Connecting), Opens(c.sockets)]
    case SocketCloses =>
      [EmitDisconnect]
      + if !Recovers(c) then [StateChange(c.fsm, Disconnected)]
        else if c.attempt < c.opts.maxAttempts then
          [StateChange(c.fsm, Reconnecting), EmitReconnect(c.attempt + 1, Mul2(c.opts.baseDelay, c.attempt))]
        else [StateChange(c.fsm, Reconnecting), EmitReconnectFailed, StateChange(Reconnecting, Disconnected)]
  }

  lemma ObservedSnoc(log: seq<Out>, o: Out)
    ensures Observed(log + [o]) == Observed(log) + if OfRequest(o) then [] else [o]
  {
    assert (log + [o])[..|log|] == log;
  }

  lemma {:induction false} ReleaseShowsNothing(c: Client)
    ensures Observed(Release(c).log) == Observed(c.log)
    decreases |c.queue|
  {
    if c.queue == [] {
    } else {
      var call, rest := c.queue[0], c.(queue := c.queue[1..]);
      if c.ws.None? {
        ObservedSnoc(c.log, Settles(call.id, SendFailed));
        ReleaseShowsNothing(Log(rest, Settles(call.id, SendFailed)));
      } else {
        ObservedSnoc(c.log, SendRequest(c.ws.value.id, call));
      }
    }
  }

  lemma ObservedTwo(log: seq<Out>, a: Out, b: Out)
    requires !OfRequest(a) && !OfRequest(b)
    ensures Observed(log + [a] + [b]) == Observed(log) + [a, b]
  {
    ObservedSnoc(log, a);
    ObservedSnoc(log + [a], b);
  }

  lemma CloseShows(c: Client)
    requires Inv(c) && Possible(c, SocketCloses)
    ensures Observed(OnClose(c).log) == Observed(c.log) + Shows(c, SocketCloses)
  {
    hide Accounted, Mul2, WireInv, BackoffInv, Observed, Silenced;
    var log := if c.pending.Some? then c.log + [Settles(c.pending.value.id, ConnectionClosed)] else c.log;
    if c.pending.Some? {
      ObservedSnoc(c.log, Settles(c.pending.value.id, ConnectionClosed));
    }
    ObservedSnoc(log, EmitDisconnect);
    var log1 := log + [EmitDisconnect];
    ObservedSnoc(log1, StateChange(c.fsm, Disconnected));
    ObservedSnoc(log1, StateChange(c.fsm, Reconnecting));
    var log2 := log1 + [StateChange(c.fsm, Reconnecting)];
    ObservedSnoc(log2, EmitReconnect(c.attempt + 1, Mul2(c.opts.baseDelay, c.attempt)));
    ObservedTwo(log2, EmitReconnectFailed, StateChange(Reconnecting, Disconnected));
  }

  lemma MiddleShows(c: Client, e: Event)
    requires Inv(c) && Possible(c, e)
    ensures Observed(BeforeRelease(c, e).log) == Observed(c.log) + Shows(c, e)
  {
    hide Accounted, Mul2, WireInv, BackoffInv, SilenceInv, Observed;
    match e {
      case CallConnect =>
        ObservedSnoc(c.log, Throws);
        ObservedSnoc(c.log, ConnectCalled);
        ObservedTwo(c.log + [ConnectCalled], StateChange(Disconnected, Connecting), Opens(c.sockets));
      case CallDisconnect =>
        ObservedSnoc(c.log, DisconnectCalled);
        ObservedTwo(c.log + [DisconnectCalled], StateChange(Reconnecting, Disconnected), EmitDisconnect);
      case CallRequest(expected) =>
        ObservedSnoc(c.log, Throws);
        ObservedSnoc(c.log, Accepts(Call(c.calls, expected, if c.ws.Some? then c.ws.value.id else 0)));
      case CallPush =>
        ObservedSnoc(c.log, Throws);
        if c.ws.Some? {
          ObservedSnoc(c.log, SendPush(c.ws.value.id));
        }
      case SocketOpened =>
        ObservedTwo(c.log, StateChange(Connecting, Registering), SendRegister(c.ws.value.id));
      case Receive(f) => ReceiveShows(c, f);
      case SocketCloses => CloseShows(c);
      case SocketErrs => ObservedSnoc(c.log, EmitError);
      case TimerFires => ObservedTwo(c.log, StateChange(Reconnecting, Connecting), Opens(c.sockets));
      case _ =>
    }
  }

  lemma ReceiveShows(c: Client, f: Frame)
    requires Inv(c) && Possible(c, Receive(f))
    ensures Observed(BeforeRelease(c, Receive(f)).log) == Observed(c.log) + Shows(c, Receive(f))
  {
    hide Accounted, Mul2, WireInv, BackoffInv, SilenceInv, Observed;
    ObservedSnoc(c.log, EmitError);
    ObservedSnoc(c.log, EmitPush(f));
    ObservedTwo(c.log, StateChange(Registering, Ready), EmitRegistered);
    if c.pending.Some? {
      ObservedSnoc(c.log, Settles(c.pending.value.id, ServerError));
      if f.Reply? {
        ObservedSnoc(c.log, Settles(c.pending.value.id, Replied(f.origin)));
      }
    }
  }

  /** In every run each event shows exactly what the table says, in that order. In particular
      register_ok makes a registering client ready, and a close that nobody asked for arms a
      reconnect exactly when reconnecting is enabled, there was a session, and attempts are left. */
  lemma {:induction false} EventsShow(opts: Options, events: seq<Event>, e: Event)
    requires Run(opts, events).Some? && Possible(Run(opts, events).value, e)
    ensures var c, end := Run(opts, events).value, Run(opts, events + [e]);
      end.Some? && Observed(end.value.log) == Observed(c.log) + Shows(c, e)
  {
    InvRun(opts, events);
    var c := Run(opts, events).value;
    RunSnoc(opts, events, e);
    MiddleShows(c, e);
    StepThenRelease(c, e);
    ReleaseShowsNothing(BeforeRelease(c, e));
    hide Run, Observed, Shows, Inv, Next;
  }

  // ── The fields follow what was shown ─────────────────────────────────────

  /** The state after some outputs. */
  function StateAfter(before: Fsm, outs: seq<Out>): Fsm {
    if outs == [] then before
    else
      var o := outs[|outs| - 1];
      if o.StateChange? then o.to else StateAfter(before, outs[..|outs| - 1])
  }

  lemma StateAfterSnoc(before: Fsm, outs: seq<Out>, o: Out)
    ensures StateAfter(before, outs + [o]) == if o.StateChange? then o.to else StateAfter(before, outs)
  {
    assert (outs + [o])[..|outs|] == outs;
  }

  /** The state that the closing of a socket shows. */
  lemma CloseState(c: Client)
    requires Inv(c) && Possible(c, SocketCloses)
    ensures OnClose(c).fsm == StateAfter(c.fsm, Shows(c, SocketCloses))
  {
    hide Accounted, Mul2, WireInv, BackoffInv, Silenced;
    var first := [EmitDisconnect];
    var again := first + [StateChange(c.fsm, Reconnecting)];
    assert first[..0] == [];
    StateAfterSnoc(c.fsm, first, StateChange(c.fsm, Disconnected));
    StateAfterSnoc(c.fsm, first, StateChange(c.fsm, Reconnecting));
    StateAfterSnoc(c.fsm, again, EmitReconnect(c.attempt + 1, Mul2(c.opts.baseDelay, c.attempt)));
    StateAfterSnoc(c.fsm, again + [EmitReconnectFailed], StateChange(Reconnecting, Disconnected));
    assert Shows(c, SocketCloses)
        == if !Recovers(c) then first + [StateChange(c.fsm, Disconnected)]
           else if c.attempt < c.opts.maxAttempts then
             again + [EmitReconnect(c.attempt + 1, Mul2(c.opts.baseDelay, c.attempt))]
           else again + [EmitReconnectFailed] + [StateChange(Reconnecting, Disconnected)];
  }

  lemma AfterOne(before: Fsm, o: Out)
    ensures StateAfter(before, [o]) == if o.StateChange? then o.to else before
  {
    assert [o][..0] == [];
  }

  lemma AfterTwo(before: Fsm, o: Out, p: Out)
    ensures StateAfter(before, [o, p]) == if p.StateChange? then p.to else if o.StateChange? then o.to else before
  {
    assert [o, p][..1] == [o];
    AfterOne(before, o);
  }

  lemma AfterThree(before: Fsm, o: Out, p: Out, q: Out)
    ensures StateAfter(before, [o, p, q])
         == if q.StateChange? then q.to else if p.StateChange? then p.to else if o.StateChange? then o.to else before
  {
    assert [o, p, q][..2] == [o, p];
    AfterTwo(before, o, p);
  }

  lemma MiddleState(c: Client, e: Event)
    requires Inv(c) && Possible(c, e)
    ensures BeforeRelease(c, e).fsm == StateAfter(c.fsm, Shows(c, e))
  {
    var outs := Shows(c, e);
    assert StateAfter(c.fsm, []) == c.fsm;
    if e.SocketCloses? {
      CloseState(c);
    } else {
      if |outs| == 1 {
        AfterOne(c.fsm, outs[0]);
        assert outs == [outs[0]];
      } else if |outs| == 2 {
        AfterTwo(c.fsm, outs[0], outs[1]);
        assert outs == [outs[0], outs[1]];
      } else if |outs| == 3 {
        AfterThree(c.fsm, outs[0], outs[1], outs[2]);
        assert outs == [outs[0], outs[1], outs[2]];
      }
      hide Accounted, Mul2, RequestInv, WireInv, BackoffInv, SilenceInv, StateAfter;
    }
  }

  /** In every run the state is the one that the last shown change led to; the register timer of an
      open socket ends the attempt, closing the socket exactly when it was a reconnect; and every
      other event of a connection leaves the socket as it is, but for its own opening and closing. */
  lemma {:induction false} StateFollowsShown(opts: Options, events: seq<Event>, e: Event)
    requires Run(opts, events).Some? && Possible(Run(opts, events).value, e)
    ensures var c, end := Run(opts, events).value, Run(opts, events + [e]);
      && end.Some? && end.value.fsm == StateAfter(c.fsm, Shows(c, e))
      && (e.SocketOpened? ==> end.value.resolver && InPhase(end.value, {Open}))
      && (e.RegisterTimesOut? ==> !end.value.resolver)
      && (e.RegisterTimesOut? && InPhase(c, {Open}) ==> InPhase(end.value, {if c.attempt > 0 then Closing else Open}))
      && (e.CallDisconnect? && InPhase(c, {Open}) ==> InPhase(end.value, {Closing}))
      && (e.SocketCloses? ==> end.value.ws.None?)
  {
    InvRun(opts, events);
    var c := Run(opts, events).value;
    RunSnoc(opts, events, e);
    MiddleState(c, e);
    StepThenRelease(c, e);
    ReleaseFrame(BeforeRelease(c, e));
    SocketAfter(c, e);
    hide Run, Shows, Inv, Next, Possible, BeforeRelease;
  }

  lemma SocketAfter(c: Client, e: Event)
    requires Inv(c) && Possible(c, e)
    ensures var d := BeforeRelease(c, e);
      && (e.SocketOpened? ==> d.resolver && InPhase(d, {Open}))
      && (e.RegisterTimesOut? ==> !d.resolver)
      && (e.RegisterTimesOut? && InPhase(c, {Open}) ==> InPhase(d, {if c.attempt > 0 then Closing else Open}))
      && (e.CallDisconnect? && InPhase(c, {Open}) ==> InPhase(d, {Closing}))
      && (e.SocketCloses? ==> d.ws.None?)
  {
    hide Accounted, Mul2, WireInv, BackoffInv, SilenceInv;
  }

  // ── A request, from the start ────────────────────────────────────────────

  /** A client that has just registered, with its complete record. */
  function Registered(opts: Options): Client {
    Client(opts, Ready, Some(Ws(0, Open)), None, 0, false, false, None, [], 1, 0, RegisteredLog())
  }

  function RegisteredLog(): seq<Out> {
    [] + [ConnectCalled] + [StateChange(Disconnected, Connecting)] + [Opens(0)] + [StateChange(Connecting, Registering)]
    + [SendRegister(0)] + [StateChange(Registering, Ready)] + [EmitRegistered]
  }

  function UntilRegistered(): seq<Event> {
    [] + [CallConnect] + [SocketOpened] + [Receive(RegisterOk)]
  }

  lemma RegisteredReached(opts: Options)
    ensures Run(opts, UntilRegistered()) == Some(Registered(opts))
  {
    var c := Initial(opts);
    var c1 := c.(fsm := Connecting, ws := Some(Ws(0, Opening)), sockets := 1,
                 log := [] + [ConnectCalled] + [StateChange(Disconnected, Connecting)] + [Opens(0)]);
    var c2 := c1.(fsm := Registering, ws := Some(Ws(0, Open)), resolver := true,
                  log := c1.log + [StateChange(Connecting, Registering)] + [SendRegister(0)]);
    assert Run(opts, []) == Some(c);
    assert Next(c, CallConnect) == c1;
    assert Next(c1, SocketOpened) == c2;
    assert Next(c2, Receive(RegisterOk)) == Registered(opts);
    hide Run, Next, Registered;
    RunSnoc(opts, [], CallConnect);
    RunSnoc(opts, [] + [CallConnect], SocketOpened);
    RunSnoc(opts, [] + [CallConnect] + [SocketOpened], Receive(RegisterOk));
  }

  function Asked(opts: Options, call: Call): Client {
    Registered(opts).(pending := Some(call), calls := 1,
                      log := RegisteredLog() + [Accepts(call)] + [SendRequest(0, call)])
  }

  lemma AskedNext(opts: Options, expected: ReplyType)
    ensures Next(Registered(opts), CallRequest(expected)) == Asked(opts, Call(0, expected, 0))
  {
    hide RegisteredLog;
    var call := Call(0, expected, 0);
    assert [] + [call] == [call] && [call][1..] == [];
  }

  lemma AnsweredNext(opts: Options, expected: ReplyType, origin: nat)
    ensures var c := Asked(opts, Call(0, expected, 0));
      Possible(c, Receive(Reply(expected, origin)))
      && Next(c, Receive(Reply(expected, origin)))
         == Log(c, Settles(0, Replied(origin))).(pending := None)
  {
    hide RegisteredLog;
  }

  /** Connecting, registering, asking and being answered: the request leaves on the open socket and
      its reply settles it. */
  lemma AnsweredRun(opts: Options, expected: ReplyType)
    ensures var call := Call(0, expected, 0);
      && Run(opts, UntilRegistered() + [CallRequest(expected)]) == Some(Asked(opts, call))
      && LastSent(Asked(opts, call).log) == Some((0, call))
      && var end := Run(opts, UntilRegistered() + [CallRequest(expected)] + [Receive(Reply(expected, 0))]);
         end.Some? && end.value.pending.None?
         && end.value.log == RegisteredLog() + [Accepts(call)] + [SendRequest(0, call)] + [Settles(0, Replied(0))]
  {
    var call := Call(0, expected, 0);
    RegisteredReached(opts);
    AskedNext(opts, expected);
    AnsweredNext(opts, expected, 0);
    LogSnoc(RegisteredLog() + [Accepts(call)], SendRequest(0, call));
    hide Run, Next, UntilRegistered, RegisteredLog, Wire;
    RunSnoc(opts, UntilRegistered(), CallRequest(expected));
    RunSnoc(opts, UntilRegistered() + [CallRequest(expected)], Receive(Reply(expected, 0)));
  }
}
