/** The rendezvous client: connection state machine, first-in first-out requests and reconnects.

    An event is one callback or one caller's call together with the microtasks it releases. */
module RendezvousClient {
  import opened Prelude
  import opened Shifts

  datatype Fsm = Disconnected | Connecting | Registering | Ready | Reconnecting

  /** `Opening`: no handlers yet. `Aborting`: closed before it opened. `Dead`: failed to open.
      `Open` and `Closing` sockets have the lifecycle handlers; a closing one drops what is sent. */
  datatype Phase = Opening | Aborting | Dead | Open | Closing

  datatype Ws = Ws(id: nat, phase: Phase)

  datatype ReplyType = LookupResult | InviteResult

  /** An accepted request: its number, the reply it waits for and the socket of its acceptance. */
  datatype Call = Call(id: nat, expected: ReplyType, acceptedOn: nat)

  /** `origin` is the number of the request that caused a reply; the client never looks at it. */
  datatype Frame =
    | Garbage
    | RegisterOk
    | ErrorEnvelope
    | SignalIn
    | NotifyIn
    | Reply(kind: ReplyType, origin: nat)
    | Other

  datatype Outcome = Replied(origin: nat) | ServerError | ConnectionClosed | SendFailed

  datatype Out =
    | ConnectCalled
    | DisconnectCalled
    | Opens(socket: nat)
    | StateChange(from: Fsm, to: Fsm)
    | SendRegister(socket: nat)
    | SendRequest(socket: nat, call: Call)
    | SendPush(socket: nat)
    | Accepts(call: Call)
    | Settles(id: nat, outcome: Outcome)
    | EmitRegistered
    | EmitDisconnect
    | EmitPush(frame: Frame)
    | EmitError
    | EmitReconnect(attempt: nat, delay: nat)
    | EmitReconnectFailed
    | Throws

  datatype Options = Options(enabled: bool, baseDelay: nat, maxAttempts: nat)

  datatype Client = Client(
    opts: Options,
    fsm: Fsm,
    ws: Option<Ws>,
    timer: Option<nat>,
    attempt: nat,
    explicit: bool,
    resolver: bool,
    pending: Option<Call>,
    queue: seq<Call>,
    sockets: nat,
    calls: nat,
    log: seq<Out>)

  function Initial(opts: Options): Client {
    Client(opts, Disconnected, None, None, 0, false, false, None, [], 0, 0, [])
  }

  datatype Event =
    | CallConnect
    | CallDisconnect
    | CallRequest(expected: ReplyType)
    | CallPush
    | SocketOpened
    | SocketFailedToOpen
    | Receive(frame: Frame)
    | RegisterTimesOut
    | SocketCloses
    | SocketErrs
    | TimerFires

  // ── Steps ────────────────────────────────────────────────────────────────

  predicate InPhase(c: Client, phases: set<Phase>) {
    c.ws.Some? && c.ws.value.phase in phases
  }

  /** Which callbacks the platform can make: handlers exist on open and closing sockets only. */
  predicate Possible(c: Client, e: Event) {
    match e
    case SocketOpened => InPhase(c, {Opening})
    case SocketFailedToOpen => InPhase(c, {Opening, Aborting})
    case Receive(_) => InPhase(c, {Open, Closing})
    case SocketCloses => InPhase(c, {Open, Closing})
    case SocketErrs => InPhase(c, {Open, Closing})
    case RegisterTimesOut => c.resolver
    case TimerFires => c.timer.Some?
    case _ => true
  }

  function Log(c: Client, out: Out): Client {
    c.(log := c.log + [out])
  }

  function Transition(c: Client, to: Fsm): Client {
    Log(c, StateChange(c.fsm, to)).(fsm := to)
  }

  function OpenSocket(c: Client): Client {
    Log(Transition(c, Connecting), Opens(c.sockets)).(ws := Some(Ws(c.sockets, Opening)), sockets := c.sockets + 1)
  }

  function CloseSocket(c: Client): Client {
    match c.ws
    case None => c
    case Some(w) =>
      var phase := match w.phase case Opening => Aborting case Open => Closing case other => other;
      c.(ws := Some(w.(phase := phase)))
  }

  /** `ws.send`: a closing socket swallows the frame. */
  function SendCall(c: Client, call: Call): Client {
    if InPhase(c, {Open}) then Log(c, SendRequest(c.ws.value.id, call)) else c
  }

  /** The slot is free: the next queued call takes it, or fails at once when there is no socket. */
  function Release(c: Client): Client
    decreases |c.queue|
  {
    if c.queue == [] then c
    else
      var call := c.queue[0];
      var rest := c.(queue := c.queue[1..]);
      if c.ws.None? then Release(Log(rest, Settles(call.id, SendFailed)))
      else SendCall(rest.(pending := Some(call)), call)
  }

  function SettlePending(c: Client, outcome: Outcome): Client
    requires c.pending.Some?
  {
    Log(c, Settles(c.pending.value.id, outcome)).(pending := None)
  }

  function ScheduleReconnect(c: Client): Client {
    var n := c.attempt + 1;
    if n > c.opts.maxAttempts then
      Transition(Log(c.(attempt := n, timer := None), EmitReconnectFailed), Disconnected)
    else
      var delay := Mul2(c.opts.baseDelay, n - 1);
      Log(c, EmitReconnect(n, delay)).(attempt := n, timer := Some(delay))
  }

  predicate WillReconnect(c: Client) {
    c.opts.enabled && !c.explicit
    && (c.fsm.Ready? || c.fsm.Reconnecting? || (c.attempt > 0 && (c.fsm.Connecting? || c.fsm.Registering?)))
  }

  /** The synchronous part of the close handler. */
  function OnClose(c: Client): Client {
    var c1 := c.(ws := None, resolver := false);
    var c2 := if c1.pending.Some? then SettlePending(c1, ConnectionClosed) else c1;
    if c2.fsm.Disconnected? then c2
    else
      var c3 := Log(c2, EmitDisconnect);
      if WillReconnect(c3) then ScheduleReconnect(Transition(c3, Reconnecting))
      else Transition(c3, Disconnected)
  }

  function OnReceive(c: Client, f: Frame): Client {
    if f.Garbage? then Log(c, EmitError)
    else if f.RegisterOk? && c.resolver then
      Log(Transition(c.(resolver := false), Ready), EmitRegistered)
    else if f.ErrorEnvelope? && c.pending.Some? then Release(SettlePending(c, ServerError))
    else if f.SignalIn? || f.NotifyIn? then Log(c, EmitPush(f))
    else if c.pending.Some? && f.Reply? && f.kind == c.pending.value.expected then
      Release(SettlePending(c, Replied(f.origin)))
    else c
  }

  function OnRequest(c: Client, expected: ReplyType): Client {
    if !c.fsm.Ready? then Log(c, Throws)
    else
      var call := Call(c.calls, expected, if c.ws.Some? then c.ws.value.id else 0);
      var accepted := Log(c, Accepts(call)).(calls := c.calls + 1, queue := c.queue + [call]);
      if c.pending.None? then Release(accepted) else accepted
  }

  function Next(c: Client, e: Event): Client
    requires Possible(c, e)
  {
    match e
    case CallConnect =>
      if !c.fsm.Disconnected? then Log(c, Throws)
      else OpenSocket(Log(c, ConnectCalled).(explicit := false, attempt := 0))
    case CallDisconnect =>
      var c1 := Log(c, DisconnectCalled).(explicit := true, timer := None);
      if c1.ws.Some? then CloseSocket(c1)
      else if c1.fsm.Reconnecting? then Log(Transition(c1, Disconnected), EmitDisconnect)
      else c1
    case CallRequest(expected) => OnRequest(c, expected)
    case CallPush =>
      if !c.fsm.Ready? then Log(c, Throws)
      else if InPhase(c, {Open}) then Log(c, SendPush(c.ws.value.id))
      else c
    case SocketOpened =>
      var c1 := Transition(c.(ws := Some(c.ws.value.(phase := Open))), Registering);
      Log(c1, SendRegister(c1.ws.value.id)).(resolver := true)
    case SocketFailedToOpen => c.(ws := Some(c.ws.value.(phase := Dead)))
    case Receive(f) => OnReceive(c, f)
    case RegisterTimesOut =>
      var c1 := c.(resolver := false);
      if c.attempt > 0 then CloseSocket(c1) else c1
    case SocketCloses => Release(OnClose(c))
    case SocketErrs => Log(c, EmitError)
    case TimerFires => OpenSocket(c.(timer := None))
  }

  // ── The client object ────────────────────────────────────────────────────

  class Rendezvous {
    const opts: Options
    var fsm: Fsm
    var ws: Option<Ws>
    var reconnectTimer: Option<nat>
    var reconnectAttempt: nat
    var explicitDisconnect: bool
    var registerResolver: bool
    var pendingRequest: Option<Call>
    var fifoQueue: seq<Call>
    var socketsOpened: nat
    var callsAccepted: nat
    var log: seq<Out>

    function Contents(): Client
      reads this
    {
      Client(opts, fsm, ws, reconnectTimer, reconnectAttempt, explicitDisconnect, registerResolver,
             pendingRequest, fifoQueue, socketsOpened, callsAccepted, log)
    }

    constructor (opts: Options)
      ensures Contents() == Initial(opts)
    {
      this.opts := opts;
      fsm, ws, reconnectTimer, reconnectAttempt := Disconnected, None, None, 0;
      explicitDisconnect, registerResolver, pendingRequest, fifoQueue := false, false, None, [];
      socketsOpened, callsAccepted, log := 0, 0, [];
    }

    method Record(out: Out)
      modifies this`log
      ensures log == old(log) + [out]
    {
      log := log + [out];
    }

    method TransitionTo(to: Fsm)
      modifies this`fsm, this`log
      ensures Contents() == Transition(old(Contents()), to)
    {
      var from := fsm;
      fsm := to;
      Record(StateChange(from, to));
    }

    method NewWebSocket()
      modifies this
      ensures Contents() == OpenSocket(old(Contents()))
    {
      TransitionTo(Connecting);
      Record(Opens(socketsOpened));
      ws := Some(Ws(socketsOpened, Opening));
      socketsOpened := socketsOpened + 1;
    }

    method CloseWebSocket()
      requires ws.Some?
      modifies this`ws
      ensures Contents() == CloseSocket(old(Contents()))
    {
      if ws.value.phase == Opening {
        ws := Some(ws.value.(phase := Aborting));
      } else if ws.value.phase == Open {
        ws := Some(ws.value.(phase := Closing));
      }
    }

    method Connect()
      modifies this
      ensures Contents() == Next(old(Contents()), CallConnect)
    {
      if fsm != Disconnected {
        Record(Throws);
        return;
      }
      Record(ConnectCalled);
      explicitDisconnect := false;
      reconnectAttempt := 0;
      NewWebSocket();
    }

    method Disconnect()
      modifies this
      ensures Contents() == Next(old(Contents()), CallDisconnect)
    {
      Record(DisconnectCalled);
      explicitDisconnect := true;
      reconnectTimer := None;
      if ws.Some? {
        CloseWebSocket();
      } else if fsm == Reconnecting {
        TransitionTo(Disconnected);
        Record(EmitDisconnect);
      }
    }

    method Transmit(call: Call)
      modifies this`log
      ensures Contents() == SendCall(old(Contents()), call)
    {
      if ws.Some? && ws.value.phase == Open {
        Record(SendRequest(ws.value.id, call));
      }
    }

    /** What the chained promises do once the slot is released. */
    method ReleaseSlot()
      requires pendingRequest.None?
      modifies this`pendingRequest, this`fifoQueue, this`log
      ensures Contents() == Release(old(Contents()))
    {
      while fifoQueue != [] && pendingRequest.None?
        invariant pendingRequest.None? ==> Release(Contents()) == Release(old(Contents()))
        invariant pendingRequest.Some? ==> Contents() == Release(old(Contents()))
        decreases |fifoQueue|
      {
        var call := fifoQueue[0];
        fifoQueue := fifoQueue[1..];
        if ws.None? {
          Record(Settles(call.id, SendFailed));
        } else {
          pendingRequest := Some(call);
          Transmit(call);
        }
      }
    }

    method SendRequestCall(expected: ReplyType)
      modifies this
      ensures Contents() == Next(old(Contents()), CallRequest(expected))
    {
      if fsm != Ready {
        Record(Throws);
        return;
      }
      var call := Call(callsAccepted, expected, if ws.Some? then ws.value.id else 0);
      Record(Accepts(call));
      callsAccepted := callsAccepted + 1;
      fifoQueue := fifoQueue + [call];
      if pendingRequest.None? {
        ReleaseSlot();
      }
    }

    /** `signal` and `notify`: straight to the wire, past the queue. */
    method Push()
      modifies this`log
      ensures Contents() == Next(old(Contents()), CallPush)
    {
      if fsm != Ready {
        Record(Throws);
        return;
      }
      if ws.Some? && ws.value.phase == Open {
        Record(SendPush(ws.value.id));
      }
    }

    method SettleRequest(outcome: Outcome)
      requires pendingRequest.Some?
      modifies this`pendingRequest, this`log
      ensures Contents() == SettlePending(old(Contents()), outcome)
    {
      var pending := pendingRequest.value;
      pendingRequest := None;
      Record(Settles(pending.id, outcome));
    }

    method OnMessage(f: Frame)
      requires Possible(Contents(), Receive(f))
      modifies this
      ensures Contents() == Next(old(Contents()), Receive(f))
    {
      if f.Garbage? {
        Record(EmitError);
        return;
      }
      if f.RegisterOk? && registerResolver {
        registerResolver := false;
        TransitionTo(Ready);
        Record(EmitRegistered);
        return;
      }
      if f.ErrorEnvelope? && pendingRequest.Some? {
        SettleRequest(ServerError);
        ReleaseSlot();
        return;
      }
      if f.SignalIn? || f.NotifyIn? {
        Record(EmitPush(f));
        return;
      }
      if pendingRequest.Some? {
        if f.Reply? && f.kind == pendingRequest.value.expected {
          SettleRequest(Replied(f.origin));
          ReleaseSlot();
        }
      }
    }

    method ArmReconnect()
      modifies this
      ensures Contents() == ScheduleReconnect(old(Contents()))
    {
      reconnectAttempt := reconnectAttempt + 1;
      if reconnectAttempt > opts.maxAttempts {
        reconnectTimer := None;
        Record(EmitReconnectFailed);
        TransitionTo(Disconnected);
        return;
      }
      var delayMs := Mul2(opts.baseDelay, reconnectAttempt - 1);
      Record(EmitReconnect(reconnectAttempt, delayMs));
      reconnectTimer := Some(delayMs);
    }

    method HandleClose()
      modifies this
      ensures Contents() == OnClose(old(Contents()))
    {
      ws := None;
      registerResolver := false;
      if pendingRequest.Some? {
        SettleRequest(ConnectionClosed);
      }
      if fsm == Disconnected {
        return;
      }
      Record(EmitDisconnect);
      if opts.enabled && !explicitDisconnect
         && (fsm == Ready || fsm == Reconnecting
             || (reconnectAttempt > 0 && (fsm == Connecting || fsm == Registering)))
      {
        TransitionTo(Reconnecting);
        ArmReconnect();
        return;
      }
      TransitionTo(Disconnected);
    }

    method OnSocketClosed()
      requires Possible(Contents(), SocketCloses)
      modifies this
      ensures Contents() == Next(old(Contents()), SocketCloses)
    {
      HandleClose();
      ReleaseSlot();
    }

    method OnOpen()
      requires Possible(Contents(), SocketOpened)
      modifies this
      ensures Contents() == Next(old(Contents()), SocketOpened)
    {
      ws := Some(ws.value.(phase := Open));
      TransitionTo(Registering);
      registerResolver := true;
      Record(SendRegister(ws.value.id));
    }

    method OnOpenFailed()
      requires Possible(Contents(), SocketFailedToOpen)
      modifies this`ws
      ensures Contents() == Next(old(Contents()), SocketFailedToOpen)
    {
      ws := Some(ws.value.(phase := Dead));
    }

    method OnError()
      requires Possible(Contents(), SocketErrs)
      modifies this`log
      ensures Contents() == Next(old(Contents()), SocketErrs)
    {
      Record(EmitError);
    }

    method OnRegisterTimeout()
      requires Possible(Contents(), RegisterTimesOut)
      modifies this
      ensures Contents() == Next(old(Contents()), RegisterTimesOut)
    {
      registerResolver := false;
      if reconnectAttempt > 0 && ws.Some? {
        CloseWebSocket();
      }
    }

    method OnReconnectTimer()
      requires Possible(Contents(), TimerFires)
      modifies this
      ensures Contents() == Next(old(Contents()), TimerFires)
    {
      reconnectTimer := None;
      NewWebSocket();
    }
  }

  // ── What the log says ────────────────────────────────────────────────────

  /** Numbers of the settled calls, in the order they settled. */
  function SettledIds(log: seq<Out>): seq<nat> {
    if log == [] then []
    else
      var o := log[|log| - 1];
      SettledIds(log[..|log| - 1]) + (if o.Settles? then [o.id] else [])
  }

  /** The request frames that went out, with the socket that carried each. */
  function Wire(log: seq<Out>): seq<(nat, Call)> {
    if log == [] then []
    else
      var o := log[|log| - 1];
      Wire(log[..|log| - 1]) + (if o.SendRequest? then [(o.socket, o.call)] else [])
  }

  /** The reconnect events since the last explicit connect. */
  function Reconnects(log: seq<Out>): seq<(nat, nat)> {
    if log == [] then []
    else
      var before := Reconnects(log[..|log| - 1]);
      match log[|log| - 1]
      case ConnectCalled => []
      case EmitReconnect(k, d) => before + [(k, d)]
      case _ => before
  }

  /** How often reconnecting was given up since the last explicit connect. */
  function GiveUps(log: seq<Out>): nat {
    if log == [] then 0
    else
      var before := GiveUps(log[..|log| - 1]);
      match log[|log| - 1]
      case ConnectCalled => 0
      case EmitReconnectFailed => before + 1
      case _ => before
  }

  /** Whether the last of connect() and disconnect() was disconnect(). */
  predicate Silenced(log: seq<Out>) {
    if log == [] then false
    else
      match log[|log| - 1]
      case ConnectCalled => false
      case DisconnectCalled => true
      case _ => Silenced(log[..|log| - 1])
  }

  predicate OpensWhileSilenced(log: seq<Out>) {
    exists i :: 0 <= i < |log| && log[i].Opens? && Silenced(log[..i])
  }

  // ── The invariant ────────────────────────────────────────────────────────

  ghost predicate ConnectionInv(c: Client) {
    && (c.timer.Some? <==> c.fsm.Reconnecting?)
    && (c.fsm.Disconnected? || c.fsm.Reconnecting? ==> c.ws.None?)
    && (c.fsm.Connecting? ==> InPhase(c, {Opening, Aborting, Dead}))
    && (c.fsm.Registering? || c.fsm.Ready? ==> InPhase(c, {Open, Closing}))
    && (c.resolver ==> c.fsm.Registering?)
    && (c.explicit ==> c.timer.None? && (c.ws.None? || InPhase(c, {Aborting, Dead, Closing})))
    && (c.ws.Some? ==> c.ws.value.id == c.sockets - 1)
  }

  function PendingIds(pending: Option<Call>): seq<nat> {
    if pending.None? then [] else [pending.value.id]
  }

  function Ids(calls: seq<Call>): (ids: seq<nat>)
    ensures |ids| == |calls| && forall i :: 0 <= i < |ids| ==> ids[i] == calls[i].id
  {
    seq(|calls|, i requires 0 <= i < |calls| => calls[i].id)
  }

  function UpTo(n: nat): (ids: seq<nat>)
    ensures |ids| == n && forall i :: 0 <= i < n ==> ids[i] == i
  {
    seq(n, i => i)
  }

  /** Every accepted call is settled, pending or queued, once, in the order of acceptance. */
  ghost predicate Accounted(log: seq<Out>, pending: Option<Call>, queue: seq<Call>, calls: nat) {
    SettledIds(log) + PendingIds(pending) + Ids(queue) == UpTo(calls)
  }

  predicate AcceptedHere(c: Client, call: Call) {
    c.ws.Some? && call.acceptedOn == c.ws.value.id
  }

  ghost predicate RequestInv(c: Client) {
    && Accounted(c.log, c.pending, c.queue, c.calls)
    && (c.pending.Some? ==> c.fsm.Ready? && AcceptedHere(c, c.pending.value))
    && (c.queue != [] ==> c.pending.Some?)
    && (forall i :: 0 <= i < |c.queue| ==> AcceptedHere(c, c.queue[i]))
  }

  /** Frames leave in call order, each on the socket of its call's acceptance, and only calls up
      to the pending one have left. */
  ghost predicate WireInv(c: Client) {
    var wire := Wire(c.log);
    && (forall i, j :: 0 <= i < j < |wire| ==> wire[i].1.id < wire[j].1.id)
    && (forall i :: 0 <= i < |wire| ==> wire[i].0 == wire[i].1.acceptedOn)
    && (forall i :: 0 <= i < |wire| ==> wire[i].1.id < |SettledIds(c.log)| + |PendingIds(c.pending)|)
  }

  /** The `k` backoff delays. */
  function Backoff(base: nat, k: nat): (r: seq<(nat, nat)>)
    ensures |r| == k && forall i :: 0 <= i < k ==> r[i] == (i + 1, Mul2(base, i))
  {
    seq(k, i requires 0 <= i => (i + 1, Mul2(base, i)))
  }

  function Smaller(a: nat, b: nat): nat {
    if a <= b then a else b
  }

  ghost predicate BackoffInv(c: Client) {
    && Reconnects(c.log) == Backoff(c.opts.baseDelay, Smaller(c.attempt, c.opts.maxAttempts))
    && GiveUps(c.log) == (if c.attempt > c.opts.maxAttempts then 1 else 0)
    && (c.attempt > c.opts.maxAttempts ==> c.fsm.Disconnected? && c.attempt == c.opts.maxAttempts + 1)
    && (c.timer.Some? ==> c.attempt >= 1 && c.timer.value == Mul2(c.opts.baseDelay, c.attempt - 1))
  }

  ghost predicate SilenceInv(c: Client) {
    c.explicit == Silenced(c.log) && !OpensWhileSilenced(c.log)
  }

  // ── Every step keeps it: connection ──────────────────────────────────────

  /** Releasing the slot touches the requests and the log only. */
  lemma {:induction false} ReleaseFrame(c: Client)
    ensures Release(c) == c.(pending := Release(c).pending, queue := Release(c).queue, log := Release(c).log)
    decreases |c.queue|
  {
    if c.queue != [] && c.ws.None? {
      ReleaseFrame(Log(c.(queue := c.queue[1..]), Settles(c.queue[0].id, SendFailed)));
    }
  }

  /** The client just before `e` releases the slot, when it does. */
  function BeforeRelease(c: Client, e: Event): Client
    requires Possible(c, e)
  {
    match e
    case SocketCloses => OnClose(c)
    case Receive(ErrorEnvelope) => if c.pending.Some? then SettlePending(c, ServerError) else c
    case Receive(Reply(kind, origin)) =>
      if c.pending.Some? && kind == c.pending.value.expected then SettlePending(c, Replied(origin)) else c
    case CallRequest(expected) =>
      if !c.fsm.Ready? then Log(c, Throws)
      else
        var call := Call(c.calls, expected, if c.ws.Some? then c.ws.value.id else 0);
        Log(c, Accepts(call)).(calls := c.calls + 1, queue := c.queue + [call])
    case _ => Next(c, e)
  }

  /** A step is its own part followed by a release of the slot, which does nothing when the slot
      is taken or nobody waits. */
  lemma StepThenRelease(c: Client, e: Event)
    requires RequestInv(c) && Possible(c, e)
    ensures var mid := BeforeRelease(c, e);
      Next(c, e) == if mid.pending.None? then Release(mid) else mid
  {
    hide Accounted, Mul2;
    match e {
      case SocketCloses =>
        hide RequestInv;
      case Receive(f) =>
        StepThenReleaseReceive(c, f);
      case CallRequest(expected) =>
      case _ =>
        OnlyThoseRelease(c, e);
    }
  }

  lemma StepThenReleaseReceive(c: Client, f: Frame)
    requires RequestInv(c) && Possible(c, Receive(f))
    ensures var mid := BeforeRelease(c, Receive(f));
      Next(c, Receive(f)) == if mid.pending.None? then Release(mid) else mid
  {
    hide Accounted;
    assert c.pending.None? ==> c.queue == [];
  }

  lemma OnlyThoseRelease(c: Client, e: Event)
    requires RequestInv(c) && Possible(c, e) && !e.SocketCloses? && !e.Receive? && !e.CallRequest?
    ensures Next(c, e).pending == c.pending && Next(c, e).queue == c.queue
    ensures c.pending.None? ==> Release(Next(c, e)) == Next(c, e)
  {
    hide Accounted, Mul2;
  }

  lemma ConnectionStep(c: Client, e: Event)
    requires ConnectionInv(c) && RequestInv(c) && Possible(c, e)
    ensures ConnectionInv(BeforeRelease(c, e)) && ConnectionInv(Next(c, e))
  {
    StepThenRelease(c, e);
    ReleaseFrame(BeforeRelease(c, e));
    MiddleConnection(c, e);
  }

  lemma MiddleConnection(c: Client, e: Event)
    requires ConnectionInv(c) && RequestInv(c) && Possible(c, e)
    ensures ConnectionInv(BeforeRelease(c, e))
  {
    hide RequestInv, Mul2;
    match e {
      case SocketCloses => CloseConnection(c);
      case _ =>
    }
  }

  lemma CloseConnection(c: Client)
    requires ConnectionInv(c) && Possible(c, SocketCloses)
    ensures ConnectionInv(OnClose(c))
  {
    hide Mul2;
  }

  // ── Every step keeps it: requests ────────────────────────────────────────

  lemma LogSnoc(log: seq<Out>, o: Out)
    ensures SettledIds(log + [o]) == SettledIds(log) + (if o.Settles? then [o.id] else [])
    ensures Wire(log + [o]) == Wire(log) + (if o.SendRequest? then [(o.socket, o.call)] else [])
    ensures !o.Settles? ==> SettledIds(log + [o]) == SettledIds(log)
    ensures !o.SendRequest? ==> Wire(log + [o]) == Wire(log)
  {
    assert (log + [o])[..|log|] == log;
  }

  /** Between a step's own part and the release, waiting calls may face a missing socket. */
  ghost predicate MidRequest(c: Client) {
    && Accounted(c.log, c.pending, c.queue, c.calls)
    && (c.pending.Some? ==> c.fsm.Ready? && AcceptedHere(c, c.pending.value))
    && (c.queue != [] && c.ws.Some? ==> c.fsm.Ready?)
    && (forall i :: 0 <= i < |c.queue| && c.ws.Some? ==> AcceptedHere(c, c.queue[i]))
  }

  lemma AccountedLog(log: seq<Out>, o: Out, pending: Option<Call>, queue: seq<Call>, calls: nat)
    requires Accounted(log, pending, queue, calls) && !o.Settles?
    ensures Accounted(log + [o], pending, queue, calls)
  {
    LogSnoc(log, o);
  }

  lemma AccountedSettle(log: seq<Out>, call: Call, outcome: Outcome, queue: seq<Call>, calls: nat)
    requires Accounted(log, Some(call), queue, calls)
    ensures Accounted(log + [Settles(call.id, outcome)], None, queue, calls)
  {
    LogSnoc(log, Settles(call.id, outcome));
    assert SettledIds(log) + [call.id] + [] == SettledIds(log) + [call.id];
  }

  lemma AccountedPop(log: seq<Out>, queue: seq<Call>, calls: nat)
    requires Accounted(log, None, queue, calls) && queue != []
    ensures Accounted(log, Some(queue[0]), queue[1..], calls)
  {
    hide SettledIds, UpTo;
    assert Ids(queue) == [queue[0].id] + Ids(queue[1..]);
    assert SettledIds(log) + [] + Ids(queue) == SettledIds(log) + [queue[0].id] + Ids(queue[1..]);
  }

  lemma AccountedEnqueue(log: seq<Out>, pending: Option<Call>, queue: seq<Call>, call: Call, calls: nat)
    requires Accounted(log, pending, queue, calls) && call.id == calls
    ensures Accounted(log, pending, queue + [call], calls + 1)
  {
    assert Ids(queue + [call]) == Ids(queue) + [call.id];
    assert UpTo(calls + 1) == UpTo(calls) + [calls];
    assert SettledIds(log) + PendingIds(pending) + (Ids(queue) + [call.id])
        == SettledIds(log) + PendingIds(pending) + Ids(queue) + [call.id];
  }

  lemma {:induction false} ReleaseRequests(c: Client)
    requires MidRequest(c) && c.pending.None?
    ensures RequestInv(Release(c))
    decreases |c.queue|
  {
    hide Accounted;
    if c.queue == [] {
    } else {
      var call, rest := c.queue[0], c.queue[1..];
      AccountedPop(c.log, c.queue, c.calls);
      assert c.ws.Some? ==> AcceptedHere(c, c.queue[0]);
      assert forall i :: 0 <= i < |rest| ==> rest[i] == c.queue[i + 1];
      if c.ws.None? {
        AccountedSettle(c.log, call, SendFailed, rest, c.calls);
        ReleaseRequests(Log(c.(queue := rest), Settles(call.id, SendFailed)));
      } else {
        AccountedLog(c.log, SendRequest(c.ws.value.id, call), Some(call), rest, c.calls);
      }
    }
  }

  lemma SettleMid(c: Client, outcome: Outcome)
    requires MidRequest(c) && c.pending.Some?
    ensures MidRequest(SettlePending(c, outcome))
  {
    hide Accounted;
    AccountedSettle(c.log, c.pending.value, outcome, c.queue, c.calls);
  }

  lemma LogMid(c: Client, o: Out)
    requires MidRequest(c) && !o.Settles?
    ensures MidRequest(Log(c, o))
  {
    hide Accounted;
    AccountedLog(c.log, o, c.pending, c.queue, c.calls);
  }

  lemma EnqueueMid(c: Client, call: Call)
    requires RequestInv(c) && c.fsm.Ready? && AcceptedHere(c, call) && call.id == c.calls
    ensures MidRequest(Log(c, Accepts(call)).(calls := c.calls + 1, queue := c.queue + [call]))
  {
    hide Accounted;
    AccountedLog(c.log, Accepts(call), c.pending, c.queue, c.calls);
    AccountedEnqueue(c.log + [Accepts(call)], c.pending, c.queue, call, c.calls);
  }

  lemma CloseMid(c: Client)
    requires RequestInv(c)
    ensures MidRequest(OnClose(c)) && OnClose(c).pending.None? && OnClose(c).ws.None?
  {
    hide Accounted;
    var c1 := c.(ws := None, resolver := false);
    if c.pending.Some? {
      AccountedSettle(c.log, c.pending.value, ConnectionClosed, c.queue, c.calls);
    }
    var c2 := if c1.pending.Some? then SettlePending(c1, ConnectionClosed) else c1;
    assert MidRequest(c2);
    if !c2.fsm.Disconnected? {
      LogMid(c2, EmitDisconnect);
      var c3 := Log(c2, EmitDisconnect);
      if WillReconnect(c3) {
        TransitionMid(c3, Reconnecting);
        ScheduleMid(Transition(c3, Reconnecting));
      } else {
        TransitionMid(c3, Disconnected);
      }
    }
  }

  lemma TransitionMid(c: Client, to: Fsm)
    requires MidRequest(c) && c.pending.None? && (c.ws.None? || c.queue == [])
    ensures MidRequest(Transition(c, to)) && Transition(c, to).pending.None? && Transition(c, to).ws == c.ws
    ensures Transition(c, to).queue == c.queue
  {
    hide Accounted;
    AccountedLog(c.log, StateChange(c.fsm, to), c.pending, c.queue, c.calls);
  }

  lemma ScheduleMid(c: Client)
    requires MidRequest(c) && c.pending.None? && c.ws.None?
    ensures MidRequest(ScheduleReconnect(c)) && ScheduleReconnect(c).pending.None? && ScheduleReconnect(c).ws.None?
  {
    var n := c.attempt + 1;
    if n > c.opts.maxAttempts {
      LogMid(c.(attempt := n, timer := None), EmitReconnectFailed);
      TransitionMid(Log(c.(attempt := n, timer := None), EmitReconnectFailed), Disconnected);
    } else {
      LogMid(c, EmitReconnect(n, Mul2(c.opts.baseDelay, n - 1)));
    }
  }

  lemma OpenSocketMid(c: Client)
    requires MidRequest(c) && c.pending.None? && c.queue == []
    ensures MidRequest(OpenSocket(c))
  {
    TransitionMid(c, Connecting);
    LogMid(Transition(c, Connecting), Opens(c.sockets));
  }

  lemma MiddleRequest(c: Client, e: Event)
    requires ConnectionInv(c) && RequestInv(c) && Possible(c, e)
    ensures MidRequest(BeforeRelease(c, e))
    ensures e.SocketCloses? ==> BeforeRelease(c, e).pending.None?
  {
    hide Accounted;
    match e {
      case CallConnect =>
        LogMid(c, Throws);
        if c.fsm.Disconnected? {
          LogMid(c, ConnectCalled);
          OpenSocketMid(Log(c, ConnectCalled).(explicit := false, attempt := 0));
        }
      case CallDisconnect =>
        LogMid(c, DisconnectCalled);
        var c1 := Log(c, DisconnectCalled).(explicit := true, timer := None);
        if c1.ws.None? && c1.fsm.Reconnecting? {
          TransitionMid(c1, Disconnected);
          LogMid(Transition(c1, Disconnected), EmitDisconnect);
        }
      case CallRequest(expected) =>
        LogMid(c, Throws);
        if c.fsm.Ready? {
          EnqueueMid(c, Call(c.calls, expected, c.ws.value.id));
        }
      case CallPush =>
        LogMid(c, Throws);
        if c.ws.Some? {
          LogMid(c, SendPush(c.ws.value.id));
        }
      case SocketOpened =>
        var c0 := c.(ws := Some(c.ws.value.(phase := Open)));
        TransitionMid(c0, Registering);
        LogMid(Transition(c0, Registering), SendRegister(c.ws.value.id));
      case SocketFailedToOpen =>
      case Receive(f) =>
        LogMid(c, EmitError);
        LogMid(c, EmitPush(f));
        if c.pending.Some? {
          SettleMid(c, ServerError);
          if f.Reply? {
            SettleMid(c, Replied(f.origin));
          }
        }
        if c.resolver {
          TransitionMid(c.(resolver := false), Ready);
          LogMid(Transition(c.(resolver := false), Ready), EmitRegistered);
        }
      case RegisterTimesOut =>
      case SocketCloses => CloseMid(c);
      case SocketErrs => LogMid(c, EmitError);
      case TimerFires =>
        OpenSocketMid(c.(timer := None));
    }
  }

  lemma RequestStep(c: Client, e: Event)
    requires ConnectionInv(c) && RequestInv(c) && Possible(c, e)
    ensures RequestInv(Next(c, e))
  {
    var mid := BeforeRelease(c, e);
    StepThenRelease(c, e);
    MiddleRequest(c, e);
    if mid.pending.None? {
      ReleaseRequests(mid);
    }
  }

  // ── Every step keeps it: what is on the wire ─────────────────────────────

  /** Outputs that no projection of the log looks at. */
  predicate Neutral(o: Out) {
    !(o.Settles? || o.SendRequest? || o.ConnectCalled? || o.DisconnectCalled? || o.EmitReconnect?
      || o.EmitReconnectFailed? || o.Opens?)
  }

  /** How far calls have got: settled ones and the pending one. */
  function Reached(c: Client): nat {
    |SettledIds(c.log)| + |PendingIds(c.pending)|
  }

  /** Nothing left for the wire, and no call was overtaken. */
  predicate SameWire(c: Client, d: Client) {
    Wire(d.log) == Wire(c.log) && Reached(d) == Reached(c)
  }

  lemma LogSameWire(c: Client, o: Out)
    requires !o.SendRequest? && !o.Settles?
    ensures SameWire(c, Log(c, o))
  {
    LogSnoc(c.log, o);
  }

  lemma SettleSameWire(c: Client, outcome: Outcome)
    requires c.pending.Some?
    ensures SameWire(c, SettlePending(c, outcome))
  {
    LogSnoc(c.log, Settles(c.pending.value.id, outcome));
  }

  lemma TransitionSameWire(c: Client, to: Fsm)
    ensures SameWire(c, Transition(c, to))
  {
    LogSameWire(c, StateChange(c.fsm, to));
  }

  lemma OpenSameWire(c: Client)
    ensures SameWire(c, OpenSocket(c))
  {
    TransitionSameWire(c, Connecting);
    LogSameWire(Transition(c, Connecting), Opens(c.sockets));
  }

  lemma ScheduleSameWire(c: Client)
    ensures SameWire(c, ScheduleReconnect(c))
  {
    var n := c.attempt + 1;
    LogSameWire(c, EmitReconnect(n, Mul2(c.opts.baseDelay, n - 1)));
    var given := Log(c.(attempt := n, timer := None), EmitReconnectFailed);
    LogSameWire(c.(attempt := n, timer := None), EmitReconnectFailed);
    TransitionSameWire(given, Disconnected);
  }

  lemma CloseSameWire(c: Client)
    ensures SameWire(c, OnClose(c))
  {
    hide Wire, SettledIds;
    var c1 := c.(ws := None, resolver := false);
    if c.pending.Some? {
      SettleSameWire(c1, ConnectionClosed);
    }
    var c2 := if c1.pending.Some? then SettlePending(c1, ConnectionClosed) else c1;
    LogSameWire(c2, EmitDisconnect);
    var c3 := Log(c2, EmitDisconnect);
    TransitionSameWire(c3, Disconnected);
    TransitionSameWire(c3, Reconnecting);
    ScheduleSameWire(Transition(c3, Reconnecting));
  }

  lemma ReceiveSameWire(c: Client, f: Frame)
    requires Possible(c, Receive(f)) && RequestInv(c)
    ensures SameWire(c, BeforeRelease(c, Receive(f)))
  {
    hide Wire, SettledIds, Accounted;
    LogSameWire(c, EmitError);
    LogSameWire(c, EmitPush(f));
    if c.pending.Some? {
      SettleSameWire(c, ServerError);
      if f.Reply? {
        SettleSameWire(c, Replied(f.origin));
      }
    }
    TransitionSameWire(c.(resolver := false), Ready);
    LogSameWire(Transition(c.(resolver := false), Ready), EmitRegistered);
  }

  lemma MiddleSameWire(c: Client, e: Event)
    requires Possible(c, e) && RequestInv(c)
    ensures SameWire(c, BeforeRelease(c, e))
  {
    hide Wire, SettledIds, Accounted;
    match e {
      case CallConnect =>
        LogSameWire(c, Throws);
        LogSameWire(c, ConnectCalled);
        OpenSameWire(Log(c, ConnectCalled).(explicit := false, attempt := 0));
      case CallDisconnect =>
        LogSameWire(c, DisconnectCalled);
        var c1 := Log(c, DisconnectCalled).(explicit := true, timer := None);
        TransitionSameWire(c1, Disconnected);
        LogSameWire(Transition(c1, Disconnected), EmitDisconnect);
      case CallRequest(expected) =>
        LogSameWire(c, Throws);
        LogSameWire(c, Accepts(Call(c.calls, expected, if c.ws.Some? then c.ws.value.id else 0)));
      case CallPush =>
        LogSameWire(c, Throws);
        if c.ws.Some? {
          LogSameWire(c, SendPush(c.ws.value.id));
        }
      case SocketOpened =>
        var c0 := c.(ws := Some(c.ws.value.(phase := Open)));
        TransitionSameWire(c0, Registering);
        LogSameWire(Transition(c0, Registering), SendRegister(c.ws.value.id));
      case SocketFailedToOpen =>
      case Receive(f) => ReceiveSameWire(c, f);
      case RegisterTimesOut =>
      case SocketCloses => CloseSameWire(c);
      case SocketErrs => LogSameWire(c, EmitError);
      case TimerFires => OpenSameWire(c.(timer := None));
    }
  }

  lemma AccountedFront(log: seq<Out>, queue: seq<Call>, calls: nat)
    requires Accounted(log, None, queue, calls) && queue != []
    ensures queue[0].id == |SettledIds(log)|
  {
    var all := SettledIds(log) + PendingIds(None) + Ids(queue);
    assert all[|SettledIds(log)|] == Ids(queue)[0];
    assert all[|SettledIds(log)|] == UpTo(calls)[|SettledIds(log)|];
  }

  lemma WireSend(c: Client, call: Call)
    requires WireInv(c) && c.pending.None? && AcceptedHere(c, call) && call.id == |SettledIds(c.log)|
    ensures WireInv(SendCall(c.(pending := Some(call)), call))
  {
    LogSnoc(c.log, SendRequest(c.ws.value.id, call));
  }

  lemma {:induction false} ReleaseWire(c: Client)
    requires MidRequest(c) && c.pending.None? && WireInv(c)
    ensures WireInv(Release(c))
    decreases |c.queue|
  {
    if c.queue == [] {
    } else {
      hide Accounted, WireInv;
      var call, rest := c.queue[0], c.queue[1..];
      AccountedFront(c.log, c.queue, c.calls);
      if c.ws.None? {
        AccountedPop(c.log, c.queue, c.calls);
        AccountedSettle(c.log, call, SendFailed, rest, c.calls);
        WireSettle(c, call.id);
        ReleaseWire(Log(c.(queue := rest), Settles(call.id, SendFailed)));
      } else {
        assert AcceptedHere(c, c.queue[0]);
        WireQueue(c, rest);
        WireSend(c.(queue := rest), call);
      }
    }
  }

  lemma WireQueue(c: Client, queue: seq<Call>)
    requires WireInv(c)
    ensures WireInv(c.(queue := queue))
  {
  }

  lemma WireSettle(c: Client, id: nat)
    requires WireInv(c) && c.queue != []
    ensures WireInv(Log(c.(queue := c.queue[1..]), Settles(id, SendFailed)))
  {
    LogSnoc(c.log, Settles(id, SendFailed));
  }

  lemma WireStep(c: Client, e: Event)
    requires ConnectionInv(c) && RequestInv(c) && Possible(c, e) && WireInv(c)
    ensures WireInv(Next(c, e))
  {
    var mid := BeforeRelease(c, e);
    StepThenRelease(c, e);
    MiddleRequest(c, e);
    MiddleSameWire(c, e);
    assert WireInv(mid);
    if mid.pending.None? {
      ReleaseWire(mid);
    }
  }

  // ── Every step keeps it: backoff and silence ─────────────────────────────

  lemma LogBackoff(log: seq<Out>, o: Out)
    requires !(o.ConnectCalled? || o.EmitReconnect? || o.EmitReconnectFailed?)
    ensures Reconnects(log + [o]) == Reconnects(log) && GiveUps(log + [o]) == GiveUps(log)
  {
    assert (log + [o])[..|log|] == log;
  }

  lemma LogSilence(log: seq<Out>, o: Out)
    ensures Silenced(log + [o]) == if o.ConnectCalled? then false else if o.DisconnectCalled? then true else Silenced(log)
    ensures OpensWhileSilenced(log + [o]) == (OpensWhileSilenced(log) || (o.Opens? && Silenced(log)))
  {
    var all := log + [o];
    assert all[..|log|] == log;
    if OpensWhileSilenced(log) {
      var i :| 0 <= i < |log| && log[i].Opens? && Silenced(log[..i]);
      assert all[i].Opens? && all[..i] == log[..i];
    }
    if OpensWhileSilenced(all) {
      var i :| 0 <= i < |all| && all[i].Opens? && Silenced(all[..i]);
      if i < |log| {
        assert all[..i] == log[..i];
      }
    }
    if o.Opens? && Silenced(log) {
      assert all[|log|].Opens? && all[..|log|] == log;
    }
  }

  /** A plain output leaves backoff and silence alone. */
  lemma LogPlain(c: Client, o: Out)
    requires Neutral(o) || o.Settles? || o.SendRequest?
    ensures BackoffInv(c) ==> BackoffInv(Log(c, o))
    ensures SilenceInv(c) ==> SilenceInv(Log(c, o))
    ensures Reconnects(Log(c, o).log) == Reconnects(c.log) && GiveUps(Log(c, o).log) == GiveUps(c.log)
  {
    LogBackoff(c.log, o);
    LogSilence(c.log, o);
  }

  lemma {:induction false} ReleasePlain(c: Client)
    requires BackoffInv(c) && SilenceInv(c)
    ensures BackoffInv(Release(c)) && SilenceInv(Release(c))
    decreases |c.queue|
  {
    if c.queue == [] {
    } else {
      hide Reconnects, GiveUps, Silenced, OpensWhileSilenced;
      var call, rest := c.queue[0], c.(queue := c.queue[1..]);
      if c.ws.None? {
        LogPlain(rest, Settles(call.id, SendFailed));
        ReleasePlain(Log(rest, Settles(call.id, SendFailed)));
      } else {
        LogPlain(rest.(pending := Some(call)), SendRequest(c.ws.value.id, call));
      }
    }
  }

  lemma SettlePlain(c: Client, outcome: Outcome)
    requires c.pending.Some? && BackoffInv(c) && SilenceInv(c)
    ensures BackoffInv(SettlePending(c, outcome)) && SilenceInv(SettlePending(c, outcome))
  {
    LogPlain(c, Settles(c.pending.value.id, outcome));
  }

  lemma BackoffSnoc(base: nat, k: nat)
    ensures Backoff(base, k + 1) == Backoff(base, k) + [(k + 1, Mul2(base, k))]
  {
  }

  lemma GiveUpBackoff(c: Client)
    requires BackoffInv(c) && SilenceInv(c) && c.attempt == c.opts.maxAttempts
    ensures BackoffInv(ScheduleReconnect(c)) && SilenceInv(ScheduleReconnect(c))
  {
    var given := Log(c.(attempt := c.attempt + 1, timer := None), EmitReconnectFailed);
    assert given.log[..|c.log|] == c.log;
    LogSilence(c.log, EmitReconnectFailed);
    LogBackoff(given.log, StateChange(c.fsm, Disconnected));
    LogSilence(given.log, StateChange(c.fsm, Disconnected));
  }

  lemma ScheduleBackoff(c: Client)
    requires BackoffInv(c) && SilenceInv(c) && c.attempt <= c.opts.maxAttempts
    ensures BackoffInv(ScheduleReconnect(c)) && SilenceInv(ScheduleReconnect(c))
  {
    if c.attempt == c.opts.maxAttempts {
      GiveUpBackoff(c);
    } else {
      var retry := EmitReconnect(c.attempt + 1, Mul2(c.opts.baseDelay, c.attempt));
      assert (c.log + [retry])[..|c.log|] == c.log;
      LogSilence(c.log, retry);
      BackoffSnoc(c.opts.baseDelay, c.attempt);
    }
  }

  lemma CloseBackoff(c: Client)
    requires ConnectionInv(c) && BackoffInv(c) && SilenceInv(c) && c.ws.Some?
    ensures BackoffInv(OnClose(c)) && SilenceInv(OnClose(c))
  {
    hide Reconnects, GiveUps, Silenced, OpensWhileSilenced;
    var c1 := c.(ws := None, resolver := false);
    if c.pending.Some? {
      SettlePlain(c1, ConnectionClosed);
    }
    var c2 := if c1.pending.Some? then SettlePending(c1, ConnectionClosed) else c1;
    LogPlain(c2, EmitDisconnect);
    var c3 := Log(c2, EmitDisconnect);
    LogPlain(c3, StateChange(c3.fsm, Disconnected));
    LogPlain(c3, StateChange(c3.fsm, Reconnecting));
    assert c3.attempt <= c3.opts.maxAttempts;
    if WillReconnect(c3) {
      ScheduleBackoff(Transition(c3, Reconnecting));
    }
  }

  /** Opening a socket is never done in silence: connect() ends it, and a timer that could fire
      has been cleared by disconnect(). */
  lemma OpenBackoff(c: Client)
    requires BackoffInv(c.(timer := None)) && SilenceInv(c) && !c.explicit && c.timer.None?
    requires c.attempt <= c.opts.maxAttempts
    ensures BackoffInv(OpenSocket(c)) && SilenceInv(OpenSocket(c))
  {
    hide Reconnects, GiveUps, Silenced, OpensWhileSilenced;
    LogPlain(c, StateChange(c.fsm, Connecting));
    var c1 := Transition(c, Connecting);
    LogBackoff(c1.log, Opens(c.sockets));
    LogSilence(c1.log, Opens(c.sockets));
  }

  lemma ConnectBackoff(c: Client)
    requires ConnectionInv(c) && BackoffInv(c) && SilenceInv(c) && c.fsm.Disconnected?
    ensures var restarted := Log(c, ConnectCalled).(explicit := false, attempt := 0);
      BackoffInv(restarted) && SilenceInv(restarted)
  {
    assert (c.log + [ConnectCalled])[..|c.log|] == c.log;
    LogSilence(c.log, ConnectCalled);
    assert Backoff(c.opts.baseDelay, 0) == [];
  }

  lemma ReceiveBackoff(c: Client, f: Frame)
    requires ConnectionInv(c) && RequestInv(c) && Possible(c, Receive(f)) && BackoffInv(c) && SilenceInv(c)
    ensures BackoffInv(BeforeRelease(c, Receive(f))) && SilenceInv(BeforeRelease(c, Receive(f)))
  {
    hide Reconnects, GiveUps, Silenced, OpensWhileSilenced, BackoffInv, SilenceInv;
    match f {
      case Garbage => LogPlain(c, EmitError);
      case RegisterOk =>
        if c.resolver {
          RegisterOkBackoff(c);
        }
      case ErrorEnvelope =>
        if c.pending.Some? {
          SettlePlain(c, ServerError);
        }
      case SignalIn => LogPlain(c, EmitPush(f));
      case NotifyIn => LogPlain(c, EmitPush(f));
      case Reply(kind, origin) =>
        if c.pending.Some? {
          SettlePlain(c, Replied(origin));
        }
      case Other =>
    }
  }

  lemma RegisterOkBackoff(c: Client)
    requires BackoffInv(c) && SilenceInv(c) && ConnectionInv(c) && c.resolver
    ensures BackoffInv(BeforeRelease(c, Receive(RegisterOk))) && SilenceInv(BeforeRelease(c, Receive(RegisterOk)))
  {
    hide Reconnects, GiveUps, Silenced, OpensWhileSilenced;
    var c0 := c.(resolver := false);
    LogPlain(c0, StateChange(c.fsm, Ready));
    assert BackoffInv(Transition(c0, Ready)) && SilenceInv(Transition(c0, Ready));
    LogPlain(Transition(c0, Ready), EmitRegistered);
  }

  lemma MiddleBackoff(c: Client, e: Event)
    requires ConnectionInv(c) && RequestInv(c) && Possible(c, e) && BackoffInv(c) && SilenceInv(c)
    ensures BackoffInv(BeforeRelease(c, e)) && SilenceInv(BeforeRelease(c, e))
  {
    hide Reconnects, GiveUps, Silenced, OpensWhileSilenced, Accounted;
    match e {
      case CallConnect =>
        LogPlain(c, Throws);
        if c.fsm.Disconnected? {
          ConnectBackoff(c);
          OpenBackoff(Log(c, ConnectCalled).(explicit := false, attempt := 0));
        }
      case CallDisconnect =>
        LogBackoff(c.log, DisconnectCalled);
        LogSilence(c.log, DisconnectCalled);
        var c1 := Log(c, DisconnectCalled).(explicit := true, timer := None);
        LogPlain(c1, StateChange(c1.fsm, Disconnected));
        LogPlain(Transition(c1, Disconnected), EmitDisconnect);
      case CallRequest(expected) =>
        LogPlain(c, Throws);
        LogPlain(c, Accepts(Call(c.calls, expected, if c.ws.Some? then c.ws.value.id else 0)));
      case CallPush =>
        LogPlain(c, Throws);
        if c.ws.Some? {
          LogPlain(c, SendPush(c.ws.value.id));
        }
      case SocketOpened =>
        var c0 := c.(ws := Some(c.ws.value.(phase := Open)));
        LogPlain(c0, StateChange(c.fsm, Registering));
        LogPlain(Transition(c0, Registering), SendRegister(c.ws.value.id));
      case SocketFailedToOpen =>
      case Receive(f) => ReceiveBackoff(c, f);
      case RegisterTimesOut =>
      case SocketCloses => CloseBackoff(c);
      case SocketErrs => LogPlain(c, EmitError);
      case TimerFires => OpenBackoff(c.(timer := None));
    }
  }

  // ── Every run ────────────────────────────────────────────────────────────

  ghost predicate Inv(c: Client) {
    ConnectionInv(c) && RequestInv(c) && WireInv(c) && BackoffInv(c) && SilenceInv(c)
  }

  lemma InvStep(c: Client, e: Event)
    requires Inv(c) && Possible(c, e)
    ensures Inv(Next(c, e))
  {
    hide ConnectionInv, RequestInv, WireInv, BackoffInv, SilenceInv;
    ConnectionStep(c, e);
    RequestStep(c, e);
    WireStep(c, e);
    MiddleBackoff(c, e);
    StepThenRelease(c, e);
    if BeforeRelease(c, e).pending.None? {
      ReleasePlain(BeforeRelease(c, e));
    }
  }

  /** A run from a fresh client: `None` when some event was not possible where it stands. */
  function Run(opts: Options, events: seq<Event>): Option<Client> {
    if events == [] then Some(Initial(opts))
    else
      var before := Run(opts, events[..|events| - 1]);
      var e := events[|events| - 1];
      if before.Some? && Possible(before.value, e) then Some(Next(before.value, e)) else None
  }

  lemma {:induction false} InvRun(opts: Options, events: seq<Event>)
    requires Run(opts, events).Some?
    ensures Inv(Run(opts, events).value)
  {
    if events == [] {
      assert Backoff(opts.baseDelay, 0) == [];
    } else {
      var init := events[..|events| - 1];
      InvRun(opts, init);
      InvStep(Run(opts, init).value, events[|events| - 1]);
    }
  }

  // ── What callers can rely on ─────────────────────────────────────────────

  /** The fields agree with the state in every run. In particular the close handler only ever
      runs while registering or ready, so its other cases are never taken. */
  lemma StatesAreCoherent(opts: Options, events: seq<Event>)
    requires Run(opts, events).Some?
    ensures var c := Run(opts, events).value;
      && (c.timer.Some? <==> c.fsm.Reconnecting?) && (c.timer.Some? ==> c.ws.None?)
      && (c.fsm.Ready? ==> c.ws.Some?)
      && (c.fsm.Disconnected? ==> c.ws.None? && c.timer.None? && !c.resolver && c.pending.None? && c.queue == [])
      && (Possible(c, SocketCloses) ==> c.fsm.Ready? || c.fsm.Registering?)
  {
    InvRun(opts, events);
  }

  /** No socket is opened between a disconnect() and the next connect(). */
  lemma QuietAfterDisconnect(opts: Options, events: seq<Event>, i: nat)
    requires Run(opts, events).Some? && i < |Run(opts, events).value.log|
    requires Run(opts, events).value.log[i].Opens?
    ensures !Silenced(Run(opts, events).value.log[..i])
  {
    InvRun(opts, events);
  }

  function TotalDelay(rs: seq<(nat, nat)>): nat {
    if rs == [] then 0 else TotalDelay(rs[..|rs| - 1]) + rs[|rs| - 1].1
  }

  lemma {:induction false} TotalBackoff(base: nat, k: nat)
    ensures TotalDelay(Backoff(base, k)) + base == Mul2(base, k)
  {
    if k == 0 {
    } else {
      TotalBackoff(base, k - 1);
      BackoffSnoc(base, k - 1);
      assert Backoff(base, k)[..k - 1] == Backoff(base, k - 1);
    }
  }

  lemma {:induction false} Mul2Grows(base: nat, j: nat, k: nat)
    requires j <= k
    ensures Mul2(base, j) <= Mul2(base, k)
  {
    if j < k {
      Mul2Grows(base, j, k - 1);
    }
  }

  /** Between two explicit connects the k-th reconnect event announces `base * 2^(k-1)`, there are
      at most `maxAttempts` of them, whatever registers succeeded in between, and giving up is
      announced at most once. */
  lemma ReconnectsAreBounded(opts: Options, events: seq<Event>)
    requires Run(opts, events).Some?
    ensures var log := Run(opts, events).value.log;
      && |Reconnects(log)| <= opts.maxAttempts
      && (forall i :: 0 <= i < |Reconnects(log)| ==> Reconnects(log)[i] == (i + 1, Mul2(opts.baseDelay, i)))
      && TotalDelay(Reconnects(log)) <= Mul2(opts.baseDelay, opts.maxAttempts) - opts.baseDelay
      && GiveUps(log) <= 1
      && (GiveUps(log) == 1 ==> |Reconnects(log)| == opts.maxAttempts)
  {
    InvRun(opts, events);
    OptsKept(opts, events);
    var c := Run(opts, events).value;
    var k := Smaller(c.attempt, opts.maxAttempts);
    TotalBackoff(opts.baseDelay, k);
    Mul2Grows(opts.baseDelay, k, opts.maxAttempts);
  }

  lemma {:induction false} OptsKept(opts: Options, events: seq<Event>)
    requires Run(opts, events).Some?
    ensures Run(opts, events).value.opts == opts
  {
    if events == [] {
    } else {
      var init, e := events[..|events| - 1], events[|events| - 1];
      OptsKept(opts, init);
      InvRun(opts, init);
      StepThenRelease(Run(opts, init).value, e);
      ReleaseFrame(BeforeRelease(Run(opts, init).value, e));
    }
  }

  /** Calls settle in the order they were accepted, none twice, none lost. */
  lemma CallsSettleInOrder(opts: Options, events: seq<Event>)
    requires Run(opts, events).Some?
    ensures var c := Run(opts, events).value;
      SettledIds(c.log) + PendingIds(c.pending) + Ids(c.queue) == UpTo(c.calls)
  {
    InvRun(opts, events);
  }

  /** On the wire: call order, each frame on the socket on which its call was accepted, and at
      most one request that has no answer yet, which is then the last one sent. */
  lemma WireIsSerial(opts: Options, events: seq<Event>)
    requires Run(opts, events).Some?
    ensures var c := Run(opts, events).value; var wire := Wire(c.log);
      && (forall i, j :: 0 <= i < j < |wire| ==> wire[i].1.id < wire[j].1.id)
      && (forall i :: 0 <= i < |wire| ==> wire[i].0 == wire[i].1.acceptedOn)
      && (forall i :: 0 <= i < |wire| && wire[i].1.id !in SettledIds(c.log) ==>
            i == |wire| - 1 && c.pending.Some? && c.pending.value.id == wire[i].1.id)
  {
    InvRun(opts, events);
    var c := Run(opts, events).value;
    var wire, settled := Wire(c.log), SettledIds(c.log);
    SettledPrefix(c);
    forall i | 0 <= i < |wire|
      ensures wire[i].1.id in settled
           || (i == |wire| - 1 && c.pending.Some? && c.pending.value.id == wire[i].1.id)
    {
      assert wire[i].1.id < |settled| ==> settled[wire[i].1.id] == wire[i].1.id;
      assert i < |wire| - 1 ==> wire[i].1.id < wire[|wire| - 1].1.id;
    }
  }

  lemma SettledPrefix(c: Client)
    requires RequestInv(c)
    ensures forall i :: 0 <= i < |SettledIds(c.log)| ==> SettledIds(c.log)[i] == i
    ensures c.pending.Some? ==> c.pending.value.id == |SettledIds(c.log)|
  {
    var all := SettledIds(c.log) + PendingIds(c.pending) + Ids(c.queue);
    forall i | 0 <= i < |SettledIds(c.log)|
      ensures SettledIds(c.log)[i] == i
    {
      assert all[i] == UpTo(c.calls)[i];
    }
    if c.pending.Some? {
      assert all[|SettledIds(c.log)|] == UpTo(c.calls)[|SettledIds(c.log)|];
    }
  }

  /** What a release may add to the log when there is no socket. */
  predicate FailsOnly(log: seq<Out>, longer: seq<Out>) {
    log <= longer && forall i :: |log| <= i < |longer| ==>
      (longer[i].Settles? ==> longer[i].outcome in {ConnectionClosed, SendFailed})
      && !longer[i].Opens? && !longer[i].SendRequest?
  }

  lemma {:induction false} ReleaseFails(c: Client)
    requires c.ws.None? && c.pending.None?
    ensures FailsOnly(c.log, Release(c).log) && Release(c).pending.None? && Release(c).queue == []
    decreases |c.queue|
  {
    if c.queue == [] {
    } else {
      ReleaseFails(Log(c.(queue := c.queue[1..]), Settles(c.queue[0].id, SendFailed)));
    }
  }

  lemma CloseFails(c: Client)
    ensures FailsOnly(c.log, OnClose(c).log) && OnClose(c).calls == c.calls
  {
  }

  lemma CloseSettles(c: Client)
    requires RequestInv(c) && RequestInv(Release(OnClose(c)))
    ensures var d := Release(OnClose(c));
      d.pending.None? && d.queue == [] && d.ws.None? && SettledIds(d.log) == UpTo(c.calls) && FailsOnly(c.log, d.log)
  {
    hide OnClose, SettledIds;
    var d := Release(OnClose(c));
    CloseMid(c);
    CloseFails(c);
    ReleaseFails(OnClose(c));
    ReleaseFrame(OnClose(c));
    assert SettledIds(d.log) + [] + [] == SettledIds(d.log);
  }

  /** A close settles the pending call and every queued one with an error, in one step that opens
      nothing; so no call accepted on one connection is left for a later one. */
  lemma CloseSettlesEverything(opts: Options, events: seq<Event>)
    requires Run(opts, events + [SocketCloses]).Some?
    ensures Run(opts, events).Some?
    ensures var c := Run(opts, events).value; var d := Run(opts, events + [SocketCloses]).value;
      && d.pending.None? && d.queue == [] && d.ws.None?
      && SettledIds(d.log) == UpTo(c.calls)
      && FailsOnly(c.log, d.log)
  {
    var all := events + [SocketCloses];
    assert all[..|events|] == events;
    InvRun(opts, events);
    InvRun(opts, all);
    CloseSettles(Run(opts, events).value);
  }

  /** A socket that failed to open, or was closed before it opened, leaves the client in
      `connecting` for good: no later event of any kind changes the state or opens a socket. */
  lemma {:induction false} StallsWhenOpenFails(opts: Options, events: seq<Event>, more: seq<Event>)
    requires Run(opts, events + more).Some? && Run(opts, events).Some?
    requires InPhase(Run(opts, events).value, {Dead, Aborting})
    ensures var b, c := Run(opts, events).value, Run(opts, events + more).value;
      && c.fsm.Connecting? && c.sockets == b.sockets && InPhase(c, {Dead, Aborting})
      && (InPhase(b, {Dead}) ==> c.ws == b.ws)
    decreases |more|
  {
    InvRun(opts, events);
    if more == [] {
      assert events + more == events;
    } else {
      var init, e := more[..|more| - 1], more[|more| - 1];
      assert (events + more)[..|events + more| - 1] == events + init;
      StallsWhenOpenFails(opts, events, init);
      InvRun(opts, events + init);
      // Hidden in the goal only, here and below: the steps before need the definitions.
      hide Inv, RequestInv, Mul2;
    }
  }

  /** Both kinds of stall are two events away: a failed open, and a disconnect() before the open. */
  lemma StallsReachable(opts: Options)
    ensures var failed := Run(opts, [] + [CallConnect] + [SocketFailedToOpen]);
      failed.Some? && failed.value.fsm.Connecting? && InPhase(failed.value, {Dead})
    ensures var closed := Run(opts, [] + [CallConnect] + [CallDisconnect]);
      closed.Some? && closed.value.fsm.Connecting? && InPhase(closed.value, {Aborting})
  {
    var start := [] + [CallConnect];
    assert start[..0] == [] && Run(opts, []) == Some(Initial(opts));
    assert Run(opts, start) == Some(Next(Initial(opts), CallConnect));
    assert (start + [SocketFailedToOpen])[..1] == start && (start + [CallDisconnect])[..1] == start;
  }

  /** Exactly when a connecting client can still leave `connecting`: while its socket is opening. */
  lemma {:induction false} LeavesConnectingIff(opts: Options, events: seq<Event>)
    requires Run(opts, events).Some? && Run(opts, events).value.fsm.Connecting?
    ensures (exists more :: Run(opts, events + more).Some? && !Run(opts, events + more).value.fsm.Connecting?)
       <==> InPhase(Run(opts, events).value, {Opening})
  {
    InvRun(opts, events);
    var c := Run(opts, events).value;
    if InPhase(c, {Opening}) {
      var more := [SocketOpened];
      assert (events + more)[..|events|] == events;
      assert Run(opts, events + more) == Some(Next(c, SocketOpened));
      assert Next(c, SocketOpened).fsm == Registering;
    } else {
      forall more | Run(opts, events + more).Some?
        ensures Run(opts, events + more).value.fsm.Connecting?
      {
        StallsWhenOpenFails(opts, events, more);
      }
    }
  }
}
