/** The rendezvous client on the wire of the rendezvous server itself, among any other sockets.

    Client socket `k` is server socket `k`. Frames of the client that ask for no reply, and frames of
    other sockets, reach the server in any number and order. */
module ClientServer {
  import opened Prelude
  import C = RendezvousClient
  import Srv = RendezvousServer
  import N = RequestReply
  import E = ClientEffects
  import SE = ServerEffects
  import PeerId

  /** `served`: the events the server has handled; its state is the run of them. */
  datatype World = World(net: N.Net, served: seq<Srv.Event>)

  datatype Event =
    | AtClient(ce: C.Event)
    | ServesRequest(e: Srv.Event)
    | ServesOther(e: Srv.Event)
    | Delivers
    | Ends

  function Current(c: C.Client): Option<Srv.Socket> {
    if c.ws.Some? then Some(c.ws.value.id) else None
  }

  /** The payloads behind a call: both invite requests wait for the same reply. */
  predicate Asks(p: Srv.Payload, expected: C.ReplyType) {
    if expected.LookupResult? then p.Lookup? else p.InviteCreate? || p.InviteRedeem?
  }

  /** A request frame of the client's connection. */
  predicate FromClient(w: World, e: Srv.Event) {
    e.Frame? && Current(w.net.client) == Some(e.socket) && Srv.IsRequest(e.env.payload)
  }

  predicate Possible(w: World, e: Event) {
    match e
    case AtClient(ce) => N.NetPossible(w.net, N.Local(ce))
    case ServesRequest(se) => FromClient(w, se) && w.net.up != [] && Asks(se.env.payload, w.net.up[0].expected)
    case ServesOther(se) => !FromClient(w, se)
    case Delivers => N.NetPossible(w.net, N.Deliver)
    case Ends => N.NetPossible(w.net, N.ConnectionEnds)
  }

  /** What the client reads of an output; `cause` is the request that the server handled. */
  function FrameOf(o: Srv.Out, cause: nat): Option<C.Frame> {
    match o
    case Closed(_, _) => None
    case NotifyIn(_, _) => Some(C.NotifyIn)
    case RegisterOk(_) => Some(C.RegisterOk)
    case LookupResult(_, _) => Some(C.Reply(C.LookupResult, cause))
    case InviteResult(_, _) => Some(C.Reply(C.InviteResult, cause))
    case SignalIn(_, _, _) => Some(C.SignalIn)
  }

  /** The frames among `outs` that are written to `socket`. */
  function Written(outs: seq<Srv.Out>, socket: Option<Srv.Socket>, cause: nat): seq<C.Frame> {
    if outs == [] then []
    else
      var last := outs[|outs| - 1];
      Written(outs[..|outs| - 1], socket, cause)
      + if socket == Some(last.socket) && FrameOf(last, cause).Some? then [FrameOf(last, cause).value] else []
  }

  /** The server handles `e`: replies are marked with the request at the head of the wire, if that
      is what `e` is, and with an unused number otherwise. */
  function Served(cfg: Srv.Config, w: World, e: Srv.Event, cause: nat): seq<C.Frame> {
    Written(Srv.Outs(cfg, Srv.Run(cfg, w.served), e), Current(w.net.client), cause)
  }

  function Next(cfg: Srv.Config, w: World, e: Event): World
    requires Possible(w, e)
  {
    var n := w.net;
    match e
    case AtClient(ce) => w.(net := N.NetNext(n, N.Local(ce)))
    case ServesRequest(se) =>
      World(n.(up := n.up[1..], down := n.down + Served(cfg, w, se, n.up[0].id)), w.served + [se])
    case ServesOther(se) => World(n.(down := n.down + Served(cfg, w, se, n.client.calls)), w.served + [se])
    case Delivers => w.(net := N.NetNext(n, N.Deliver))
    case Ends => w.(net := N.NetNext(n, N.ConnectionEnds))
  }

  function Run(cfg: Srv.Config, opts: C.Options, events: seq<Event>): Option<World> {
    if events == [] then Some(World(N.Net(C.Initial(opts), [], []), []))
    else
      var before := Run(cfg, opts, events[..|events| - 1]);
      var e := events[|events| - 1];
      if before.Some? && Possible(before.value, e) then Some(Next(cfg, before.value, e)) else None
  }

  // ── The server is what the composition expects ───────────────────────────

  /** A request of the client is answered with one reply of the awaited kind, or a close. */
  lemma AnswersTheRequest(cfg: Srv.Config, st: Srv.State, e: Srv.Event, call: C.Call)
    requires e.Frame? && Srv.IsRequest(e.env.payload) && Asks(e.env.payload, call.expected)
    ensures Written(Srv.Outs(cfg, st, e), Some(e.socket), call.id) in {[], [N.AnswerTo(call)]}
  {
    Srv.RequestAnsweredOnce(cfg, st, e);
    var outs := Srv.Outs(cfg, st, e);
    hide Srv.Outs;
    assert outs[..|outs| - 1] == [] && Written([], Some(e.socket), call.id) == [];
    var f := FrameOf(outs[0], call.id);
    assert f.None? || f.value == N.AnswerTo(call);
    assert Written(outs, Some(e.socket), call.id) == if f.Some? then [f.value] else [];
  }

  predicate NoReplies(fs: seq<C.Frame>) {
    forall i :: 0 <= i < |fs| ==> !fs[i].Reply? && !fs[i].ErrorEnvelope?
  }

  lemma {:induction false} WrittenNoReplies(outs: seq<Srv.Out>, socket: Option<Srv.Socket>, cause: nat)
    requires forall o :: o in outs && socket == Some(o.socket) ==> !o.LookupResult? && !o.InviteResult?
    ensures NoReplies(Written(outs, socket, cause))
  {
    if outs == [] {
    } else {
      var init, last := outs[..|outs| - 1], outs[|outs| - 1];
      assert last in outs && forall o :: o in init ==> o in outs;
      WrittenNoReplies(init, socket, cause);
    }
  }

  /** Whatever else the server handles writes no reply to the client's connection. */
  lemma RepliesToNothingElse(cfg: Srv.Config, w: World, e: Srv.Event, cause: nat)
    requires !FromClient(w, e)
    ensures NoReplies(Served(cfg, w, e, cause))
  {
    var outs := Srv.Outs(cfg, Srv.Run(cfg, w.served), e);
    forall o | o in outs && Current(w.net.client) == Some(o.socket)
      ensures !o.LookupResult? && !o.InviteResult?
    {
      if o.LookupResult? || o.InviteResult? {
        Srv.RepliesAreSolicited(cfg, Srv.Run(cfg, w.served), e, o);
      }
    }
    hide Srv.Outs, Srv.Run;
    WrittenNoReplies(outs, Current(w.net.client), cause);
  }

  // ── The invariant carries over ───────────────────────────────────────────

  lemma {:induction false} EmitsKeep(n: N.Net, fs: seq<C.Frame>)
    requires N.NetInv(n) && NoReplies(fs)
    ensures N.NetInv(n.(down := n.down + fs))
    decreases |fs|
  {
    if fs == [] {
      assert n.down + fs == n.down;
    } else {
      var init, last := fs[..|fs| - 1], fs[|fs| - 1];
      EmitsKeep(n, init);
      N.ServerStep(n.(down := n.down + init), N.ServerEmits(last));
      assert n.down + fs == (n.down + init) + [last];
      // Hidden in the goal only, here and below: the steps before need the definitions.
      hide N.NetInv;
    }
  }

  lemma RequestKeeps(cfg: Srv.Config, w: World, e: Srv.Event)
    requires N.NetInv(w.net) && Possible(w, ServesRequest(e))
    ensures N.NetInv(Next(cfg, w, ServesRequest(e)).net)
  {
    var n := w.net;
    AnswersTheRequest(cfg, Srv.Run(cfg, w.served), e, n.up[0]);
    N.ServerStep(n, N.ServerAnswers);
    N.ServerStep(n, N.ServerIgnores);
    hide N.NetInv, Srv.Outs, Srv.Run, Written;
    assert n.down + [] == n.down;
  }

  lemma {:induction false} WorldInv(cfg: Srv.Config, opts: C.Options, events: seq<Event>)
    requires Run(cfg, opts, events).Some?
    ensures N.NetInv(Run(cfg, opts, events).value.net)
  {
    if events == [] {
      C.InvRun(opts, []);
    } else {
      hide N.NetInv, N.NetNext, Served;
      var init, e := events[..|events| - 1], events[|events| - 1];
      WorldInv(cfg, opts, init);
      var w := Run(cfg, opts, init).value;
      match e {
        case AtClient(ce) => N.LocalStep(w.net, ce);
        case ServesRequest(se) => RequestKeeps(cfg, w, se);
        case ServesOther(se) =>
          RepliesToNothingElse(cfg, w, se, w.net.client.calls);
          EmitsKeep(w.net, Served(cfg, w, se, w.net.client.calls));
        case Delivers => N.DeliverStep(w.net);
        case Ends => N.EndStep(w.net);
      }
    }
  }

  /** The rendezvous server answers the rendezvous client: in every run, among any other traffic,
      each caller that gets a reply gets the one its own request caused. */
  lemma {:induction false} EveryCallerGetsItsOwnReply(cfg: Srv.Config, opts: C.Options, events: seq<Event>, i: nat)
    requires Run(cfg, opts, events).Some? && i < |Run(cfg, opts, events).value.net.client.log|
    requires var o := Run(cfg, opts, events).value.net.client.log[i]; o.Settles? && o.outcome.Replied?
    ensures var o := Run(cfg, opts, events).value.net.client.log[i]; o.outcome.origin == o.id
  {
    WorldInv(cfg, opts, events);
    hide Run, C.Inv;
  }

  /** At most one request is between the client and its answer, and a reply that arrives is the
      answer to the pending call. */
  lemma {:induction false} OneRequestUnderWay(cfg: Srv.Config, opts: C.Options, events: seq<Event>)
    requires Run(cfg, opts, events).Some?
    ensures var n := Run(cfg, opts, events).value.net;
      && |n.up| + |N.Replies(n.down)| <= 1
      && (n.down != [] && n.down[0].Reply? ==>
            n.client.pending.Some? && n.down[0] == N.AnswerTo(n.client.pending.value))
  {
    WorldInv(cfg, opts, events);
    var n := Run(cfg, opts, events).value.net;
    hide Run, C.Inv;
    if n.down != [] && n.down[0].Reply? {
      N.DeliveredReplyIsAnswer(n);
    }
  }

  // ── What is answered was sent ────────────────────────────────────────────

  lemma {:induction false} EmitsKeepSent(n: N.Net, fs: seq<C.Frame>)
    requires N.SentNet(n) && NoReplies(fs)
    ensures N.SentNet(n.(down := n.down + fs))
  {
    hide N.OnWire, N.RepliedOnWire;
    var down := n.down + fs;
    forall i | |n.down| <= i < |down|
      ensures !down[i].Reply?
    {
      assert down[i] == fs[i - |n.down|];
    }
    assert forall i :: 0 <= i < |n.down| ==> down[i] == n.down[i];
  }

  lemma RequestKeepsSent(cfg: Srv.Config, w: World, e: Srv.Event)
    requires N.SentNet(w.net) && N.NetInv(w.net) && Possible(w, ServesRequest(e))
    ensures N.SentNet(Next(cfg, w, ServesRequest(e)).net)
  {
    var n := w.net;
    AnswersTheRequest(cfg, Srv.Run(cfg, w.served), e, n.up[0]);
    N.SentNetStep(n, N.ServerAnswers);
    N.SentNetStep(n, N.ServerIgnores);
    hide N.NetInv, N.SentNet, Srv.Outs, Srv.Run, Written;
    assert n.down + [] == n.down;
  }

  lemma {:induction false} WorldSent(cfg: Srv.Config, opts: C.Options, events: seq<Event>)
    requires Run(cfg, opts, events).Some?
    ensures N.SentNet(Run(cfg, opts, events).value.net)
  {
    if events == [] {
    } else {
      hide N.NetInv, N.SentNet, N.NetNext, Served;
      var init, e := events[..|events| - 1], events[|events| - 1];
      WorldSent(cfg, opts, init);
      WorldInv(cfg, opts, init);
      var w := Run(cfg, opts, init).value;
      match e {
        case AtClient(ce) => N.SentNetStep(w.net, N.Local(ce));
        case ServesRequest(se) => RequestKeepsSent(cfg, w, se);
        case ServesOther(se) =>
          RepliesToNothingElse(cfg, w, se, w.net.client.calls);
          EmitsKeepSent(w.net, Served(cfg, w, se, w.net.client.calls));
        case Delivers => N.SentNetStep(w.net, N.Deliver);
        case Ends => N.SentNetStep(w.net, N.ConnectionEnds);
      }
    }
  }

  /** A call settled with a reply had its request sent before. */
  lemma {:induction false} RepliedWasSent(cfg: Srv.Config, opts: C.Options, events: seq<Event>, i: nat)
    requires Run(cfg, opts, events).Some? && i < |Run(cfg, opts, events).value.net.client.log|
    requires var o := Run(cfg, opts, events).value.net.client.log[i]; o.Settles? && o.outcome.Replied?
    ensures var log := Run(cfg, opts, events).value.net.client.log; N.OnWire(log, log[i].id)
  {
    WorldSent(cfg, opts, events);
    hide Run, N.OnWire;
  }

  // ── A lookup, from the start ─────────────────────────────────────────────

  lemma RunSnoc(cfg: Srv.Config, opts: C.Options, events: seq<Event>, e: Event)
    requires Run(cfg, opts, events).Some? && Possible(Run(cfg, opts, events).value, e)
    ensures Run(cfg, opts, events + [e]) == Some(Next(cfg, Run(cfg, opts, events).value, e))
  {
    assert (events + [e])[..|events|] == events;
  }

  /** The register frame of socket 0 for the id of `key`, signed with it, and a lookup frame after it. */
  function RegisterFrame(key: seq<byte>, now: int): Srv.Event
    requires PeerId.EncodePeerIdSpec(key).Ok?
  {
    Srv.Frame(0, Srv.Envelope(Srv.Register(PeerId.EncodePeerIdSpec(key).value), Some(key)), "ip", now, true, false)
  }

  function LookupFrame(key: seq<byte>, p: string, now: int): Srv.Event {
    Srv.Frame(0, Srv.Envelope(Srv.Lookup(p), Some(key)), "ip", now, true, false)
  }

  /** The server's side: the register is confirmed and the lookup answered. */
  lemma ServerAnswersLookup(cfg: Srv.Config, key: seq<byte>, p: string, now: int)
    requires |key| == 32 && cfg.maxPeers >= 1
    ensures PeerId.EncodePeerIdSpec(key).Ok?
    ensures Srv.Outs(cfg, Srv.Run(cfg, []), RegisterFrame(key, now)) == [Srv.RegisterOk(0)]
    ensures exists found :: Srv.Outs(cfg, Srv.Run(cfg, [RegisterFrame(key, now)]), LookupFrame(key, p, now)) == [Srv.LookupResult(0, found)]
  {
    PeerId.RoundTrip(key);
    var register, lookup := RegisterFrame(key, now), LookupFrame(key, p, now);
    var id := PeerId.EncodePeerIdSpec(key).value;
    hide PeerId.EncodePeerIdSpec, PeerId.DecodePeerIdSpec;
    SE.EmptyIdMalformed();
    SE.RegisterAnswered(cfg, [], register);
    FirstRegisterDrainsNothing(cfg, register);
    assert [] + [register] == [register];
    assert SE.SpeaksFor(Srv.Run(cfg, [register]), lookup, id);
    SE.LookupAndSignalAnswered(cfg, [register], lookup, id);
  }

  lemma FirstRegisterDrainsNothing(cfg: Srv.Config, e: Srv.Event)
    requires SE.IsRegister(e) && SE.OwnsId(e) && e.env.payload.peerId != "" && cfg.maxPeers >= 1
    ensures Srv.Outs(cfg, Srv.Run(cfg, []), e) == [Srv.RegisterOk(e.socket)]
  {
    assert Srv.Run(cfg, []) == Srv.INITIAL;
    SE.DrainsFirst(cfg, Srv.INITIAL, e);
    hide PeerId.DecodePeerIdSpec, Srv.Outs;
    assert Srv.NotifyAll(e.socket, []) + [Srv.RegisterOk(e.socket)] == [Srv.RegisterOk(e.socket)];
  }

  lemma WrittenOne(o: Srv.Out, cause: nat)
    requires FrameOf(o, cause).Some?
    ensures Written([o], Some(o.socket), cause) == [FrameOf(o, cause).value]
  {
    assert [o][..0] == [] && Written([], Some(o.socket), cause) == [];
  }

  /** The client at its four stops on the way. */
  lemma ClientStops(opts: C.Options)
    ensures var c := C.Initial(opts);
      && C.Run(opts, []) == Some(c)
      && C.Possible(C.Next(c, C.CallConnect), C.SocketOpened)
      && var c2 := C.Next(C.Next(c, C.CallConnect), C.SocketOpened);
         Current(c2) == Some(0) && C.Possible(c2, C.Receive(C.RegisterOk))
         && C.Next(c2, C.Receive(C.RegisterOk)) == E.Registered(opts)
    ensures C.Wire(C.Initial(opts).log) == [] && C.Wire(C.Next(C.Initial(opts), C.CallConnect).log) == []
    ensures C.Wire(C.Next(C.Next(C.Initial(opts), C.CallConnect), C.SocketOpened).log) == []
    ensures C.Wire(E.Registered(opts).log) == []
  {
    var c := C.Initial(opts);
    var c1 := C.Next(c, C.CallConnect);
    C.LogSnoc([], C.ConnectCalled);
    C.LogSnoc([] + [C.ConnectCalled], C.StateChange(C.Disconnected, C.Connecting));
    C.LogSnoc([] + [C.ConnectCalled] + [C.StateChange(C.Disconnected, C.Connecting)], C.Opens(0));
    C.LogSnoc(c1.log, C.StateChange(C.Connecting, C.Registering));
    var log2 := c1.log + [C.StateChange(C.Connecting, C.Registering)];
    C.LogSnoc(log2, C.SendRegister(0));
    var log3 := log2 + [C.SendRegister(0)];
    C.LogSnoc(log3, C.StateChange(C.Registering, C.Ready));
    C.LogSnoc(log3 + [C.StateChange(C.Registering, C.Ready)], C.EmitRegistered);
    assert E.RegisteredLog() == log3 + [C.StateChange(C.Registering, C.Ready)] + [C.EmitRegistered];
  }

  lemma NothingNew(c: C.Client, d: C.Client)
    requires C.Wire(c.log) == C.Wire(d.log)
    ensures N.NewRequests(c, d) == []
  {
  }

  lemma OneNew(opts: C.Options)
    ensures var call := C.Call(0, C.LookupResult, 0);
      N.NewRequests(E.Registered(opts), E.Asked(opts, call)) == [call] && C.Wire(E.Asked(opts, call).log) == [(0, call)]
  {
    var call := C.Call(0, C.LookupResult, 0);
    ClientStops(opts);
    C.LogSnoc(E.RegisteredLog(), C.Accepts(call));
    C.LogSnoc(E.RegisteredLog() + [C.Accepts(call)], C.SendRequest(0, call));
    hide E.RegisteredLog, C.Wire;
    assert [] + [(0, call)] == [(0, call)];
  }

  /** Connected, registered and confirmed, with nothing on the wire. */
  function Confirmed(opts: C.Options, key: seq<byte>, now: int): World
    requires PeerId.EncodePeerIdSpec(key).Ok?
  {
    World(N.Net(E.Registered(opts), [], []), [RegisterFrame(key, now)])
  }

  function Stop(c: C.Client): World {
    World(N.Net(c, [], []), [])
  }

  /** A step of the client alone that sends no request. */
  lemma QuietStep(cfg: Srv.Config, c: C.Client, ce: C.Event)
    requires C.Possible(c, ce) && !ce.Receive? && !ce.SocketCloses?
    requires C.Wire(c.log) == C.Wire(C.Next(c, ce).log)
    ensures Possible(Stop(c), AtClient(ce)) && Next(cfg, Stop(c), AtClient(ce)) == Stop(C.Next(c, ce))
  {
    NothingNew(c, C.Next(c, ce));
    hide C.Next, C.Possible, C.Wire, N.NewRequests;
  }

  lemma ConfirmStep(cfg: Srv.Config, c: C.Client, key: seq<byte>, now: int)
    requires |key| == 32 && cfg.maxPeers >= 1 && Current(c) == Some(0)
    ensures PeerId.EncodePeerIdSpec(key).Ok?
    ensures var e := ServesOther(RegisterFrame(key, now));
      Possible(Stop(c), e) && Next(cfg, Stop(c), e) == World(N.Net(c, [], [C.RegisterOk]), [RegisterFrame(key, now)])
  {
    ServerAnswersLookup(cfg, key, "", now);
    WrittenOne(Srv.RegisterOk(0), c.calls);
    hide Srv.Outs, Srv.Run, Written, PeerId.EncodePeerIdSpec;
    assert [] + [C.RegisterOk] == [C.RegisterOk] && [] + [RegisterFrame(key, now)] == [RegisterFrame(key, now)];
  }

  lemma DeliverConfirmation(cfg: Srv.Config, c: C.Client, served: seq<Srv.Event>)
    requires C.Possible(c, C.Receive(C.RegisterOk)) && C.Wire(c.log) == C.Wire(C.Next(c, C.Receive(C.RegisterOk)).log)
    ensures var w := World(N.Net(c, [], [C.RegisterOk]), served);
      Possible(w, Delivers)
      && Next(cfg, w, Delivers) == World(N.Net(C.Next(c, C.Receive(C.RegisterOk)), [], []), served)
  {
    NothingNew(c, C.Next(c, C.Receive(C.RegisterOk)));
    hide C.Next, C.Possible, C.Wire, N.NewRequests;
    assert [C.RegisterOk][1..] == [];
  }

  function UntilConfirmed(key: seq<byte>, now: int): seq<Event>
    requires PeerId.EncodePeerIdSpec(key).Ok?
  {
    [] + [AtClient(C.CallConnect)] + [AtClient(C.SocketOpened)] + [ServesOther(RegisterFrame(key, now))] + [Delivers]
  }

  lemma ConfirmedReached(cfg: Srv.Config, opts: C.Options, key: seq<byte>, now: int)
    requires |key| == 32 && cfg.maxPeers >= 1
    ensures PeerId.EncodePeerIdSpec(key).Ok?
    ensures Run(cfg, opts, UntilConfirmed(key, now)) == Some(Confirmed(opts, key, now))
  {
    PeerId.RoundTrip(key);
    ClientStops(opts);
    var c, frame := C.Initial(opts), RegisterFrame(key, now);
    var c1 := C.Next(c, C.CallConnect);
    var c2 := C.Next(c1, C.SocketOpened);
    QuietStep(cfg, c, C.CallConnect);
    QuietStep(cfg, c1, C.SocketOpened);
    ConfirmStep(cfg, c2, key, now);
    DeliverConfirmation(cfg, c2, [frame]);
    assert Run(cfg, opts, []) == Some(Stop(c));
    hide Next, Run, Possible, C.Next, C.Possible, C.Initial, E.Registered, C.Wire, PeerId.EncodePeerIdSpec;
    RunSnoc(cfg, opts, [], AtClient(C.CallConnect));
    RunSnoc(cfg, opts, [] + [AtClient(C.CallConnect)], AtClient(C.SocketOpened));
    RunSnoc(cfg, opts, [] + [AtClient(C.CallConnect)] + [AtClient(C.SocketOpened)], ServesOther(frame));
    RunSnoc(cfg, opts, [] + [AtClient(C.CallConnect)] + [AtClient(C.SocketOpened)] + [ServesOther(frame)], Delivers);
  }

  lemma AskStep(cfg: Srv.Config, opts: C.Options, key: seq<byte>, now: int)
    requires PeerId.EncodePeerIdSpec(key).Ok?
    ensures var call, e := C.Call(0, C.LookupResult, 0), AtClient(C.CallRequest(C.LookupResult));
      Possible(Confirmed(opts, key, now), e)
      && Next(cfg, Confirmed(opts, key, now), e) == World(N.Net(E.Asked(opts, call), [call], []), [RegisterFrame(key, now)])
  {
    OneNew(opts);
    E.AskedNext(opts, C.LookupResult);
    hide C.Next, E.Registered, E.Asked, N.NewRequests, PeerId.EncodePeerIdSpec;
    var call := C.Call(0, C.LookupResult, 0);
    assert [] + [call] == [call];
  }

  lemma AnswerStep(cfg: Srv.Config, opts: C.Options, key: seq<byte>, p: string, now: int)
    requires |key| == 32 && cfg.maxPeers >= 1
    ensures PeerId.EncodePeerIdSpec(key).Ok?
    ensures var call, served, e := C.Call(0, C.LookupResult, 0), [RegisterFrame(key, now)], ServesRequest(LookupFrame(key, p, now));
      var w := World(N.Net(E.Asked(opts, call), [call], []), served);
      Possible(w, e)
      && Next(cfg, w, e) == World(N.Net(E.Asked(opts, call), [], [N.AnswerTo(call)]), served + [LookupFrame(key, p, now)])
  {
    ServerAnswersLookup(cfg, key, p, now);
    var call, served := C.Call(0, C.LookupResult, 0), [RegisterFrame(key, now)];
    var found :| Srv.Outs(cfg, Srv.Run(cfg, served), LookupFrame(key, p, now)) == [Srv.LookupResult(0, found)];
    WrittenOne(Srv.LookupResult(0, found), 0);
    assert Current(E.Asked(opts, call)) == Some(0);
    hide Srv.Outs, Srv.Run, Written, E.Asked, PeerId.EncodePeerIdSpec;
    assert [call][1..] == [] && [] + [N.AnswerTo(call)] == [N.AnswerTo(call)];
  }

  lemma DeliverAnswer(cfg: Srv.Config, opts: C.Options, served: seq<Srv.Event>)
    ensures var call := C.Call(0, C.LookupResult, 0);
      var w := World(N.Net(E.Asked(opts, call), [], [N.AnswerTo(call)]), served);
      Possible(w, Delivers)
      && Next(cfg, w, Delivers).net.client
         == C.Log(E.Asked(opts, call), C.Settles(0, C.Replied(0))).(pending := None)
  {
    E.AnsweredNext(opts, C.LookupResult, 0);
    hide C.Next, C.Possible, E.Asked, N.NewRequests;
  }

  /** From the start, for every key, any server with room and any id asked for: the client connects,
      registers, sends its lookup, and the server's answer settles it. */
  lemma LookupAnswered(cfg: Srv.Config, opts: C.Options, key: seq<byte>, p: string, now: int)
    requires |key| == 32 && cfg.maxPeers >= 1
    ensures PeerId.EncodePeerIdSpec(key).Ok?
    ensures var call := C.Call(0, C.LookupResult, 0);
      var end := Run(cfg, opts, UntilConfirmed(key, now) + [AtClient(C.CallRequest(C.LookupResult))]
                                + [ServesRequest(LookupFrame(key, p, now))] + [Delivers]);
      && end.Some? && C.Wire(end.value.net.client.log) == [(0, call)] && end.value.net.client.pending.None?
      && end.value.net.client.log == E.Asked(opts, call).log + [C.Settles(0, C.Replied(0))]
  {
    PeerId.RoundTrip(key);
    var call, before := C.Call(0, C.LookupResult, 0), UntilConfirmed(key, now);
    var ask, serve := AtClient(C.CallRequest(C.LookupResult)), ServesRequest(LookupFrame(key, p, now));
    ConfirmedReached(cfg, opts, key, now);
    AskStep(cfg, opts, key, now);
    AnswerStep(cfg, opts, key, p, now);
    DeliverAnswer(cfg, opts, [RegisterFrame(key, now)] + [LookupFrame(key, p, now)]);
    OneNew(opts);
    C.LogSnoc(E.Asked(opts, call).log, C.Settles(0, C.Replied(0)));
    hide Next, Run, Possible, E.Asked, E.Registered, C.Wire, UntilConfirmed, PeerId.EncodePeerIdSpec;
    RunSnoc(cfg, opts, before, ask);
    RunSnoc(cfg, opts, before + [ask], serve);
    RunSnoc(cfg, opts, before + [ask] + [serve], Delivers);
  }
}
