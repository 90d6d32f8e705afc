/** A client and a server over one connection at a time: replies name only their kind, yet each
    reaches the caller whose request caused it.

    The server side is any program that answers each request it reads at most once, in order and
    with the reply kind of that request, and replies to nothing else; `ClientServer` shows that the
    rendezvous server is one. */
module RequestReply {
  import opened Prelude
  import opened RendezvousClient

  /** Both directions of the current connection deliver in order. `up` holds the request frames
      the server has not read; frames without a reply do not matter there. */
  datatype Net = Net(client: Client, up: seq<Call>, down: seq<Frame>)

  datatype NetEvent =
    | Local(e: Event)
    | ServerAnswers
    | ServerIgnores
    | ServerEmits(f: Frame)
    | Deliver
    | ConnectionEnds

  predicate NetPossible(n: Net, e: NetEvent) {
    match e
    case Local(ce) => !ce.Receive? && !ce.SocketCloses? && Possible(n.client, ce)
    case ServerAnswers => n.up != []
    case ServerIgnores => n.up != []
    case ServerEmits(f) => !f.Reply? && !f.ErrorEnvelope?
    case Deliver => n.down != [] && Possible(n.client, Receive(n.down[0]))
    case ConnectionEnds => Possible(n.client, SocketCloses)
  }

  /** The requests that left between two moments of the client. */
  function Sent(c: Client, d: Client): seq<Call>
    requires |Wire(c.log)| <= |Wire(d.log)|
  {
    seq(|Wire(d.log)| - |Wire(c.log)|, i requires 0 <= i < |Wire(d.log)| - |Wire(c.log)| => Wire(d.log)[|Wire(c.log)| + i].1)
  }

  // ── How a step extends the wire ──────────────────────────────────────────

  /** Either nothing was sent, or exactly the call that is now pending. */
  predicate Extends(c: Client, d: Client) {
    Wire(d.log) == Wire(c.log)
    || (d.pending.Some? && d.ws.Some? && Wire(d.log) == Wire(c.log) + [(d.ws.value.id, d.pending.value)])
  }

  lemma {:induction false} ReleaseExtends(c: Client)
    requires c.pending.None?
    ensures Extends(c, Release(c))
    decreases |c.queue|
  {
    if c.queue == [] {
    } else {
      var call, rest := c.queue[0], c.(queue := c.queue[1..]);
      if c.ws.None? {
        LogSnoc(c.log, Settles(call.id, SendFailed));
        ReleaseExtends(Log(rest, Settles(call.id, SendFailed)));
      } else {
        LogSnoc(c.log, SendRequest(c.ws.value.id, call));
      }
    }
  }

  /** The call that was pending stays pending with nothing sent, or the slot changed hands. */
  lemma StepExtends(c: Client, e: Event)
    requires Inv(c) && Possible(c, e)
    ensures Extends(c, Next(c, e))
    ensures c.pending.Some? && Next(c, e).pending == c.pending ==> Wire(Next(c, e).log) == Wire(c.log)
  {
    var mid := BeforeRelease(c, e);
    StepThenRelease(c, e);
    MiddleSameWire(c, e);
    if mid.pending.None? {
      ReleaseExtends(mid);
      MiddleRequest(c, e);
      InvStep(c, e);
      if c.pending.Some? {
        PendingAdvances(c, mid, Next(c, e));
      }
    }
  }

  /** Once the slot was free it is never taken by the same call again. */
  lemma PendingAdvances(c: Client, mid: Client, d: Client)
    requires RequestInv(c) && RequestInv(d) && MidRequest(mid) && SameWire(c, mid)
    requires mid.pending.None? && d == Release(mid) && c.pending.Some?
    ensures d.pending != c.pending
  {
    SettledPrefix(c);
    SettledPrefix(d);
    ReleaseSettles(mid);
  }

  lemma {:induction false} ReleaseSettles(c: Client)
    ensures |SettledIds(c.log)| <= |SettledIds(Release(c).log)|
    decreases |c.queue|
  {
    if c.queue == [] {
    } else {
      var call, rest := c.queue[0], c.(queue := c.queue[1..]);
      if c.ws.None? {
        LogSnoc(c.log, Settles(call.id, SendFailed));
        ReleaseSettles(Log(rest, Settles(call.id, SendFailed)));
      } else {
        LogSnoc(c.log, SendRequest(c.ws.value.id, call));
      }
    }
  }

  // ── The composition ──────────────────────────────────────────────────────

  function NetNext(n: Net, e: NetEvent): Net
    requires NetPossible(n, e)
  {
    match e
    case Local(ce) => n.(client := Next(n.client, ce), up := n.up + NewRequests(n.client, Next(n.client, ce)))
    case ServerAnswers => n.(up := n.up[1..], down := n.down + [Reply(n.up[0].expected, n.up[0].id)])
    case ServerIgnores => n.(up := n.up[1..])
    case ServerEmits(f) => n.(down := n.down + [f])
    case Deliver =>
      var d := Next(n.client, Receive(n.down[0]));
      Net(d, n.up + NewRequests(n.client, d), n.down[1..])
    case ConnectionEnds => Net(Next(n.client, SocketCloses), [], [])
  }

  function NewRequests(c: Client, d: Client): seq<Call> {
    if |Wire(c.log)| <= |Wire(d.log)| then Sent(c, d) else []
  }

  function NetRun(opts: Options, events: seq<NetEvent>): Option<Net> {
    if events == [] then Some(Net(Initial(opts), [], []))
    else
      var before := NetRun(opts, events[..|events| - 1]);
      var e := events[|events| - 1];
      if before.Some? && NetPossible(before.value, e) then Some(NetNext(before.value, e)) else None
  }

  /** The replies under way. */
  function Replies(down: seq<Frame>): seq<Frame> {
    if down == [] then []
    else Replies(down[..|down| - 1]) + (if down[|down| - 1].Reply? then [down[|down| - 1]] else [])
  }

  function AnswerTo(call: Call): Frame {
    Reply(call.expected, call.id)
  }

  /** At most one request is between the client and its answer, and it is the pending one. */
  ghost predicate OneUnderWay(pending: Option<Call>, up: seq<Call>, down: seq<Frame>) {
    || (up == [] && Replies(down) == [])
    || (pending.Some? && up == [pending.value] && Replies(down) == [])
    || (pending.Some? && up == [] && Replies(down) == [AnswerTo(pending.value)])
  }

  predicate RepliesMatch(log: seq<Out>) {
    forall i :: 0 <= i < |log| && log[i].Settles? && log[i].outcome.Replied? ==> log[i].outcome.origin == log[i].id
  }

  ghost predicate NetInv(n: Net) {
    && Inv(n.client)
    && OneUnderWay(n.client.pending, n.up, n.down)
    && ErrorEnvelope !in n.down
    && RepliesMatch(n.client.log)
  }

  lemma RepliesSnoc(down: seq<Frame>, f: Frame)
    ensures Replies(down + [f]) == Replies(down) + (if f.Reply? then [f] else [])
  {
    assert (down + [f])[..|down|] == down;
  }

  lemma {:induction false} RepliesHead(down: seq<Frame>)
    requires down != []
    ensures Replies(down) == (if down[0].Reply? then [down[0]] else []) + Replies(down[1..])
  {
    if |down| == 1 {
      assert down[..0] == [] && down[1..] == [];
    } else {
      var n := |down| - 1;
      RepliesHead(down[..n]);
      assert down[..n] + [down[n]] == down;
      assert down[..n][1..] + [down[n]] == down[1..];
      RepliesSnoc(down[..n], down[n]);
      RepliesSnoc(down[..n][1..], down[n]);
    }
  }

  lemma SentIs(c: Client, d: Client)
    requires Extends(c, d)
    ensures Wire(d.log) == Wire(c.log) ==> NewRequests(c, d) == []
    ensures Wire(d.log) != Wire(c.log) ==> d.pending.Some? && NewRequests(c, d) == [d.pending.value]
  {
    if Wire(d.log) != Wire(c.log) {
      assert NewRequests(c, d) == [d.pending.value];
    }
  }

  // ── Only an answer settles a call with a reply ───────────────────────────

  /** What a step adds to the log settles nothing with a reply, unless it receives one. */
  predicate AddsNoReply(log: seq<Out>, longer: seq<Out>) {
    log <= longer && forall i :: |log| <= i < |longer| && longer[i].Settles? ==> !longer[i].outcome.Replied?
  }

  lemma {:induction false} ReleaseAddsNoReply(c: Client)
    ensures AddsNoReply(c.log, Release(c).log)
    decreases |c.queue|
  {
    if c.queue == [] {
    } else {
      var call, rest := c.queue[0], c.(queue := c.queue[1..]);
      if c.ws.None? {
        ReleaseAddsNoReply(Log(rest, Settles(call.id, SendFailed)));
      }
    }
  }

  lemma MiddleAddsNoReply(c: Client, e: Event)
    requires Possible(c, e)
    requires e.Receive? ==> !e.frame.Reply?
    ensures AddsNoReply(c.log, BeforeRelease(c, e).log)
  {
    match e {
      case SocketCloses => CloseFails(c);
      case Receive(f) => ReceiveAddsNoReply(c, f);
      case CallConnect => ConnectAddsNoReply(c);
      case _ =>
    }
  }

  lemma ReceiveAddsNoReply(c: Client, f: Frame)
    requires Possible(c, Receive(f)) && !f.Reply?
    ensures AddsNoReply(c.log, BeforeRelease(c, Receive(f)).log)
  {
  }

  lemma ConnectAddsNoReply(c: Client)
    ensures AddsNoReply(c.log, Next(c, CallConnect).log)
  {
  }

  lemma StepMatches(c: Client, e: Event)
    requires Inv(c) && Possible(c, e) && RepliesMatch(c.log)
    requires e.Receive? && e.frame.Reply? && c.pending.Some? ==> e.frame == AnswerTo(c.pending.value)
    ensures RepliesMatch(Next(c, e).log)
  {
    var mid := BeforeRelease(c, e);
    StepThenRelease(c, e);
    ReleaseAddsNoReply(mid);
    if e.Receive? && e.frame.Reply? {
      assert RepliesMatch(mid.log);
    } else {
      MiddleAddsNoReply(c, e);
    }
  }

  /** A call leaves the slot only through its answer or the end of the connection. */
  lemma PendingStays(c: Client, e: Event)
    requires Inv(c) && Possible(c, e) && c.pending.Some?
    requires !e.SocketCloses? && (e.Receive? ==> !e.frame.Reply? && !e.frame.ErrorEnvelope?)
    ensures Next(c, e).pending == c.pending
  {
  }

  lemma LocalStep(n: Net, e: Event)
    requires NetInv(n) && NetPossible(n, Local(e))
    ensures NetInv(NetNext(n, Local(e)))
  {
    hide Inv, Possible, Wire, Next;
    var d := Next(n.client, e);
    InvStep(n.client, e);
    StepExtends(n.client, e);
    SentIs(n.client, d);
    StepMatches(n.client, e);
    if n.client.pending.Some? {
      PendingStays(n.client, e);
      assert n.up + [] == n.up;
    } else {
      assert [] + NewRequests(n.client, d) == NewRequests(n.client, d);
    }
  }

  /** A delivered reply always meets the call that caused it. */
  lemma DeliveredReplyIsAnswer(n: Net)
    requires NetInv(n) && n.down != [] && n.down[0].Reply?
    ensures n.client.pending.Some? && n.down[0] == AnswerTo(n.client.pending.value)
    ensures n.up == [] && Replies(n.down[1..]) == []
  {
    RepliesHead(n.down);
    assert Replies(n.down)[0] == n.down[0];
  }

  lemma DeliverStep(n: Net)
    requires NetInv(n) && NetPossible(n, Deliver)
    ensures NetInv(NetNext(n, Deliver))
  {
    hide Inv, Possible, Wire, Next;
    var f := n.down[0];
    InvStep(n.client, Receive(f));
    RepliesHead(n.down);
    if f.Reply? {
      DeliverReply(n);
    } else {
      DeliverOther(n);
    }
  }

  lemma DeliverReply(n: Net)
    requires NetInv(n) && NetPossible(n, Deliver) && n.down[0].Reply?
    ensures Inv(NetNext(n, Deliver).client) ==> NetInv(NetNext(n, Deliver))
  {
    hide Inv, Possible, Wire, Next;
    var f := n.down[0];
    var d := Next(n.client, Receive(f));
    StepExtends(n.client, Receive(f));
    SentIs(n.client, d);
    DeliveredReplyIsAnswer(n);
    assert [] + NewRequests(n.client, d) == NewRequests(n.client, d);
    StepMatches(n.client, Receive(f));
    // Hidden in the goal only, here and below: the steps before need the definitions.
    hide Replies, NewRequests, RepliesMatch;
  }

  lemma DeliverOther(n: Net)
    requires NetInv(n) && NetPossible(n, Deliver) && !n.down[0].Reply?
    requires Replies(n.down) == Replies(n.down[1..])
    ensures Inv(NetNext(n, Deliver).client) ==> NetInv(NetNext(n, Deliver))
  {
    hide Inv, Possible, Wire, Next;
    var f := n.down[0];
    var d := Next(n.client, Receive(f));
    StepExtends(n.client, Receive(f));
    SentIs(n.client, d);
    StepMatches(n.client, Receive(f));
    assert f in n.down;
    if n.client.pending.Some? {
      PendingStays(n.client, Receive(f));
      assert n.up + [] == n.up;
    } else {
      assert [] + NewRequests(n.client, d) == NewRequests(n.client, d);
    }
    hide Replies, NewRequests, RepliesMatch;
  }

  lemma ServerStep(n: Net, e: NetEvent)
    requires NetInv(n) && NetPossible(n, e) && (e.ServerAnswers? || e.ServerIgnores? || e.ServerEmits?)
    ensures NetInv(NetNext(n, e))
  {
    hide Inv;
    match e {
      case ServerAnswers =>
        RepliesSnoc(n.down, AnswerTo(n.up[0]));
      case ServerIgnores =>
      case ServerEmits(f) =>
        RepliesSnoc(n.down, f);
    }
  }

  lemma {:induction false} NetInvRun(opts: Options, events: seq<NetEvent>)
    requires NetRun(opts, events).Some?
    ensures NetInv(NetRun(opts, events).value)
  {
    if events == [] {
      InvRun(opts, []);
    } else {
      hide NetInv, NetNext;
      var init, e := events[..|events| - 1], events[|events| - 1];
      NetInvRun(opts, init);
      var n := NetRun(opts, init).value;
      match e {
        case Local(ce) => LocalStep(n, ce);
        case Deliver => DeliverStep(n);
        case ConnectionEnds => EndStep(n);
        case _ => ServerStep(n, e);
      }
    }
  }

  lemma EndStep(n: Net)
    requires NetInv(n) && NetPossible(n, ConnectionEnds)
    ensures NetInv(NetNext(n, ConnectionEnds))
  {
    hide Inv, Next;
    InvStep(n.client, SocketCloses);
    StepMatches(n.client, SocketCloses);
  }

  /** In every run each caller that gets a reply gets the one its own request caused. */
  lemma {:induction false} EveryCallerGetsItsOwnReply(opts: Options, events: seq<NetEvent>, i: nat)
    requires NetRun(opts, events).Some? && i < |NetRun(opts, events).value.client.log|
    requires var o := NetRun(opts, events).value.client.log[i]; o.Settles? && o.outcome.Replied?
    ensures var o := NetRun(opts, events).value.client.log[i]; o.outcome.origin == o.id
  {
    NetInvRun(opts, events);
  }

  /** At any moment at most one request is unanswered between client and server, and a reply that
      arrives is of the kind the pending call waits for. */
  lemma {:induction false} OneRequestUnderWay(opts: Options, events: seq<NetEvent>)
    requires NetRun(opts, events).Some?
    ensures var n := NetRun(opts, events).value;
      && |n.up| + |Replies(n.down)| <= 1
      && (n.down != [] && n.down[0].Reply? ==>
            n.client.pending.Some? && n.down[0].kind == n.client.pending.value.expected)
  {
    NetInvRun(opts, events);
    var n := NetRun(opts, events).value;
    if n.down != [] && n.down[0].Reply? {
      DeliveredReplyIsAnswer(n);
    }
  }

  /** Pushes go to the listeners and touch no call, in any state. */
  lemma PushesPassBy(c: Client, f: Frame)
    requires Possible(c, Receive(f)) && (f.SignalIn? || f.NotifyIn?)
    ensures var d := Next(c, Receive(f));
      d.pending == c.pending && d.queue == c.queue && d.log == c.log + [EmitPush(f)]
  {
  }

  // ── What is answered was sent ────────────────────────────────────────────

  predicate OnWire(log: seq<Out>, id: nat) {
    exists k :: 0 <= k < |Wire(log)| && Wire(log)[k].1.id == id
  }

  predicate RepliedOnWire(log: seq<Out>) {
    forall i :: 0 <= i < |log| && log[i].Settles? && log[i].outcome.Replied? ==> OnWire(log, log[i].id)
  }

  /** The request and the reply under way, and every call settled with a reply, have been sent. */
  ghost predicate SentNet(n: Net) {
    && UpOnWire(n.client.log, n.up) && DownOnWire(n.client.log, n.down) && RepliedOnWire(n.client.log)
  }

  predicate UpOnWire(log: seq<Out>, up: seq<Call>) {
    forall i :: 0 <= i < |up| ==> OnWire(log, up[i].id)
  }

  predicate DownOnWire(log: seq<Out>, down: seq<Frame>) {
    forall i :: 0 <= i < |down| && down[i].Reply? ==> OnWire(log, down[i].origin)
  }

  lemma ExtendsKeepsWire(c: Client, d: Client)
    requires Extends(c, d)
    ensures forall id :: OnWire(c.log, id) ==> OnWire(d.log, id)
    ensures UpOnWire(d.log, NewRequests(c, d))
  {
    SentIs(c, d);
    hide NewRequests, Wire;
    if Wire(d.log) != Wire(c.log) {
      assert Wire(d.log)[|Wire(c.log)|].1 == d.pending.value;
    }
    forall id | OnWire(c.log, id)
      ensures OnWire(d.log, id)
    {
      var k :| 0 <= k < |Wire(c.log)| && Wire(c.log)[k].1.id == id;
      assert Wire(d.log)[k] == Wire(c.log)[k];
    }
  }

  /** A step settles with a reply at most the pending call, on receiving one. */
  lemma StepSettles(c: Client, e: Event)
    requires Inv(c) && Possible(c, e)
    ensures var d := Next(c, e);
      && c.log <= d.log
      && forall i :: |c.log| <= i < |d.log| && d.log[i].Settles? && d.log[i].outcome.Replied? ==>
           e.Receive? && e.frame.Reply? && c.pending.Some? && d.log[i].id == c.pending.value.id
  {
    var mid := BeforeRelease(c, e);
    StepThenRelease(c, e);
    ReleaseAddsNoReply(mid);
    if e.Receive? && e.frame.Reply? {
      ReplyAdds(c, e.frame);
    } else {
      MiddleAddsNoReply(c, e);
    }
    hide Inv, BeforeRelease;
  }

  lemma ReplyAdds(c: Client, f: Frame)
    requires Possible(c, Receive(f)) && f.Reply?
    ensures var mid := BeforeRelease(c, Receive(f));
      mid.log == c.log || (c.pending.Some? && mid.log == c.log + [Settles(c.pending.value.id, Replied(f.origin))])
  {
  }

  lemma SentNetClient(n: Net, e: Event, up: seq<Call>, down: seq<Frame>)
    requires NetInv(n) && SentNet(n) && Possible(n.client, e)
    requires e.Receive? && e.frame.Reply? && n.client.pending.Some? ==> OnWire(n.client.log, n.client.pending.value.id)
    requires up == n.up || up == []
    requires down == n.down || down == [] || (n.down != [] && down == n.down[1..])
    ensures var d := Next(n.client, e);
      SentNet(Net(d, up + NewRequests(n.client, d), down)) && SentNet(Net(d, up, down))
  {
    var c, d := n.client, Next(n.client, e);
    StepExtends(c, e);
    ExtendsKeepsWire(c, d);
    RepliedKept(c, e);
    UpSent(c.log, d.log, n.up, up, NewRequests(c, d));
    DownSent(c.log, d.log, n.down, down);
    hide Inv, Next, Possible, NewRequests, OnWire, RepliedOnWire, UpOnWire, DownOnWire, OneUnderWay, Extends, NetInv;
  }

  lemma UpSent(log: seq<Out>, longer: seq<Out>, before: seq<Call>, up: seq<Call>, more: seq<Call>)
    requires forall id :: OnWire(log, id) ==> OnWire(longer, id)
    requires UpOnWire(log, before) && (up == before || up == []) && UpOnWire(longer, more)
    ensures UpOnWire(longer, up) && UpOnWire(longer, up + more)
  {
    hide OnWire;
  }

  lemma DownSent(log: seq<Out>, longer: seq<Out>, down: seq<Frame>, rest: seq<Frame>)
    requires forall id :: OnWire(log, id) ==> OnWire(longer, id)
    requires DownOnWire(log, down) && (rest == down || rest == [] || (down != [] && rest == down[1..]))
    ensures DownOnWire(longer, rest)
  {
    hide OnWire;
    forall i | 0 <= i < |rest| && rest[i].Reply?
      ensures OnWire(longer, rest[i].origin)
    {
      var j := if rest == down then i else i + 1;
      assert down[j] == rest[i];
    }
  }

  lemma RepliedKept(c: Client, e: Event)
    requires Inv(c) && Possible(c, e) && RepliedOnWire(c.log)
    requires e.Receive? && e.frame.Reply? && c.pending.Some? ==> OnWire(c.log, c.pending.value.id)
    ensures RepliedOnWire(Next(c, e).log)
  {
    var d := Next(c, e);
    StepExtends(c, e);
    ExtendsKeepsWire(c, d);
    StepSettles(c, e);
    hide Inv, Next, Possible, OnWire, Extends;
    forall i | 0 <= i < |d.log| && d.log[i].Settles? && d.log[i].outcome.Replied?
      ensures OnWire(d.log, d.log[i].id)
    {
      if i < |c.log| {
        assert d.log[i] == c.log[i];
      }
    }
  }

  lemma SentNetStep(n: Net, e: NetEvent)
    requires NetInv(n) && SentNet(n) && NetPossible(n, e)
    ensures SentNet(NetNext(n, e))
  {
    hide Inv, Next, Possible, NewRequests, OnWire, RepliedOnWire;
    match e {
      case Local(ce) => SentNetClient(n, ce, n.up, n.down);
      case Deliver =>
        if n.down[0].Reply? {
          DeliveredReplyIsAnswer(n);
        }
        SentNetClient(n, Receive(n.down[0]), n.up, n.down[1..]);
      case ConnectionEnds => SentNetClient(n, SocketCloses, [], []);
      case _ =>
    }
  }

  lemma {:induction false} SentNetRun(opts: Options, events: seq<NetEvent>)
    requires NetRun(opts, events).Some?
    ensures SentNet(NetRun(opts, events).value)
  {
    if events == [] {
    } else {
      hide NetInv, SentNet, NetNext;
      SentNetRun(opts, events[..|events| - 1]);
      NetInvRun(opts, events[..|events| - 1]);
      SentNetStep(NetRun(opts, events[..|events| - 1]).value, events[|events| - 1]);
    }
  }

  /** In every run a call settled with a reply had its request sent before. */
  lemma {:induction false} RepliedWasSent(opts: Options, events: seq<NetEvent>, i: nat)
    requires NetRun(opts, events).Some? && i < |NetRun(opts, events).value.client.log|
    requires var o := NetRun(opts, events).value.client.log[i]; o.Settles? && o.outcome.Replied?
    ensures var log := NetRun(opts, events).value.client.log; OnWire(log, log[i].id)
  {
    SentNetRun(opts, events);
    hide NetRun, OnWire;
  }
}
