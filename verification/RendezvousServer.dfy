/** The rendezvous server: message dispatch, evictions and the invite sweep over the four stores.

    A frame's signature is abstracted to the key under which it verifies with a fresh timestamp;
    times are milliseconds. */
module RendezvousServer {
  import opened Prelude
  import PeerId
  import Registry
  import OfflineQueue
  import Invites
  import RateLimiter

  type Socket = Registry.Socket

  datatype Config = Config(maxPeers: nat, maxInvites: nat, maxNotifySize: nat, notifyTtlMs: nat)

  /** `decodedSize` is the byte length of the base64 text `sealedBox`. */
  datatype Payload =
    | Register(peerId: string)
    | Lookup(peerId: string)
    | InviteCreate(hash: string, pubkey: string, peerId: string, expiresAt: Option<int>)
    | InviteRedeem(hash: string)
    | Signal(to: string, body: string)
    | Notify(to: string, sealedBox: string, decodedSize: nat)
    | Unknown

  datatype Envelope = Envelope(payload: Payload, signer: Option<seq<byte>>)

  /** `delivers` says whether a write to another peer's socket succeeds, `sampled` is the rate
      limiter's draw. */
  datatype Event =
    | Frame(socket: Socket, env: Envelope, ip: string, now: int, delivers: bool, sampled: bool)
    | BadFrame(socket: Socket)
    | Close(socket: Socket)
    | Error(socket: Socket)
    | Sweep(now: int)

  datatype InviteReply = Granted(peerId: string, pubkey: string) | Refused(code: string)

  datatype Out =
    | Closed(socket: Socket, code: int)
    | NotifyIn(socket: Socket, n: OfflineQueue.Notification)
    | RegisterOk(socket: Socket)
    | LookupResult(socket: Socket, found: bool)
    | InviteResult(socket: Socket, reply: InviteReply)
    | SignalIn(socket: Socket, from: string, body: string)

  datatype State = State(
    index: Registry.Index,
    queues: OfflineQueue.Queues,
    invites: Invites.Records,
    counters: RateLimiter.Counters)

  const INITIAL := State(Registry.EMPTY, map[], map[], map[])

  const POLICY_VIOLATION := 1008
  const TRY_AGAIN_LATER := 1013

  // ── What each event means to each store ──────────────────────────────────

  /** The peer a non-register frame speaks for: mapped, registered, and signed with its key. */
  function Speaker(ix: Registry.Index, socket: Socket, env: Envelope): Option<string> {
    if socket in ix.socketToPeer && ix.socketToPeer[socket] in ix.regs
       && env.signer == Some(ix.regs[ix.socketToPeer[socket]].pubkey)
    then Some(ix.socketToPeer[socket])
    else None
  }

  predicate ProvesItsId(env: Envelope)
    requires env.payload.Register?
  {
    var key := PeerId.DecodePeerIdSpec(env.payload.peerId);
    key.Ok? && env.signer == Some(key.value)
  }

  function RegistryEvent(e: Event): Option<Registry.Event> {
    match e
    case Frame(s, env, _, _, _, _) =>
      if env.payload.Register? && ProvesItsId(env) then Some(Registry.Register(s, env.payload.peerId)) else None
    case Close(s) => Some(Registry.Close(s))
    case Error(s) => Some(Registry.Error(s))
    case _ => None
  }

  predicate Registers(cfg: Config, st: State, e: Event) {
    e.Frame? && e.env.payload.Register? && ProvesItsId(e.env)
    && Registry.Admission(st.index, e.env.payload.peerId, cfg.maxPeers).Ok?
  }

  predicate Deposits(cfg: Config, st: State, e: Event) {
    e.Frame? && e.env.payload.Notify? && Speaker(st.index, e.socket, e.env).Some?
    && e.env.payload.to != "" && e.env.payload.sealedBox != "" && e.env.payload.decodedSize <= cfg.maxNotifySize
  }

  function QueueEvent(cfg: Config, st: State, e: Event): Option<OfflineQueue.Event> {
    if Registers(cfg, st, e) then Some(OfflineQueue.Drain(e.env.payload.peerId, e.now))
    else if Deposits(cfg, st, e) then
      var p := e.env.payload;
      Some(OfflineQueue.Accept(p.to, OfflineQueue.Notification(p.sealedBox, e.now), p.to in st.index.regs && e.delivers))
    else None
  }

  predicate AsksToInvite(st: State, e: Event) {
    e.Frame? && e.env.payload.InviteCreate? && Speaker(st.index, e.socket, e.env).Some?
  }

  function InviteEvent(cfg: Config, st: State, e: Event): Option<Invites.Event> {
    if AsksToInvite(st, e) && RateLimiter.Allowed(st.counters, cfg.maxInvites, e.ip, e.now) then
      var p := e.env.payload;
      Some(Invites.Create(p.hash, p.pubkey, p.peerId, p.expiresAt, e.now))
    else if e.Frame? && e.env.payload.InviteRedeem? && Speaker(st.index, e.socket, e.env).Some? then
      Some(Invites.Redeem(e.env.payload.hash, e.now))
    else if e.Sweep? then Some(Invites.Sweep(e.now))
    else None
  }

  function NewCounters(cfg: Config, st: State, e: Event): RateLimiter.Counters {
    if AsksToInvite(st, e) then RateLimiter.After(st.counters, cfg.maxInvites, e.ip, e.now, e.sampled)
    else st.counters
  }

  // ── One step ─────────────────────────────────────────────────────────────

  function Next(cfg: Config, st: State, e: Event): State {
    State(
      (match RegistryEvent(e) case None => st.index case Some(r) => Registry.Apply(st.index, r, cfg.maxPeers)),
      (match QueueEvent(cfg, st, e) case None => st.queues case Some(q) => OfflineQueue.Apply(st.queues, q)),
      (match InviteEvent(cfg, st, e) case None => st.invites case Some(i) => Invites.Apply(st.invites, i)),
      NewCounters(cfg, st, e))
  }

  function CloseCode(r: Registry.Refusal): int {
    if r.ServerFull? then TRY_AGAIN_LATER else POLICY_VIOLATION
  }

  function NotifyAll(socket: Socket, ns: seq<OfflineQueue.Notification>): (outs: seq<Out>)
    ensures |outs| == |ns| && forall i :: 0 <= i < |ns| ==> outs[i] == NotifyIn(socket, ns[i])
  {
    seq(|ns|, i requires 0 <= i < |ns| => NotifyIn(socket, ns[i]))
  }

  function RegisterOuts(cfg: Config, st: State, socket: Socket, env: Envelope, now: int): seq<Out>
    requires env.payload.Register?
  {
    if !ProvesItsId(env) then [Closed(socket, POLICY_VIOLATION)]
    else
      var peerId := env.payload.peerId;
      match Registry.Admission(st.index, peerId, cfg.maxPeers)
      case Err(refusal) => [Closed(socket, CloseCode(refusal))]
      case Ok(_) =>
        NotifyAll(socket, OfflineQueue.Active(OfflineQueue.QueueOf(st.queues, peerId), now - cfg.notifyTtlMs))
        + [RegisterOk(socket)]
  }

  function RequestOuts(cfg: Config, st: State, e: Event, speaker: string): seq<Out>
    requires e.Frame? && !e.env.payload.Register?
  {
    match e.env.payload
    case Lookup(p) => [LookupResult(e.socket, p in st.index.regs)]
    case InviteCreate(h, k, p, x) =>
      if !RateLimiter.Allowed(st.counters, cfg.maxInvites, e.ip, e.now) then [Closed(e.socket, TRY_AGAIN_LATER)]
      else if Invites.Creatable(h, k, x, e.now) then [InviteResult(e.socket, Granted(p, k))]
      else [InviteResult(e.socket, Refused("invalid_request"))]
    case InviteRedeem(h) =>
      (match Invites.Redemption(st.invites, h, e.now)
       case None => [InviteResult(e.socket, Refused("not_found"))]
       case Some(r) => [InviteResult(e.socket, Granted(r.peerId, r.pubkey))])
    case Signal(to, body) =>
      if to in st.index.regs && e.delivers then [SignalIn(st.index.regs[to].ws, speaker, body)] else []
    case Notify(to, box, _) =>
      if Deposits(cfg, st, e) && to in st.index.regs && e.delivers
      then [NotifyIn(st.index.regs[to].ws, OfflineQueue.Notification(box, e.now))] else []
    case _ => []
  }

  function Outs(cfg: Config, st: State, e: Event): seq<Out> {
    match e
    case BadFrame(s) => [Closed(s, POLICY_VIOLATION)]
    case Frame(s, env, _, now, _, _) =>
      if env.payload.Register? then RegisterOuts(cfg, st, s, env, now)
      else
        (match Speaker(st.index, s, env)
         case None => [Closed(s, POLICY_VIOLATION)]
         case Some(speaker) => RequestOuts(cfg, st, e, speaker))
    case _ => []
  }

  // ── The server object ────────────────────────────────────────────────────

  class Server {
    const cfg: Config
    const rateLimiter: RateLimiter.Limiter
    var peerRegistrations: map<string, Registry.Registration>
    var socketToPeer: map<Socket, string>
    var offlineNotifications: OfflineQueue.Queues
    var inviteRecords: Invites.Records

    ghost function Contents(): State
      reads this, rateLimiter
    {
      State(Registry.Index(peerRegistrations, socketToPeer), offlineNotifications, inviteRecords, rateLimiter.counters)
    }

    predicate Valid() {
      rateLimiter.maxRequests == cfg.maxInvites
    }

    constructor (cfg: Config)
      ensures Valid() && this.cfg == cfg && fresh(rateLimiter) && Contents() == INITIAL
    {
      this.cfg := cfg;
      rateLimiter := new RateLimiter.Limiter(cfg.maxInvites);
      peerRegistrations, socketToPeer, offlineNotifications, inviteRecords := map[], map[], map[], map[];
    }

    /** The body of both the close and the error handler. */
    method OnGone(socket: Socket)
      modifies this`peerRegistrations
      ensures Registry.Index(peerRegistrations, socketToPeer)
           == Registry.Evict(old(Registry.Index(peerRegistrations, socketToPeer)), socket)
    {
      if socket in socketToPeer {
        peerRegistrations := peerRegistrations - {socketToPeer[socket]};
      }
    }

    method SweepInvites(now: int)
      modifies this`inviteRecords
      ensures inviteRecords == Invites.Swept(old(inviteRecords), now)
    {
      var pending := inviteRecords.Keys;
      while pending != {}
        invariant pending <= old(inviteRecords).Keys && inviteRecords.Keys <= old(inviteRecords).Keys
        invariant forall h :: h in inviteRecords ==> inviteRecords[h] == old(inviteRecords)[h]
        invariant forall h :: h in old(inviteRecords) ==>
                    (h in inviteRecords <==> h in pending || old(inviteRecords)[h].expiresAt > now)
        decreases pending
      {
        var h :| h in pending;
        pending := pending - {h};
        if inviteRecords[h].expiresAt <= now {
          inviteRecords := inviteRecords - {h};
        }
      }
    }

    method HandleRegister(socket: Socket, peerId: string, now: int)
      returns (r: Result<seq<OfflineQueue.Notification>, Registry.Refusal>)
      modifies this`peerRegistrations, this`socketToPeer, this`offlineNotifications
      ensures match Registry.Admission(old(Contents()).index, peerId, cfg.maxPeers)
        case Err(refusal) =>
          r == Err(refusal) && Contents() == old(Contents())
        case Ok(pubkey) =>
          && r == Ok(OfflineQueue.Active(OfflineQueue.QueueOf(old(offlineNotifications), peerId), now - cfg.notifyTtlMs))
          && Contents() == old(Contents()).(
               index := Registry.Enter(old(Contents()).index, socket, peerId, pubkey),
               queues := old(offlineNotifications) - {peerId})
    {
      if peerId == "" {
        return Err(Registry.MissingPeerId);
      }
      var decoded := PeerId.DecodePeerId(peerId);
      if decoded.Err? {
        return Err(Registry.InvalidEncoding);
      }
      if peerId !in peerRegistrations && |peerRegistrations| >= cfg.maxPeers {
        return Err(Registry.ServerFull);
      }
      if peerId in peerRegistrations {
        socketToPeer := socketToPeer - {peerRegistrations[peerId].ws};
      }
      peerRegistrations := peerRegistrations[peerId := Registry.Registration(socket, decoded.value)];
      socketToPeer := socketToPeer[socket := peerId];
      var queued := if peerId in offlineNotifications then offlineNotifications[peerId] else [];
      offlineNotifications := offlineNotifications - {peerId};
      r := Ok(OfflineQueue.Active(queued, now - cfg.notifyTtlMs));
    }

    method QueueNotification(peerId: string, sealedBox: string, now: int)
      modifies this`offlineNotifications
      ensures offlineNotifications
           == OfflineQueue.Enqueue(old(offlineNotifications), peerId, OfflineQueue.Notification(sealedBox, now))
    {
      var existing := if peerId in offlineNotifications then offlineNotifications[peerId] else [];
      offlineNotifications := offlineNotifications[peerId := existing + [OfflineQueue.Notification(sealedBox, now)]];
    }

    /** The frame to a target that is online, unless its write fails; otherwise the queue grows. */
    method HandleNotify(to: string, sealedBox: string, decodedSize: nat, now: int, delivers: bool) returns (outs: seq<Out>)
      modifies this`offlineNotifications
      ensures var live := to in peerRegistrations && delivers;
        if to == "" || sealedBox == "" || decodedSize > cfg.maxNotifySize then
          outs == [] && offlineNotifications == old(offlineNotifications)
        else if live then
          outs == [NotifyIn(peerRegistrations[to].ws, OfflineQueue.Notification(sealedBox, now))]
          && offlineNotifications == old(offlineNotifications)
        else
          outs == []
          && offlineNotifications
             == OfflineQueue.Enqueue(old(offlineNotifications), to, OfflineQueue.Notification(sealedBox, now))
    {
      outs := [];
      if to == "" || sealedBox == "" {
        return;
      }
      if decodedSize > cfg.maxNotifySize {
        return;
      }
      if to in peerRegistrations {
        if delivers {
          outs := [NotifyIn(peerRegistrations[to].ws, OfflineQueue.Notification(sealedBox, now))];
        } else {
          QueueNotification(to, sealedBox, now);
        }
        return;
      }
      QueueNotification(to, sealedBox, now);
    }

    method HandleInviteCreate(hash: string, pubkey: string, peerId: string, expiresAt: Option<int>, now: int)
      returns (r: Invites.Creation)
      modifies this`inviteRecords
      ensures inviteRecords == Invites.Apply(old(inviteRecords), Invites.Create(hash, pubkey, peerId, expiresAt, now))
      ensures r == if Invites.Creatable(hash, pubkey, expiresAt, now) then Invites.Created(peerId, pubkey)
                   else Invites.InvalidRequest
    {
      if hash == "" || pubkey == "" || expiresAt.None? {
        return Invites.InvalidRequest;
      }
      if expiresAt.value <= now {
        return Invites.InvalidRequest;
      }
      inviteRecords := inviteRecords[hash := Invites.Record(pubkey, peerId, expiresAt.value)];
      r := Invites.Created(peerId, pubkey);
    }

    method HandleInviteRedeem(hash: string, now: int) returns (r: Option<Invites.Record>)
      modifies this`inviteRecords
      ensures inviteRecords == Invites.Apply(old(inviteRecords), Invites.Redeem(hash, now))
      ensures r == Invites.Redemption(old(inviteRecords), hash, now)
    {
      if hash == "" || hash !in inviteRecords {
        assert inviteRecords - {hash} == inviteRecords || hash == "";
        return None;
      }
      var record := inviteRecords[hash];
      inviteRecords := inviteRecords - {hash};
      if record.expiresAt <= now {
        return None;
      }
      r := Some(record);
    }

    method DeliverQueued(socket: Socket, ns: seq<OfflineQueue.Notification>) returns (outs: seq<Out>)
      ensures outs == NotifyAll(socket, ns)
    {
      outs := [];
      for i := 0 to |ns|
        invariant outs == NotifyAll(socket, ns[..i])
      {
        outs := outs + [NotifyIn(socket, ns[i])];
      }
    }

    method DispatchRegister(socket: Socket, env: Envelope, now: int) returns (outs: seq<Out>)
      requires env.payload.Register?
      modifies this`peerRegistrations, this`socketToPeer, this`offlineNotifications
      ensures outs == RegisterOuts(cfg, old(Contents()), socket, env, now)
      ensures if ProvesItsId(env) && Registry.Admission(old(Contents()).index, env.payload.peerId, cfg.maxPeers).Ok? then
          Contents() == old(Contents()).(
            index := Registry.Apply(old(Contents()).index, Registry.Register(socket, env.payload.peerId), cfg.maxPeers),
            queues := old(offlineNotifications) - {env.payload.peerId})
        else Contents() == old(Contents())
    {
      hide PeerId.DecodePeerIdSpec;
      var pubkey := PeerId.DecodePeerId(env.payload.peerId);
      if pubkey.Err? {
        return [Closed(socket, POLICY_VIOLATION)];
      }
      if env.signer != Some(pubkey.value) {
        return [Closed(socket, POLICY_VIOLATION)];
      }
      var result := HandleRegister(socket, env.payload.peerId, now);
      if result.Err? {
        return [Closed(socket, CloseCode(result.error))];
      }
      outs := DeliverQueued(socket, result.value);
      outs := outs + [RegisterOk(socket)];
    }

    method DispatchRequest(e: Event, speaker: string) returns (outs: seq<Out>)
      requires Valid() && e.Frame? && !e.env.payload.Register?
      requires Speaker(Registry.Index(peerRegistrations, socketToPeer), e.socket, e.env) == Some(speaker)
      modifies this`offlineNotifications, this`inviteRecords, rateLimiter
      ensures outs == RequestOuts(cfg, old(Contents()), e, speaker)
      ensures Contents() == Next(cfg, old(Contents()), e)
    {
      outs := [];
      match e.env.payload {
        case Lookup(p) =>
          outs := [LookupResult(e.socket, p in peerRegistrations)];
        case InviteCreate(h, k, p, x) =>
          var allowed := rateLimiter.Check(e.ip, e.now, e.sampled);
          if !allowed {
            return [Closed(e.socket, TRY_AGAIN_LATER)];
          }
          var created := HandleInviteCreate(h, k, p, x, e.now);
          outs := [InviteResult(e.socket, if created.Created? then Granted(created.peerId, created.pubkey)
                                          else Refused("invalid_request"))];
        case InviteRedeem(h) =>
          var redeemed := HandleInviteRedeem(h, e.now);
          outs := [InviteResult(e.socket, if redeemed.Some? then Granted(redeemed.value.peerId, redeemed.value.pubkey)
                                          else Refused("not_found"))];
        case Signal(to, body) =>
          if to in peerRegistrations && e.delivers {
            outs := [SignalIn(peerRegistrations[to].ws, speaker, body)];
          }
        case Notify(to, box, size) =>
          outs := HandleNotify(to, box, size, e.now, e.delivers);
        case _ =>
      }
    }

    method OnEvent(e: Event) returns (outs: seq<Out>)
      requires Valid()
      modifies this, rateLimiter
      ensures Valid()
      ensures outs == Outs(cfg, old(Contents()), e)
      ensures Contents() == Next(cfg, old(Contents()), e)
    {
      outs := [];
      match e {
        case BadFrame(s) =>
          outs := [Closed(s, POLICY_VIOLATION)];
        case Close(s) =>
          OnGone(s);
        case Error(s) =>
          OnGone(s);
        case Sweep(now) =>
          SweepInvites(now);
        case Frame(s, env, _, now, _, _) =>
          if env.payload.Register? {
            outs := DispatchRegister(s, env, now);
          } else if s !in socketToPeer {
            outs := [Closed(s, POLICY_VIOLATION)];
          } else if socketToPeer[s] !in peerRegistrations {
            outs := [Closed(s, POLICY_VIOLATION)];
          } else if env.signer != Some(peerRegistrations[socketToPeer[s]].pubkey) {
            outs := [Closed(s, POLICY_VIOLATION)];
          } else {
            outs := DispatchRequest(e, socketToPeer[s]);
          }
      }
    }
  }

  // ── Runs ─────────────────────────────────────────────────────────────────

  function Run(cfg: Config, events: seq<Event>): State {
    if events == [] then INITIAL
    else Next(cfg, Run(cfg, events[..|events| - 1]), events[|events| - 1])
  }

  function Kept<T>(o: Option<T>): seq<T> {
    if o.None? then [] else [o.value]
  }

  function RegistryEvents(events: seq<Event>): seq<Registry.Event> {
    if events == [] then []
    else RegistryEvents(events[..|events| - 1]) + Kept(RegistryEvent(events[|events| - 1]))
  }

  function QueueEvents(cfg: Config, events: seq<Event>): seq<OfflineQueue.Event> {
    if events == [] then []
    else
      var init := events[..|events| - 1];
      QueueEvents(cfg, init) + Kept(QueueEvent(cfg, Run(cfg, init), events[|events| - 1]))
  }

  function InviteEvents(cfg: Config, events: seq<Event>): seq<Invites.Event> {
    if events == [] then []
    else
      var init := events[..|events| - 1];
      InviteEvents(cfg, init) + Kept(InviteEvent(cfg, Run(cfg, init), events[|events| - 1]))
  }

  /** The three stores of the server move exactly as their own histories do; so what holds of
      every registry, queue or invite history holds of every server run. */
  lemma {:induction false} StoresFollowHistories(cfg: Config, events: seq<Event>)
    ensures Run(cfg, events).index == Registry.Replay(RegistryEvents(events), cfg.maxPeers)
    ensures Run(cfg, events).queues == OfflineQueue.Replay(QueueEvents(cfg, events))
    ensures Run(cfg, events).invites == Invites.Replay(InviteEvents(cfg, events))
  {
    if events == [] {
    } else {
      hide Registry.Apply, OfflineQueue.Apply, Invites.Apply, RegistryEvent, QueueEvent, InviteEvent, NewCounters;
      var init, e := events[..|events| - 1], events[|events| - 1];
      StoresFollowHistories(cfg, init);
      var st := Run(cfg, init);
      Snoc(RegistryEvents(init), RegistryEvent(e));
      Snoc(QueueEvents(cfg, init), QueueEvent(cfg, st, e));
      Snoc(InviteEvents(cfg, init), InviteEvent(cfg, st, e));
    }
  }

  lemma Snoc<T>(xs: seq<T>, o: Option<T>)
    ensures o.None? ==> xs + Kept(o) == xs
    ensures o.Some? ==> xs + Kept(o) != [] && (xs + Kept(o))[..|xs + Kept(o)| - 1] == xs
    ensures o.Some? ==> (xs + Kept(o))[|xs + Kept(o)| - 1] == o.value
  {
  }

  // ── What a whole server run guarantees ───────────────────────────────────

  predicate Chronological(events: seq<Event>) {
    forall i, j :: (0 <= i < j < |events| && HasTime(events[i]) && HasTime(events[j]))
                   ==> TimeOf(events[i]) <= TimeOf(events[j])
  }

  predicate HasTime(e: Event) {
    e.Frame? || e.Sweep?
  }

  function TimeOf(e: Event): int
    requires HasTime(e)
  {
    e.now
  }

  predicate TimedBy(events: seq<Event>, now: int) {
    forall i :: 0 <= i < |events| && HasTime(events[i]) ==> TimeOf(events[i]) <= now
  }

  lemma {:induction false} QueueEventsChronological(cfg: Config, events: seq<Event>, now: int)
    requires Chronological(events) && TimedBy(events, now)
    ensures OfflineQueue.Chronological(QueueEvents(cfg, events))
    ensures forall i :: 0 <= i < |QueueEvents(cfg, events)| ==> OfflineQueue.Time(QueueEvents(cfg, events)[i]) <= now
  {
    if events == [] {
    } else {
      hide Next;
      var init, e := events[..|events| - 1], events[|events| - 1];
      var o := QueueEvent(cfg, Run(cfg, init), e);
      if o.Some? {
        assert forall i :: 0 <= i < |init| ==> init[i] == events[i];
        QueueEventsChronological(cfg, init, TimeOf(e));
        assert OfflineQueue.Time(o.value) == TimeOf(e) <= now;
      } else {
        QueueEventsChronological(cfg, init, now);
      }
    }
  }

  /** Registering puts the waiting notifications of the peer on its socket before register_ok:
      the unexpired end of everything queued since its last register, oldest first. */
  lemma {:induction false} DrainBeforeRegisterOk(cfg: Config, events: seq<Event>, e: Event)
    requires Chronological(events) && e.Frame? && TimedBy(events, e.now)
    requires Registers(cfg, Run(cfg, events), e)
    ensures var peer := e.env.payload.peerId; var cutoff := e.now - cfg.notifyTtlMs;
      var queue := OfflineQueue.QueueOf(Run(cfg, events).queues, peer);
      var books := OfflineQueue.Books(QueueEvents(cfg, events), peer, cfg.notifyTtlMs);
      && Outs(cfg, Run(cfg, events), e)
         == NotifyAll(e.socket, OfflineQueue.Active(queue, cutoff)) + [RegisterOk(e.socket)]
      && books.everQueued
         == books.drained + (OfflineQueue.Expired(queue, cutoff) + OfflineQueue.Active(queue, cutoff))
      && OfflineQueue.QueueOf(Next(cfg, Run(cfg, events), e).queues, peer) == []
  {
    hide PeerId.DecodePeerIdSpec, Run, OfflineQueue.Books, OfflineQueue.Replay, QueueEvents;
    StoresFollowHistories(cfg, events);
    QueueEventsChronological(cfg, events, e.now);
    OfflineQueue.DrainDeliversSuffix(QueueEvents(cfg, events), e.env.payload.peerId, e.now, cfg.notifyTtlMs);
  }

  /** With orderly sockets, who is reachable under a peer id is what the history says. */
  lemma ServerIndexFollowsHistory(cfg: Config, events: seq<Event>, peer: string)
    requires Registry.OneIdPerSocket(RegistryEvents(events)) && Registry.OrderlyEnds(RegistryEvents(events))
    ensures Registry.Lookup(Run(cfg, events).index, peer) == Registry.Holder(RegistryEvents(events), cfg.maxPeers, peer)
    ensures |Run(cfg, events).index.regs| <= cfg.maxPeers
  {
    StoresFollowHistories(cfg, events);
    Registry.IndexFollowsHistory(RegistryEvents(events), cfg.maxPeers);
    Registry.CapacityKept(RegistryEvents(events), cfg.maxPeers);
  }

  lemma {:induction false} InviteEventsChronological(cfg: Config, events: seq<Event>, now: int)
    requires Chronological(events) && TimedBy(events, now)
    ensures Invites.Chronological(InviteEvents(cfg, events))
    ensures forall i :: 0 <= i < |InviteEvents(cfg, events)| ==> InviteEvents(cfg, events)[i].now <= now
  {
    if events == [] {
    } else {
      hide Next;
      var init, e := events[..|events| - 1], events[|events| - 1];
      var o := InviteEvent(cfg, Run(cfg, init), e);
      if o.Some? {
        assert forall i :: 0 <= i < |init| ==> init[i] == events[i];
        InviteEventsChronological(cfg, init, TimeOf(e));
        assert o.value.now == TimeOf(e) <= now;
      } else {
        InviteEventsChronological(cfg, init, now);
      }
    }
  }

  lemma RedeemOuts(cfg: Config, st: State, e: Event)
    requires e.Frame? && e.env.payload.InviteRedeem? && Speaker(st.index, e.socket, e.env).Some?
    ensures var found := Invites.Redemption(st.invites, e.env.payload.hash, e.now);
      Outs(cfg, st, e)
      == [InviteResult(e.socket, if found.None? then Refused("not_found") else Granted(found.value.peerId, found.value.pubkey))]
  {
    hide Speaker, Invites.Redemption;
  }

  /** The reply to a redeem: the record of the last accepted create of that hash, if it was not
      redeemed since and expires strictly later than now; no sweep changes it. */
  lemma RedeemReply(cfg: Config, events: seq<Event>, e: Event)
    requires Chronological(events) && e.Frame? && TimedBy(events, e.now)
    requires e.env.payload.InviteRedeem? && Speaker(Run(cfg, events).index, e.socket, e.env).Some?
    ensures var hash := e.env.payload.hash;
      var due := if hash == "" then None
                 else Invites.Unexpired(Invites.Outstanding(InviteEvents(cfg, events), hash), e.now);
      Outs(cfg, Run(cfg, events), e)
      == [InviteResult(e.socket, if due.None? then Refused("not_found") else Granted(due.value.peerId, due.value.pubkey))]
  {
    RedeemOuts(cfg, Run(cfg, events), e);
    hide Run, Outs, Speaker, InviteEvents, TimedBy, Chronological;
    hide Invites.Chronological, Invites.Replay, Invites.Outstanding, PeerId.DecodePeerIdSpec;
    StoresFollowHistories(cfg, events);
    InviteEventsChronological(cfg, events, e.now);
    Invites.StoreFollowsHistory(InviteEvents(cfg, events), e.env.payload.hash, e.now);
  }

  /** The notifications on the wire of a step are exactly those its queue event hands over. */
  lemma HandedIsOnTheWire(cfg: Config, st: State, e: Event)
    ensures match QueueEvent(cfg, st, e)
      case None => forall o :: o in Outs(cfg, st, e) ==> !o.NotifyIn?
      case Some(Accept(to, n, live)) =>
        if live then to in st.index.regs && Outs(cfg, st, e) == [NotifyIn(st.index.regs[to].ws, n)]
        else Outs(cfg, st, e) == []
      case Some(Drain(peer, now)) =>
        e.Frame? && Outs(cfg, st, e)
        == NotifyAll(e.socket, OfflineQueue.Active(OfflineQueue.QueueOf(st.queues, peer), now - cfg.notifyTtlMs))
           + [RegisterOk(e.socket)]
  {
    hide PeerId.DecodePeerIdSpec;
  }

  /** The notifications among some outputs. */
  function Notifications(outs: seq<Out>): seq<OfflineQueue.Notification> {
    if outs == [] then []
    else
      var last := outs[|outs| - 1];
      Notifications(outs[..|outs| - 1]) + if last.NotifyIn? then [last.n] else []
  }

  lemma {:induction false} NotificationsOfAll(socket: Socket, ns: seq<OfflineQueue.Notification>)
    ensures Notifications(NotifyAll(socket, ns)) == ns
    ensures Notifications(NotifyAll(socket, ns) + [RegisterOk(socket)]) == ns
    decreases |ns|
  {
    var outs := NotifyAll(socket, ns);
    assert (outs + [RegisterOk(socket)])[..|outs|] == outs;
    if ns == [] {
    } else {
      var init := ns[..|ns| - 1];
      NotificationsOfAll(socket, init);
      assert outs[..|ns| - 1] == NotifyAll(socket, init);
      assert ns == init + [ns[|ns| - 1]];
    }
  }

  /** Whether the queue event of a step is about `peer`. */
  predicate About(o: Option<OfflineQueue.Event>, peer: string) {
    match o
    case None => false
    case Some(Accept(to, _, _)) => to == peer
    case Some(Drain(p, _)) => p == peer
  }

  /** The notify_in frames for `peer` that a run puts on the wire. */
  function OnTheWire(cfg: Config, events: seq<Event>, peer: string): multiset<OfflineQueue.Notification> {
    if events == [] then multiset{}
    else
      var init, e := events[..|events| - 1], events[|events| - 1];
      var st := Run(cfg, init);
      OnTheWire(cfg, init, peer)
      + if About(QueueEvent(cfg, st, e), peer) then multiset(Notifications(Outs(cfg, st, e))) else multiset{}
  }

  lemma HandedStep(cfg: Config, st: State, e: Event, l: OfflineQueue.Ledger, peer: string)
    ensures var q := QueueEvent(cfg, st, e);
      match q
      case None => Notifications(Outs(cfg, st, e)) == []
      case Some(event) =>
        OfflineQueue.Account(l, st.queues, event, peer, cfg.notifyTtlMs).handed
        == l.handed + if About(q, peer) then multiset(Notifications(Outs(cfg, st, e))) else multiset{}
  {
    StepNotifies(cfg, st, e);
    // Hidden in the goal only, here and below: the steps before need the definitions.
    hide Outs, QueueEvent, Notifications, OfflineQueue.Active, OfflineQueue.Expired;
  }

  lemma StepNotifies(cfg: Config, st: State, e: Event)
    ensures Notifications(Outs(cfg, st, e)) ==
      match QueueEvent(cfg, st, e)
      case None => []
      case Some(Accept(to, n, live)) => if live then [n] else []
      case Some(Drain(p, now)) => OfflineQueue.Active(OfflineQueue.QueueOf(st.queues, p), now - cfg.notifyTtlMs)
  {
    hide Outs, QueueEvent, Notifications, NotifyAll, OfflineQueue.Active, OfflineQueue.QueueOf;
    HandedIsOnTheWire(cfg, st, e);
    match QueueEvent(cfg, st, e) {
      case None => NoneNotified(Outs(cfg, st, e));
      case Some(Accept(to, n, live)) =>
        if live {
          OneNotified(st.index.regs[to].ws, n);
        } else {
          NoneNotified([]);
        }
      case Some(Drain(p, now)) =>
        NotificationsOfAll(e.socket, OfflineQueue.Active(OfflineQueue.QueueOf(st.queues, p), now - cfg.notifyTtlMs));
    }
  }

  lemma OneNotified(socket: Socket, n: OfflineQueue.Notification)
    ensures Notifications([NotifyIn(socket, n)]) == [n]
  {
    NotificationsOfAll(socket, [n]);
    assert NotifyAll(socket, [n]) == [NotifyIn(socket, n)];
  }

  lemma {:induction false} NoneNotified(outs: seq<Out>)
    requires forall o :: o in outs ==> !o.NotifyIn?
    ensures Notifications(outs) == []
  {
    if outs == [] {
    } else {
      NoneNotified(outs[..|outs| - 1]);
      assert outs[|outs| - 1] in outs;
    }
  }

  lemma {:induction false} WireIsHanded(cfg: Config, events: seq<Event>, peer: string)
    ensures OnTheWire(cfg, events, peer)
         == OfflineQueue.Books(QueueEvents(cfg, events), peer, cfg.notifyTtlMs).handed
  {
    if events == [] {
    } else {
      var init, e := events[..|events| - 1], events[|events| - 1];
      var st, before := Run(cfg, init), QueueEvents(cfg, init);
      WireIsHanded(cfg, init, peer);
      StoresFollowHistories(cfg, init);
      HandedStep(cfg, st, e, OfflineQueue.Books(before, peer, cfg.notifyTtlMs), peer);
      Snoc(before, QueueEvent(cfg, st, e));
      hide Outs, QueueEvent, OfflineQueue.Account, Run, OfflineQueue.Replay;
    }
  }

  /** Conservation over whole server runs, for every peer: what was accepted for it is what went out
      on the wire, what waits, and what expired. A step that is about no peer sends no notify_in. */
  lemma {:induction false} NotificationsConserved(cfg: Config, events: seq<Event>, peer: string)
    ensures var l := OfflineQueue.Books(QueueEvents(cfg, events), peer, cfg.notifyTtlMs);
      && l.accepted == l.handed + multiset(OfflineQueue.QueueOf(Run(cfg, events).queues, peer)) + l.expired
      && l.handed == OnTheWire(cfg, events, peer)
  {
    StoresFollowHistories(cfg, events);
    OfflineQueue.Conservation(QueueEvents(cfg, events), peer, cfg.notifyTtlMs);
    WireIsHanded(cfg, events, peer);
  }

  predicate IsRequest(p: Payload) {
    p.Lookup? || p.InviteCreate? || p.InviteRedeem?
  }

  predicate Answers(p: Payload, o: Out, socket: Socket)
    requires IsRequest(p)
  {
    o.socket == socket && (o.Closed? || (if p.Lookup? then o.LookupResult? else o.InviteResult?))
  }

  /** Every request is answered once, on its own socket, with the reply type of its kind or a
      close, and nothing else reaches that socket in the same step. */
  lemma RequestAnsweredOnce(cfg: Config, st: State, e: Event)
    requires e.Frame? && IsRequest(e.env.payload)
    ensures |Outs(cfg, st, e)| == 1 && Answers(e.env.payload, Outs(cfg, st, e)[0], e.socket)
  {
  }

  /** Replies are solicited: in any step a lookup or invite result goes to the socket whose request
      frame of that kind the step handles, and to no other. */
  lemma RepliesAreSolicited(cfg: Config, st: State, e: Event, o: Out)
    requires o in Outs(cfg, st, e) && (o.LookupResult? || o.InviteResult?)
    ensures e.Frame? && o.socket == e.socket && IsRequest(e.env.payload) && Answers(e.env.payload, o, e.socket)
  {
    hide PeerId.DecodePeerIdSpec, OfflineQueue.Active;
  }

  lemma UnknownSpeaker(cfg: Config, st: State, e: Event)
    requires e.Frame? && !e.env.payload.Register? && Speaker(st.index, e.socket, e.env).None?
    ensures Next(cfg, st, e) == st
    ensures forall o :: o in Outs(cfg, st, e) ==> o.Closed?
  {
  }

  /** A register that changes a store, or gets anything but a close in return, carries a signature
      under the key that the id it registers encodes. */
  lemma RegistersAreSigned(cfg: Config, st: State, e: Event)
    requires e.Frame? && e.env.payload.Register?
    requires Next(cfg, st, e) != st || exists o :: o in Outs(cfg, st, e) && !o.Closed?
    ensures e.env.signer.Some? && PeerId.DecodePeerIdSpec(e.env.payload.peerId) == Ok(e.env.signer.value)
  {
    hide PeerId.DecodePeerIdSpec;
  }

  /** Only the owner of a peer id can act for it: in every run, a frame other than a register
      that changes a store, or gets anything but a close in return, carries a signature under the
      key that the sender's peer id encodes. */
  lemma {:induction false} ActsAreSigned(cfg: Config, events: seq<Event>, e: Event)
    requires e.Frame? && !e.env.payload.Register?
    requires Next(cfg, Run(cfg, events), e) != Run(cfg, events)
          || exists o :: o in Outs(cfg, Run(cfg, events), e) && !o.Closed?
    ensures var ix := Run(cfg, events).index;
      e.socket in ix.socketToPeer && e.env.signer.Some?
      && PeerId.DecodePeerIdSpec(ix.socketToPeer[e.socket]) == Ok(e.env.signer.value)
  {
    var st := Run(cfg, events);
    var speaker := Speaker(st.index, e.socket, e.env);
    if speaker.None? {
      UnknownSpeaker(cfg, st, e);
    }
    StoresFollowHistories(cfg, events);
    Registry.KeysMatchIds(RegistryEvents(events), cfg.maxPeers, speaker.value);
  }
}
