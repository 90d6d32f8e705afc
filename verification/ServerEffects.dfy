/** What each frame makes the rendezvous server do, in every run, told from the frames themselves. */
module ServerEffects {
  import opened Prelude
  import opened RendezvousServer
  import PeerId
  import Registry
  import OfflineQueue
  import Invites
  import RateLimiter

  lemma RunSnoc(cfg: Config, events: seq<Event>, e: Event)
    ensures Run(cfg, events + [e]) == Next(cfg, Run(cfg, events), e)
  {
    assert (events + [e])[..|events|] == events;
  }

  // ── Registering ──────────────────────────────────────────────────────────

  predicate IsRegister(e: Event) {
    e.Frame? && e.env.payload.Register?
  }

  /** The frame is signed with the key that the id it registers encodes. */
  predicate OwnsId(e: Event)
    requires IsRegister(e)
  {
    PeerId.DecodePeerIdSpec(e.env.payload.peerId).Ok?
    && e.env.signer == Some(PeerId.DecodePeerIdSpec(e.env.payload.peerId).value)
  }

  /** In every run a register signed by the owner of the id succeeds exactly when that peer is
      registered already or there is room, however full the server is in the first case; then the
      id, its key and the socket are entered. Otherwise the socket is closed and nothing changes. */
  lemma RegisterAnswered(cfg: Config, events: seq<Event>, e: Event)
    requires IsRegister(e)
    ensures var st, id := Run(cfg, events), e.env.payload.peerId;
      var after, outs := Run(cfg, events + [e]), Outs(cfg, st, e);
      if OwnsId(e) && (id in st.index.regs || |st.index.regs| < cfg.maxPeers) then
        && outs != [] && outs[|outs| - 1] == RegisterOk(e.socket)
        && id in after.index.regs && after.index.regs[id] == Registry.Registration(e.socket, e.env.signer.value)
        && e.socket in after.index.socketToPeer && after.index.socketToPeer[e.socket] == id
        && after.index.regs - {id} == st.index.regs - {id}
      else after == st && outs == [Closed(e.socket, if OwnsId(e) then 1013 else 1008)]
  {
    RunSnoc(cfg, events, e);
    EmptyIdMalformed();
    // Hidden in the goal only, here and below: the steps before need the definitions.
    hide Run, PeerId.DecodePeerIdSpec, OfflineQueue.Active;
  }

  lemma EmptyIdMalformed()
    ensures PeerId.DecodePeerIdSpec("").Err?
  {
    assert PeerId.Stripped("") == "";
  }

  // ── Speaking ─────────────────────────────────────────────────────────────

  /** The socket is mapped to a registered peer, and the frame is signed with the key in its id. */
  predicate SpeaksFor(st: State, e: Event, p: string)
    requires e.Frame?
  {
    && e.socket in st.index.socketToPeer && st.index.socketToPeer[e.socket] == p && p in st.index.regs
    && PeerId.DecodePeerIdSpec(p).Ok? && e.env.signer == Some(PeerId.DecodePeerIdSpec(p).value)
  }

  lemma SpeakerIs(cfg: Config, events: seq<Event>, e: Event, p: string)
    requires e.Frame?
    ensures var st := Run(cfg, events);
      Speaker(st.index, e.socket, e.env) == Some(p) <==> SpeaksFor(st, e, p)
  {
    hide Run, Registry.Replay, RegistryEvents, OfflineQueue.Replay, Invites.Replay, QueueEvents, InviteEvents;
    hide PeerId.DecodePeerIdSpec;
    StoresFollowHistories(cfg, events);
    if p in Run(cfg, events).index.regs {
      Registry.KeysMatchIds(RegistryEvents(events), cfg.maxPeers, p);
    }
  }

  /** With orderly sockets, the socket that the history gives to a peer can speak for it. */
  lemma HolderSpeaks(cfg: Config, events: seq<Event>, e: Event, p: string)
    requires Registry.OneIdPerSocket(RegistryEvents(events)) && Registry.OrderlyEnds(RegistryEvents(events))
    requires Registry.Holder(RegistryEvents(events), cfg.maxPeers, p).Some? && e.Frame?
    requires e.socket == Registry.Holder(RegistryEvents(events), cfg.maxPeers, p).value
    requires PeerId.DecodePeerIdSpec(p).Ok? && e.env.signer == Some(PeerId.DecodePeerIdSpec(p).value)
    ensures SpeaksFor(Run(cfg, events), e, p)
  {
    StoresFollowHistories(cfg, events);
    ServerIndexFollowsHistory(cfg, events, p);
    Registry.ConsistentRun(RegistryEvents(events), cfg.maxPeers);
    hide Run, PeerId.DecodePeerIdSpec, Registry.OneIdPerSocket, Registry.OrderlyEnds, Registry.Holder;
  }

  /** In every run a lookup by a registered speaker says whether the peer is registered, and a signal
      goes to the registered socket of its target, under the speaker's id, or nowhere. */
  lemma LookupAndSignalAnswered(cfg: Config, events: seq<Event>, e: Event, p: string)
    requires e.Frame? && SpeaksFor(Run(cfg, events), e, p)
    ensures var st := Run(cfg, events);
      match e.env.payload
      case Lookup(q) => Outs(cfg, st, e) == [LookupResult(e.socket, Registry.Lookup(st.index, q).Some?)]
      case Signal(to, body) =>
        Outs(cfg, st, e)
        == (match Registry.Lookup(st.index, to)
            case Some(ws) => if e.delivers then [SignalIn(ws, p, body)] else []
            case None => [])
      case _ => true
  {
    SpeakerIs(cfg, events, e, p);
    hide Run, PeerId.DecodePeerIdSpec, Speaker;
  }

  /** What is not JSON or lacks a field, and what nobody registered has signed, closes the socket; an
      unknown kind of frame is tolerated. None of them changes a store. */
  lemma OtherFramesAnswered(cfg: Config, events: seq<Event>, e: Event)
    requires e.BadFrame? || (e.Frame? && !e.env.payload.Register? && (e.env.payload.Unknown? || forall p :: !SpeaksFor(Run(cfg, events), e, p)))
    ensures var st := Run(cfg, events);
      && Run(cfg, events + [e]) == st
      && Outs(cfg, st, e) == if e.Frame? && exists p :: SpeaksFor(st, e, p) then [] else [Closed(e.socket, 1008)]
  {
    RunSnoc(cfg, events, e);
    if e.Frame? {
      SpeakerExists(cfg, events, e);
    }
    hide Run, Speaker, SpeaksFor, PeerId.DecodePeerIdSpec;
  }

  // ── Notifying ────────────────────────────────────────────────────────────

  /** What a frame deposits for `peer`: the box of a complete notify that is not too large, sent by
      a registered speaker. */
  ghost function Deposit(cfg: Config, st: State, e: Event, peer: string): multiset<OfflineQueue.Notification> {
    if e.Frame? && e.env.payload.Notify? && e.env.payload.to == peer && peer != "" && e.env.payload.sealedBox != ""
       && e.env.payload.decodedSize <= cfg.maxNotifySize && (exists p :: SpeaksFor(st, e, p))
    then multiset{OfflineQueue.Notification(e.env.payload.sealedBox, e.now)}
    else multiset{}
  }

  ghost function Deposited(cfg: Config, events: seq<Event>, peer: string): multiset<OfflineQueue.Notification> {
    if events == [] then multiset{}
    else
      var init, e := events[..|events| - 1], events[|events| - 1];
      Deposited(cfg, init, peer) + Deposit(cfg, Run(cfg, init), e, peer)
  }

  lemma SpeakerExists(cfg: Config, events: seq<Event>, e: Event)
    requires e.Frame?
    ensures Speaker(Run(cfg, events).index, e.socket, e.env).Some? <==> exists p :: SpeaksFor(Run(cfg, events), e, p)
  {
    forall p
      ensures Speaker(Run(cfg, events).index, e.socket, e.env) == Some(p) <==> SpeaksFor(Run(cfg, events), e, p)
    {
      SpeakerIs(cfg, events, e, p);
    }
    hide Run, Speaker, SpeaksFor;
    if Speaker(Run(cfg, events).index, e.socket, e.env).Some? {
      assert SpeaksFor(Run(cfg, events), e, Speaker(Run(cfg, events).index, e.socket, e.env).value);
    }
  }

  lemma AcceptedStep(cfg: Config, events: seq<Event>, e: Event, l: OfflineQueue.Ledger, peer: string)
    ensures var st := Run(cfg, events);
      match QueueEvent(cfg, st, e)
      case None => Deposit(cfg, st, e, peer) == multiset{}
      case Some(q) => OfflineQueue.Account(l, st.queues, q, peer, cfg.notifyTtlMs).accepted == l.accepted + Deposit(cfg, st, e, peer)
  {
    if e.Frame? {
      SpeakerExists(cfg, events, e);
    }
    hide Run, Speaker, SpeaksFor, PeerId.DecodePeerIdSpec, OfflineQueue.Active, OfflineQueue.Expired;
  }

  /** In every run what the server has accepted for a peer is exactly what valid frames have
      deposited for it, whether it was registered or not. */
  lemma {:induction false} EveryDepositIsAccepted(cfg: Config, events: seq<Event>, peer: string)
    ensures OfflineQueue.Books(QueueEvents(cfg, events), peer, cfg.notifyTtlMs).accepted == Deposited(cfg, events, peer)
  {
    if events == [] {
    } else {
      var init, e := events[..|events| - 1], events[|events| - 1];
      var st, before := Run(cfg, init), QueueEvents(cfg, init);
      EveryDepositIsAccepted(cfg, init, peer);
      StoresFollowHistories(cfg, init);
      AcceptedStep(cfg, init, e, OfflineQueue.Books(before, peer, cfg.notifyTtlMs), peer);
      Snoc(before, QueueEvent(cfg, st, e));
      hide QueueEvent, OfflineQueue.Account, Run, OfflineQueue.Replay, Deposit;
    }
  }

  /** Conservation, from frames to frames: what valid notify frames deposited for a peer is what went
      out to it, what waits, and what expired. */
  lemma {:induction false} DepositsConserved(cfg: Config, events: seq<Event>, peer: string)
    ensures Deposited(cfg, events, peer)
         == OnTheWire(cfg, events, peer) + multiset(OfflineQueue.QueueOf(Run(cfg, events).queues, peer))
            + OfflineQueue.Books(QueueEvents(cfg, events), peer, cfg.notifyTtlMs).expired
  {
    EveryDepositIsAccepted(cfg, events, peer);
    NotificationsConserved(cfg, events, peer);
    hide Run, Deposited, OnTheWire, QueueEvents, OfflineQueue.Books;
  }

  lemma ActiveSnoc(queue: seq<OfflineQueue.Notification>, n: OfflineQueue.Notification, cutoff: int)
    ensures OfflineQueue.Active(queue + [n], cutoff)
         == OfflineQueue.Active(queue, cutoff) + if n.queuedAt > cutoff then [n] else []
    decreases |queue|
  {
    if queue == [] {
      assert [n][1..] == [] && [] + [n] == [n];
    } else {
      assert (queue + [n])[1..] == queue[1..] + [n];
      ActiveSnoc(queue[1..], n, cutoff);
    }
  }

  /** A notify to a peer that is not registered, followed by that peer's register within the time to
      live: that box is the last thing on the registering socket before register_ok. */
  lemma OfflineDelivery(cfg: Config, events: seq<Event>, notify: Event, register: Event, p: string)
    requires notify.Frame? && notify.env.payload.Notify? && SpeaksFor(Run(cfg, events), notify, p)
    requires var n := notify.env.payload;
      n.to != "" && n.sealedBox != "" && n.decodedSize <= cfg.maxNotifySize && n.to !in Run(cfg, events).index.regs
    requires IsRegister(register) && OwnsId(register) && register.env.payload.peerId == notify.env.payload.to
    requires |Run(cfg, events).index.regs| < cfg.maxPeers && register.now < notify.now + cfg.notifyTtlMs
    ensures var outs := Outs(cfg, Run(cfg, events + [notify]), register);
      && |outs| >= 2 && outs[|outs| - 1] == RegisterOk(register.socket)
      && outs[|outs| - 2] == NotifyIn(register.socket, OfflineQueue.Notification(notify.env.payload.sealedBox, notify.now))
  {
    hide Run, Next, Outs, Speaker, SpeaksFor, OwnsId, PeerId.DecodePeerIdSpec, NotifyAll;
    hide OfflineQueue.Active, OfflineQueue.QueueOf;
    var st, peer := Run(cfg, events), notify.env.payload.to;
    var n := OfflineQueue.Notification(notify.env.payload.sealedBox, notify.now);
    RunSnoc(cfg, events, notify);
    SpeakerIs(cfg, events, notify, p);
    QueuedOffline(cfg, st, notify);
    ActiveSnoc(OfflineQueue.QueueOf(st.queues, peer), n, register.now - cfg.notifyTtlMs);
    DrainsFirst(cfg, Run(cfg, events + [notify]), register);
    LastBeforeOk(register.socket, OfflineQueue.Active(OfflineQueue.QueueOf(st.queues, peer), register.now - cfg.notifyTtlMs), n);
  }

  lemma LastBeforeOk(socket: Socket, ns: seq<OfflineQueue.Notification>, n: OfflineQueue.Notification)
    ensures var outs := NotifyAll(socket, ns + [n]) + [RegisterOk(socket)];
      |outs| >= 2 && outs[|outs| - 1] == RegisterOk(socket) && outs[|outs| - 2] == NotifyIn(socket, n)
  {
  }

  lemma DrainsFirst(cfg: Config, st: State, e: Event)
    requires IsRegister(e) && OwnsId(e) && e.env.payload.peerId != "" && |st.index.regs| < cfg.maxPeers
    ensures Outs(cfg, st, e)
         == NotifyAll(e.socket, OfflineQueue.Active(OfflineQueue.QueueOf(st.queues, e.env.payload.peerId), e.now - cfg.notifyTtlMs))
            + [RegisterOk(e.socket)]
  {
    hide PeerId.DecodePeerIdSpec, OfflineQueue.Active;
  }

  lemma QueuedOffline(cfg: Config, st: State, e: Event)
    requires e.Frame? && e.env.payload.Notify? && Speaker(st.index, e.socket, e.env).Some?
    requires var n := e.env.payload;
      n.to != "" && n.sealedBox != "" && n.decodedSize <= cfg.maxNotifySize && n.to !in st.index.regs
    ensures Next(cfg, st, e).index == st.index
    ensures OfflineQueue.QueueOf(Next(cfg, st, e).queues, e.env.payload.to)
         == OfflineQueue.QueueOf(st.queues, e.env.payload.to) + [OfflineQueue.Notification(e.env.payload.sealedBox, e.now)]
  {
    hide PeerId.DecodePeerIdSpec, Speaker;
  }

  // ── Invites and the rate limiter ─────────────────────────────────────────

  ghost predicate AsksForInvite(st: State, e: Event) {
    e.Frame? && e.env.payload.InviteCreate? && exists p :: SpeaksFor(st, e, p)
  }

  /** The requests that the rate limiter has judged: the invite_create frames of registered speakers. */
  ghost function InviteRequests(cfg: Config, events: seq<Event>): seq<RateLimiter.Request> {
    if events == [] then []
    else
      var init, e := events[..|events| - 1], events[|events| - 1];
      InviteRequests(cfg, init)
      + if AsksForInvite(Run(cfg, init), e) then [RateLimiter.Request(e.ip, e.now, e.sampled)] else []
  }

  lemma LimiterSnoc(max: nat, reqs: seq<RateLimiter.Request>, r: RateLimiter.Request)
    ensures RateLimiter.State(max, reqs + [r]) == RateLimiter.After(RateLimiter.State(max, reqs), max, r.ip, r.now, r.sampled)
    ensures RateLimiter.Answer(max, reqs + [r], |reqs|) == RateLimiter.Allowed(RateLimiter.State(max, reqs), max, r.ip, r.now)
  {
    assert (reqs + [r])[..|reqs|] == reqs;
  }

  /** The server's counters are those of a rate limiter that was asked once for each invite_create of
      a registered speaker, so its bounds hold of every server run. */
  lemma {:induction false} CountersAreLimiter(cfg: Config, events: seq<Event>)
    ensures Run(cfg, events).counters == RateLimiter.State(cfg.maxInvites, InviteRequests(cfg, events))
  {
    if events == [] {
    } else {
      var init, e := events[..|events| - 1], events[|events| - 1];
      CountersAreLimiter(cfg, init);
      if e.Frame? {
        SpeakerExists(cfg, init, e);
        LimiterSnoc(cfg.maxInvites, InviteRequests(cfg, init), RateLimiter.Request(e.ip, e.now, e.sampled));
      }
      CountersStep(cfg, Run(cfg, init), e);
      assert InviteRequests(cfg, init) + [] == InviteRequests(cfg, init);
      hide Run, Speaker, SpeaksFor, Next, RateLimiter.State, RateLimiter.After;
    }
  }

  lemma CountersStep(cfg: Config, st: State, e: Event)
    ensures Next(cfg, st, e).counters
         == if e.Frame? && e.env.payload.InviteCreate? && Speaker(st.index, e.socket, e.env).Some?
            then RateLimiter.After(st.counters, cfg.maxInvites, e.ip, e.now, e.sampled) else st.counters
  {
    hide Speaker, RegistryEvent, QueueEvent, InviteEvent;
  }

  /** In every run an invite_create of a registered speaker closes the connection exactly when the
      rate limiter refuses it; otherwise it is granted and stored exactly when its hash and key are
      there and its date lies ahead. */
  lemma {:induction false} CreateAnswered(cfg: Config, events: seq<Event>, e: Event)
    requires AsksForInvite(Run(cfg, events), e)
    ensures var st, after := Run(cfg, events), Run(cfg, events + [e]);
      var reqs := InviteRequests(cfg, events) + [RateLimiter.Request(e.ip, e.now, e.sampled)];
      var c := e.env.payload;
      if !RateLimiter.Answer(cfg.maxInvites, reqs, |reqs| - 1) then
        Outs(cfg, st, e) == [Closed(e.socket, 1013)] && after.invites == st.invites
      else if c.hash != "" && c.pubkey != "" && c.expiresAt.Some? && e.now < c.expiresAt.value then
        && Outs(cfg, st, e) == [InviteResult(e.socket, Granted(c.peerId, c.pubkey))]
        && after.invites == st.invites[c.hash := Invites.Record(c.pubkey, c.peerId, c.expiresAt.value)]
      else
        Outs(cfg, st, e) == [InviteResult(e.socket, Refused("invalid_request"))] && after.invites == st.invites
  {
    hide SpeaksFor;
    RunSnoc(cfg, events, e);
    CountersAreLimiter(cfg, events);
    SpeakerExists(cfg, events, e);
    LimiterSnoc(cfg.maxInvites, InviteRequests(cfg, events), RateLimiter.Request(e.ip, e.now, e.sampled));
    hide Run, Speaker, InviteRequests, RateLimiter.State, RateLimiter.Allowed, RateLimiter.After, RateLimiter.Answer;
  }

  /** A granted invite can be redeemed, strictly before its date, and then is gone. */
  lemma {:induction false} CreateThenRedeem(cfg: Config, events: seq<Event>, create: Event, redeem: Event)
    requires AsksForInvite(Run(cfg, events), create)
    requires var c := create.env.payload;
      Outs(cfg, Run(cfg, events), create) == [InviteResult(create.socket, Granted(c.peerId, c.pubkey))]
    requires redeem.Frame? && redeem.env.payload == InviteRedeem(create.env.payload.hash)
    requires exists p :: SpeaksFor(Run(cfg, events + [create]), redeem, p)
    ensures var c := create.env.payload;
      && c.expiresAt.Some?
      && Outs(cfg, Run(cfg, events + [create]), redeem)
         == [InviteResult(redeem.socket, if redeem.now < c.expiresAt.value then Granted(c.peerId, c.pubkey) else Refused("not_found"))]
      && c.hash !in Run(cfg, events + [create] + [redeem]).invites
  {
    hide SpeaksFor, AsksForInvite, Run, Outs, Next, Speaker, RateLimiter.Answer, InviteRequests, Invites.Redemption;
    CreateAnswered(cfg, events, create);
    SpeakerExists(cfg, events + [create], redeem);
    RedeemOuts(cfg, Run(cfg, events + [create]), redeem);
    RunSnoc(cfg, events + [create], redeem);
    RedeemStep(cfg, Run(cfg, events + [create]), redeem);
  }

  lemma RedeemStep(cfg: Config, st: State, e: Event)
    requires e.Frame? && e.env.payload.InviteRedeem? && Speaker(st.index, e.socket, e.env).Some? && e.env.payload.hash != ""
    ensures Next(cfg, st, e).invites == st.invites - {e.env.payload.hash}
    ensures var h := e.env.payload.hash;
      Invites.Redemption(st.invites, h, e.now)
      == if h in st.invites && e.now < st.invites[h].expiresAt then Some(st.invites[h]) else None
  {
    hide Speaker;
  }

  /** After a sweep nothing that has expired is stored, and everything else still is. */
  lemma SweepLeaves(cfg: Config, events: seq<Event>, now: int, hash: string)
    ensures var before, after := Run(cfg, events).invites, Run(cfg, events + [Sweep(now)]).invites;
      && (hash in after <==> hash in before && before[hash].expiresAt > now)
      && (hash in after ==> after[hash] == before[hash])
  {
    RunSnoc(cfg, events, Sweep(now));
    hide Run;
  }
}
