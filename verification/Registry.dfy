/** The registration index of the rendezvous server: which socket speaks for which peer id. */
module Registry {
  import opened Prelude
  import PeerId

  type Socket = nat

  datatype Registration = Registration(ws: Socket, pubkey: seq<byte>)

  /** `peer_registrations` and `socket_to_peer`. */
  datatype Index = Index(regs: map<string, Registration>, socketToPeer: map<Socket, string>)

  const EMPTY := Index(map[], map[])

  datatype Refusal = MissingPeerId | InvalidEncoding | ServerFull

  // ── The two updates ──────────────────────────────────────────────────────

  function Admission(ix: Index, peerId: string, maxPeers: nat): Result<seq<byte>, Refusal> {
    if peerId == "" then Err(MissingPeerId)
    else match PeerId.DecodePeerIdSpec(peerId)
      case Err(_) => Err(InvalidEncoding)
      case Ok(pubkey) =>
        if peerId !in ix.regs && |ix.regs| >= maxPeers then Err(ServerFull) else Ok(pubkey)
  }

  /** An admitted register: the replaced socket, if any, loses its mapping. */
  function Enter(ix: Index, socket: Socket, peerId: string, pubkey: seq<byte>): Index {
    var mapping := if peerId in ix.regs then ix.socketToPeer - {ix.regs[peerId].ws} else ix.socketToPeer;
    Index(ix.regs[peerId := Registration(socket, pubkey)], mapping[socket := peerId])
  }

  /** What both the close and the error handler do. */
  function Evict(ix: Index, socket: Socket): Index {
    if socket in ix.socketToPeer then ix.(regs := ix.regs - {ix.socketToPeer[socket]}) else ix
  }

  // ── Runs and their log ───────────────────────────────────────────────────

  datatype Event =
    | Register(socket: Socket, peerId: string)
    | Close(socket: Socket)
    | Error(socket: Socket)

  function Apply(ix: Index, e: Event, maxPeers: nat): Index {
    match e
    case Register(s, p) =>
      (match Admission(ix, p, maxPeers)
       case Err(_) => ix
       case Ok(pubkey) => Enter(ix, s, p, pubkey))
    case Close(s) => Evict(ix, s)
    case Error(s) => Evict(ix, s)
  }

  function Replay(events: seq<Event>, maxPeers: nat): Index {
    if events == [] then EMPTY
    else Apply(Replay(events[..|events| - 1], maxPeers), events[|events| - 1], maxPeers)
  }

  predicate Admitted(events: seq<Event>, maxPeers: nat, i: nat)
    requires i < |events|
  {
    events[i].Register? && Admission(Replay(events[..i], maxPeers), events[i].peerId, maxPeers).Ok?
  }

  /** Who holds `p` according to the history alone: the socket of the last admitted register for
      `p`, unless that socket has closed or failed since. */
  function Holder(events: seq<Event>, maxPeers: nat, p: string): Option<Socket> {
    if events == [] then None
    else
      var n := |events| - 1;
      var before := Holder(events[..n], maxPeers, p);
      match events[n]
      case Register(s, q) => if q == p && Admitted(events, maxPeers, n) then Some(s) else before
      case Close(s) => if before == Some(s) then None else before
      case Error(s) => if before == Some(s) then None else before
  }

  function Lookup(ix: Index, p: string): Option<Socket> {
    if p in ix.regs then Some(ix.regs[p].ws) else None
  }

  ghost predicate Agrees(events: seq<Event>, maxPeers: nat) {
    forall p :: Lookup(Replay(events, maxPeers), p) == Holder(events, maxPeers, p)
  }

  // ── Exactly when the index follows the history ───────────────────────────

  /** The peer that the handlers evict for `s` is the only one `s` holds. */
  ghost predicate EvictsItsOwn(ix: Index, s: Socket) {
    forall p :: p in ix.regs ==> (ix.regs[p].ws == s <==> s in ix.socketToPeer && ix.socketToPeer[s] == p)
  }

  predicate Leaves(e: Event) {
    e.Close? || e.Error?
  }

  lemma AgreesStep(events: seq<Event>, e: Event, maxPeers: nat)
    requires Agrees(events, maxPeers)
    ensures Agrees(events + [e], maxPeers)
       <==> (Leaves(e) ==> EvictsItsOwn(Replay(events, maxPeers), e.socket))
  {
    var run := events + [e];
    var ix := Replay(events, maxPeers);
    assert run[..|events|] == events;
    assert forall p :: Lookup(ix, p) == Holder(events, maxPeers, p);
    if Leaves(e) {
      var s := e.socket;
      assert Replay(run, maxPeers) == Evict(ix, s);
      forall p
        ensures Holder(run, maxPeers, p) == if Lookup(ix, p) == Some(s) then None else Lookup(ix, p)
      {
      }
      if Agrees(run, maxPeers) {
        forall p | p in ix.regs
          ensures ix.regs[p].ws == s <==> s in ix.socketToPeer && ix.socketToPeer[s] == p
        {
          assert Lookup(Evict(ix, s), p) == Holder(run, maxPeers, p);
        }
      }
    } else {
      forall p
        ensures Lookup(Replay(run, maxPeers), p) == Holder(run, maxPeers, p)
      {
        assert Lookup(ix, p) == Holder(events, maxPeers, p);
      }
    }
  }

  /** The index agrees with the history at every moment exactly when every closing or failing
      socket holds just the peer its mapping names. */
  lemma {:induction false} AgreesIff(events: seq<Event>, maxPeers: nat)
    ensures (forall n: nat :: n <= |events| ==> Agrees(events[..n], maxPeers))
       <==> (forall n: nat :: n < |events| && Leaves(events[n]) ==>
               EvictsItsOwn(Replay(events[..n], maxPeers), events[n].socket))
  {
    if events == [] {
      assert forall n: nat :: n <= 0 ==> events[..n] == [];
    } else {
      var n := |events| - 1;
      var init := events[..n];
      AgreesIff(init, maxPeers);
      assert events == init + [events[n]];
      assert forall k: nat :: k <= n ==> init[..k] == events[..k];
      if Agrees(init, maxPeers) {
        AgreesStep(init, events[n], maxPeers);
      }
      assert init[..n] == init && events[..n + 1] == events;
      assert forall k: nat :: k <= |events| ==> k <= n || events[..k] == events;
    }
  }

  // ── A condition on the sockets that guarantees it ────────────────────────

  /** A socket registers one peer id only. */
  predicate OneIdPerSocket(events: seq<Event>) {
    forall i, j ::
      (0 <= i < j < |events| && events[i].Register? && events[j].Register? && events[i].socket == events[j].socket)
      ==> events[i].peerId == events[j].peerId
  }

  /** After its close a socket is silent; after its error the very next event is its close. */
  predicate OrderlyEnds(events: seq<Event>) {
    && (forall i, j :: 0 <= i < j < |events| && events[i].Close? ==> events[j].socket != events[i].socket)
    && (forall i :: 0 <= i < |events| - 1 && events[i].Error? ==> events[i + 1] == Close(events[i].socket))
  }

  predicate Departed(events: seq<Event>, s: Socket) {
    exists i :: 0 <= i < |events| && events[i] in {Close(s), Error(s)}
  }

  predicate Attempted(events: seq<Event>, s: Socket, p: string) {
    Register(s, p) in events
  }

  ghost predicate Consistent(events: seq<Event>, ix: Index) {
    && (forall p :: p in ix.regs ==>
          ix.regs[p].ws in ix.socketToPeer && ix.socketToPeer[ix.regs[p].ws] == p && !Departed(events, ix.regs[p].ws))
    && (forall s :: s in ix.socketToPeer ==> Attempted(events, s, ix.socketToPeer[s]))
    && (forall s :: s in ix.socketToPeer && !Departed(events, s) ==>
          ix.socketToPeer[s] in ix.regs && ix.regs[ix.socketToPeer[s]].ws == s)
    && (events != [] && events[|events| - 1].Error? ==>
          var s := events[|events| - 1].socket; s in ix.socketToPeer ==> ix.socketToPeer[s] !in ix.regs)
  }

  lemma DepartedSnoc(events: seq<Event>, e: Event, s: Socket)
    ensures Departed(events + [e], s) <==> Departed(events, s) || e in {Close(s), Error(s)}
  {
    var run := events + [e];
    if Departed(events, s) {
      var i :| 0 <= i < |events| && events[i] in {Close(s), Error(s)};
      assert run[i] in {Close(s), Error(s)};
    }
    if e in {Close(s), Error(s)} {
      assert run[|events|] in {Close(s), Error(s)};
    }
  }

  /** A socket that departed speaks again only to close, right after its error. */
  lemma SilentAfterDeparture(events: seq<Event>, e: Event)
    requires OrderlyEnds(events + [e]) && Departed(events, e.socket)
    ensures e.Close? && events[|events| - 1] == Error(e.socket)
  {
    var run := events + [e];
    var i :| 0 <= i < |events| && events[i] in {Close(e.socket), Error(e.socket)};
    assert run[i] == events[i] && run[|events|] == e;
    assert run[i].Error? && run[i + 1] == Close(e.socket);
  }

  lemma ConsistentRegister(events: seq<Event>, e: Event, ix: Index, pubkey: seq<byte>)
    requires OneIdPerSocket(events + [e]) && OrderlyEnds(events + [e]) && Consistent(events, ix)
    requires e.Register?
    ensures Consistent(events + [e], ix)
    ensures Consistent(events + [e], Enter(ix, e.socket, e.peerId, pubkey))
  {
    var run, s, p := events + [e], e.socket, e.peerId;
    forall t ensures Departed(run, t) == Departed(events, t) {
      DepartedSnoc(events, e, t);
    }
    if Departed(events, s) {
      SilentAfterDeparture(events, e);
    }
    if s in ix.socketToPeer {
      var i :| 0 <= i < |events| && events[i] == Register(s, ix.socketToPeer[s]);
      assert run[i] == events[i] && run[|events|] == e;
      assert ix.socketToPeer[s] == p;
    }
    forall t | t in ix.socketToPeer
      ensures Attempted(run, t, ix.socketToPeer[t])
    {
      assert Attempted(events, t, ix.socketToPeer[t]);
    }
    assert run[|events|] == Register(s, p);
    assert Attempted(run, s, p);
  }

  lemma ConsistentLeave(events: seq<Event>, e: Event, ix: Index)
    requires OrderlyEnds(events + [e]) && Consistent(events, ix) && Leaves(e)
    ensures EvictsItsOwn(ix, e.socket)
    ensures Consistent(events + [e], Evict(ix, e.socket))
  {
    var run, s := events + [e], e.socket;
    assert run[|events|] == e;
    forall t ensures Departed(run, t) == (Departed(events, t) || t == s) {
      DepartedSnoc(events, e, t);
    }
    if Departed(events, s) {
      SilentAfterDeparture(events, e);
    }
    forall t | t in ix.socketToPeer
      ensures Attempted(run, t, ix.socketToPeer[t])
    {
      assert Attempted(events, t, ix.socketToPeer[t]);
    }
  }

  lemma {:induction false} ConsistentRun(events: seq<Event>, maxPeers: nat)
    requires OneIdPerSocket(events) && OrderlyEnds(events)
    ensures Consistent(events, Replay(events, maxPeers))
    ensures forall n: nat :: n < |events| && Leaves(events[n]) ==>
              EvictsItsOwn(Replay(events[..n], maxPeers), events[n].socket)
  {
    if events == [] {
    } else {
      var n := |events| - 1;
      var init, e := events[..n], events[n];
      assert events == init + [e];
      ConsistentRun(init, maxPeers);
      assert forall k: nat :: k < n ==> init[..k] == events[..k];
      var ix := Replay(init, maxPeers);
      hide Consistent, OneIdPerSocket, OrderlyEnds, EvictsItsOwn;
      match e {
        case Register(s, p) =>
          var a := Admission(ix, p, maxPeers);
          ConsistentRegister(init, e, ix, if a.Ok? then a.value else []);
        case Close(s) => ConsistentLeave(init, e, ix);
        case Error(s) => ConsistentLeave(init, e, ix);
      }
    }
  }

  /** For sockets that use one id and end in order, a peer is registered to a socket exactly when
      that socket's register was the last admitted one and the socket is still there. */
  lemma IndexFollowsHistory(events: seq<Event>, maxPeers: nat)
    requires OneIdPerSocket(events) && OrderlyEnds(events)
    ensures forall p :: Lookup(Replay(events, maxPeers), p) == Holder(events, maxPeers, p)
  {
    ConsistentRun(events, maxPeers);
    AgreesIff(events, maxPeers);
    assert events[..|events|] == events;
    assert Agrees(events, maxPeers);
  }

  /** Closing a socket that was replaced leaves the newer registration alone. */
  lemma ReplacedSocketCloses(events: seq<Event>, maxPeers: nat, p: string, older: Socket, newer: Socket)
    requires OneIdPerSocket(events + [Close(older)]) && OrderlyEnds(events + [Close(older)])
    requires Lookup(Replay(events, maxPeers), p) == Some(newer) && older != newer
    ensures Lookup(Replay(events + [Close(older)], maxPeers), p) == Some(newer)
  {
    var run := events + [Close(older)];
    assert run[..|events|] == events;
    assert forall i :: 0 <= i < |events| ==> events[i] == run[i];
    IndexFollowsHistory(events, maxPeers);
    IndexFollowsHistory(run, maxPeers);
  }

  /** The capacity holds in every run, orderly or not. */
  lemma {:induction false} CapacityKept(events: seq<Event>, maxPeers: nat)
    ensures |Replay(events, maxPeers).regs| <= maxPeers
  {
    if events == [] {
    } else {
      var init := events[..|events| - 1];
      CapacityKept(init, maxPeers);
      var ix := Replay(init, maxPeers);
      match events[|events| - 1] {
        case Register(s, p) =>
          if p in ix.regs {
            assert ix.regs[p := ix.regs[p]].Keys == ix.regs.Keys;
            SameSize(ix.regs, p, Replay(events, maxPeers).regs);
          }
        case Close(s) => SmallerSize(ix, s);
        case Error(s) => SmallerSize(ix, s);
      }
    }
  }

  lemma SameSize(m: map<string, Registration>, p: string, m': map<string, Registration>)
    requires p in m && m'.Keys == m.Keys
    ensures |m'| == |m|
  {
    assert |m'| == |m'.Keys| && |m| == |m.Keys|;
  }

  lemma SubsetSize(a: set<string>, b: set<string>)
    requires a <= b
    ensures |a| <= |b|
  {
    assert b == a + (b - a);
  }

  lemma SmallerSize(ix: Index, s: Socket)
    ensures |Evict(ix, s).regs| <= |ix.regs|
  {
    var m, m' := ix.regs, Evict(ix, s).regs;
    SubsetSize(m'.Keys, m.Keys);
    assert |m'| == |m'.Keys| && |m| == |m.Keys|;
  }

  /** Every registered id carries the key it encodes. */
  lemma {:induction false} KeysMatchIds(events: seq<Event>, maxPeers: nat, p: string)
    requires p in Replay(events, maxPeers).regs
    ensures PeerId.DecodePeerIdSpec(p) == Ok(Replay(events, maxPeers).regs[p].pubkey)
  {
    var init, e := events[..|events| - 1], events[|events| - 1];
    if p in Replay(init, maxPeers).regs {
      KeysMatchIds(init, maxPeers, p);
    }
  }

  // ── Neither condition can be dropped ─────────────────────────────────────

  function HolderAfter(before: Option<Socket>, ix: Index, e: Event, p: string, maxPeers: nat): Option<Socket> {
    if e.Register? && e.peerId == p && Admission(ix, p, maxPeers).Ok? then Some(e.socket)
    else if Leaves(e) && before == Some(e.socket) then None
    else before
  }

  lemma ReplaySnoc(events: seq<Event>, e: Event, maxPeers: nat)
    ensures Replay(events + [e], maxPeers) == Apply(Replay(events, maxPeers), e, maxPeers)
    ensures Admitted(events + [e], maxPeers, |events|)
       <==> e.Register? && Admission(Replay(events, maxPeers), e.peerId, maxPeers).Ok?
    ensures forall p ::
              Holder(events + [e], maxPeers, p) == HolderAfter(Holder(events, maxPeers, p), Replay(events, maxPeers), e, p, maxPeers)
  {
    assert (events + [e])[..|events|] == events;
  }

  /** The index after the first socket registers `p`. */
  lemma FirstRegister(p: string, maxPeers: nat)
    requires PeerId.DecodePeerIdSpec(p).Ok? && p != "" && maxPeers >= 1
    ensures Replay([Register(0, p)], maxPeers)
         == Index(map[p := Registration(0, PeerId.DecodePeerIdSpec(p).value)], map[0 := p])
    ensures Holder([Register(0, p)], maxPeers, p) == Some(0)
  {
    hide PeerId.DecodePeerIdSpec;
    assert [] + [Register(0, p)] == [Register(0, p)];
    ReplaySnoc([], Register(0, p), maxPeers);
  }

  /** A socket that registers a second id leaves the first behind when it closes. */
  lemma {:induction false} SecondIdStaysBehind(p: string, q: string)
    requires p != q && PeerId.DecodePeerIdSpec(p).Ok? && PeerId.DecodePeerIdSpec(q).Ok? && p != "" && q != ""
    ensures var events := [Register(0, p), Register(0, q), Close(0)];
      OrderlyEnds(events) && Lookup(Replay(events, 2), p) == Some(0) && Holder(events, 2, p) == None
  {
    hide PeerId.DecodePeerIdSpec, Replay, Holder;
    var e1 := [Register(0, p)];
    var e2 := e1 + [Register(0, q)];
    FirstRegister(p, 2);
    ReplaySnoc(e1, Register(0, q), 2);
    ReplaySnoc(e2, Close(0), 2);
    assert e2 + [Close(0)] == [Register(0, p), Register(0, q), Close(0)];
  }

  /** A register that arrives between a socket's error and its close is evicted by that close. */
  lemma StaleCloseEvicts(p: string)
    requires PeerId.DecodePeerIdSpec(p).Ok? && p != ""
    ensures var events := [Register(0, p), Error(0), Register(1, p), Close(0)];
      OneIdPerSocket(events) && Lookup(Replay(events, 1), p) == None && Holder(events, 1, p) == Some(1)
  {
    hide PeerId.DecodePeerIdSpec, Replay, Holder;
    var e1 := [Register(0, p)];
    var e2 := e1 + [Error(0)];
    var e3 := e2 + [Register(1, p)];
    FirstRegister(p, 1);
    ReplaySnoc(e1, Error(0), 1);
    ReplaySnoc(e2, Register(1, p), 1);
    ReplaySnoc(e3, Close(0), 1);
    assert e3 + [Close(0)] == [Register(0, p), Error(0), Register(1, p), Close(0)];
  }
}
