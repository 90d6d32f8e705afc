/** The gate between the rendezvous and a peer session: signed descriptions, buffered candidates.

    Verifications run concurrently and finish in any order; the session is a log of the calls made. */
module RelayGate {
  import opened Prelude
  import opened Text
  import F = Fingerprint
  import H = SdpFingerprint
  import PeerId

  const WINDOW_SECONDS: nat := 300

  datatype Kind = OfferKind | AnswerKind

  /** A field is `None` when it is absent or of another type; signature and nonce are decoded. */
  datatype Envelope = Envelope(
    kind: Kind,
    sdp: Option<string>,
    fingerprint: Option<string>,
    signature: Option<F.Signature>,
    peerId: Option<string>,
    timestamp: Option<int>,
    nonce: Option<seq<byte>>)

  datatype Candidate = Candidate(candidate: string, mid: string)

  datatype Signal =
    | Unparsable
    | Description(env: Envelope)
    | Ice(candidate: string, mid: Option<string>)
    | Unknown

  datatype Call =
    | Fail(reason: string)
    | AcceptSignal(sdp: string, kind: Kind)
    | SignalThrew
    | AcceptCandidate(c: Candidate)

  datatype Fate = Handed(c: Candidate) | Discarded(c: Candidate)

  /** `fates`: what became of the candidates that are pending no more, in order of arrival. */
  datatype Gate = Gate(
    expected: string,
    subscribed: bool,
    remoteDescSet: bool,
    pending: seq<Candidate>,
    inFlight: map<nat, Envelope>,
    started: nat,
    session: seq<Call>,
    fates: seq<Fate>)

  function Initial(expected: string): Gate {
    Gate(expected, true, false, [], map[], 0, [], [])
  }

  /** `ok`: whether `acceptSignal` throws. `now` is in seconds. */
  datatype Event =
    | Arrives(signal: Signal, now: int)
    | Verified(id: nat, ok: bool)
    | Unsubscribes

  // ── The checks ───────────────────────────────────────────────────────────

  datatype Check = Rejected(reason: string) | Throws | Starts

  predicate Complete(env: Envelope) {
    env.sdp.Some? && env.fingerprint.Some? && env.signature.Some? && env.peerId.Some? && env.timestamp.Some? && env.nonce.Some?
  }

  /** The checks made on arrival. Only the expected id can be malformed here, and then it throws. */
  function Checked(expected: string, env: Envelope, now: int): Check {
    if !Complete(env) then Rejected("schema_invalid")
    else if env.peerId.value != expected then Rejected("peer_id_mismatch")
    else if !F.IsTimestampValid(env.timestamp.value, WINDOW_SECONDS, now) then Rejected("timestamp_invalid")
    else if |H.FromHex(env.fingerprint.value)| != 32 then Rejected("schema_invalid")
    else if PeerId.DecodePeerIdSpec(expected).Err? then Throws
    else Starts
  }

  datatype Verdict = Hangs | Denied(reason: string) | Passed

  /** The checks made when the verification ends; a rejected promise is handled by nobody. */
  function Judged(expected: string, env: Envelope): Verdict
    requires Complete(env)
  {
    match PeerId.DecodePeerIdSpec(expected)
    case Err(_) => Hangs
    case Ok(key) =>
      match F.VerifyFingerprint(H.FromHex(env.fingerprint.value), key, env.timestamp.value, env.nonce.value,
                                env.signature.value, key)
      case Err(_) => Hangs
      case Ok(valid) =>
        if !valid then Denied("signature_invalid")
        else match H.Extract(env.sdp.value)
          case Err(_) => Denied("schema_invalid")
          case Ok(sdpFp) =>
            if H.ToHex(sdpFp, H.LOWER) != env.fingerprint.value then Denied("sdp_fingerprint_mismatch") else Passed
  }

  // ── Steps ────────────────────────────────────────────────────────────────

  function Calls(cs: seq<Candidate>): (calls: seq<Call>)
    ensures |calls| == |cs| && forall i :: 0 <= i < |cs| ==> calls[i] == AcceptCandidate(cs[i])
  {
    seq(|cs|, i requires 0 <= i < |cs| => AcceptCandidate(cs[i]))
  }

  function AllHanded(cs: seq<Candidate>): (fates: seq<Fate>)
    ensures |fates| == |cs| && forall i :: 0 <= i < |cs| ==> fates[i] == Handed(cs[i])
  {
    seq(|cs|, i requires 0 <= i < |cs| => Handed(cs[i]))
  }

  function AllDiscarded(cs: seq<Candidate>): (fates: seq<Fate>)
    ensures |fates| == |cs| && forall i :: 0 <= i < |cs| ==> fates[i] == Discarded(cs[i])
  {
    seq(|cs|, i requires 0 <= i < |cs| => Discarded(cs[i]))
  }

  function Flush(g: Gate): Gate {
    g.(pending := [], session := g.session + Calls(g.pending), fates := g.fates + AllHanded(g.pending))
  }

  function Discard(g: Gate, reason: string): Gate {
    g.(pending := [], session := g.session + [Fail(reason)], fates := g.fates + AllDiscarded(g.pending))
  }

  function OnDescription(g: Gate, env: Envelope, now: int): Gate {
    match Checked(g.expected, env, now)
    case Rejected(reason) => g.(session := g.session + [Fail(reason)])
    case Throws => g
    case Starts => g.(inFlight := g.inFlight[g.started := env], started := g.started + 1)
  }

  function OnIce(g: Gate, c: Candidate): Gate {
    if c.candidate == "" then g
    else if !g.remoteDescSet then g.(pending := g.pending + [c])
    else g.(session := g.session + [AcceptCandidate(c)], fates := g.fates + [Handed(c)])
  }

  function MidOf(mid: Option<string>): string {
    if mid.None? then "0" else mid.value
  }

  function OnSignal(g: Gate, s: Signal, now: int): Gate {
    match s
    case Unparsable => g.(session := g.session + [Fail("schema_invalid")])
    case Description(env) => OnDescription(g, env, now)
    case Ice(candidate, mid) => OnIce(g, Candidate(candidate, MidOf(mid)))
    case Unknown => g
  }

  function OnVerified(g: Gate, id: nat, ok: bool): Gate
    requires id in g.inFlight && Complete(g.inFlight[id])
  {
    var env := g.inFlight[id];
    var g1 := g.(inFlight := g.inFlight - {id});
    match Judged(g.expected, env)
    case Hangs => g1
    case Denied(reason) => Discard(g1, reason)
    case Passed =>
      if !ok then g1.(session := g1.session + [SignalThrew])
      else Flush(g1.(session := g1.session + [AcceptSignal(env.sdp.value, env.kind)], remoteDescSet := true))
  }

  predicate Possible(g: Gate, e: Event) {
    e.Verified? ==> e.id in g.inFlight && Complete(g.inFlight[e.id])
  }

  /** After unsubscribing no signal is heard, but verifications under way still finish. */
  function Next(g: Gate, e: Event): Gate
    requires Possible(g, e)
  {
    match e
    case Arrives(s, now) => if g.subscribed then OnSignal(g, s, now) else g
    case Verified(id, ok) => OnVerified(g, id, ok)
    case Unsubscribes => g.(subscribed := false)
  }

  function Run(expected: string, events: seq<Event>): Option<Gate> {
    if events == [] then Some(Initial(expected))
    else
      var init := Run(expected, events[..|events| - 1]);
      var e := events[|events| - 1];
      if init.None? || !Possible(init.value, e) then None else Some(Next(init.value, e))
  }

  // ── The relay object ─────────────────────────────────────────────────────

  class Relay {
    const expectedRemotePeerId: string
    var subscribed: bool
    var remoteDescSet: bool
    var pendingIceCandidates: seq<Candidate>
    var inFlight: map<nat, Envelope>
    var started: nat
    var session: seq<Call>
    var fates: seq<Fate>

    function Contents(): Gate
      reads this
    {
      Gate(expectedRemotePeerId, subscribed, remoteDescSet, pendingIceCandidates, inFlight, started, session, fates)
    }

    constructor (expected: string)
      ensures Contents() == Initial(expected)
    {
      expectedRemotePeerId := expected;
      subscribed, remoteDescSet, pendingIceCandidates, inFlight, started := true, false, [], map[], 0;
      session, fates := [], [];
    }

    method FlushIceCandidates()
      modifies this
      ensures Contents() == Flush(old(Contents()))
    {
      var pending := pendingIceCandidates;
      pendingIceCandidates := [];
      for i := 0 to |pending|
        invariant Contents() == old(Contents()).(pending := [], session := old(session) + Calls(pending[..i]),
                                                 fates := old(fates) + AllHanded(pending[..i]))
      {
        assert pending[..i + 1] == pending[..i] + [pending[i]];
        assert Calls(pending[..i + 1]) == Calls(pending[..i]) + [AcceptCandidate(pending[i])];
        assert AllHanded(pending[..i + 1]) == AllHanded(pending[..i]) + [Handed(pending[i])];
        session := session + [AcceptCandidate(pending[i])];
        fates := fates + [Handed(pending[i])];
      }
      assert pending[..|pending|] == pending;
    }

    method FailSession(reason: string)
      modifies this`session
      ensures session == old(session) + [Fail(reason)]
    {
      session := session + [Fail(reason)];
    }

    method OnDescriptionIn(env: Envelope, now: int)
      modifies this
      ensures Contents() == OnDescription(old(Contents()), env, now)
    {
      hide H.FromHex, PeerId.DecodePeerIdSpec;
      if !Complete(env) {
        FailSession("schema_invalid");
        return;
      }
      if env.peerId.value != expectedRemotePeerId {
        FailSession("peer_id_mismatch");
        return;
      }
      if !F.IsTimestampValid(env.timestamp.value, WINDOW_SECONDS, now) {
        FailSession("timestamp_invalid");
        return;
      }
      if |H.FromHex(env.fingerprint.value)| != 32 {
        FailSession("schema_invalid");
        return;
      }
      var remotePubKey := PeerId.DecodePeerId(env.peerId.value);
      if remotePubKey.Ok? {
        inFlight := inFlight[started := env];
        started := started + 1;
      }
    }

    method OnSignalIn(s: Signal, now: int)
      modifies this
      ensures Contents() == Next(old(Contents()), Arrives(s, now))
    {
      if !subscribed {
        return;
      }
      match s {
        case Unparsable =>
          FailSession("schema_invalid");
        case Description(env) =>
          hide OnDescription;
          OnDescriptionIn(env, now);
        case Ice(candidate, mid) =>
          if candidate == "" {
            return;
          }
          var c := Candidate(candidate, if mid.Some? then mid.value else "0");
          if !remoteDescSet {
            pendingIceCandidates := pendingIceCandidates + [c];
          } else {
            session := session + [AcceptCandidate(c)];
            fates := fates + [Handed(c)];
          }
        case Unknown =>
      }
    }

    method DiscardAndFail(reason: string)
      modifies this
      ensures Contents() == Discard(old(Contents()), reason)
    {
      fates := fates + AllDiscarded(pendingIceCandidates);
      pendingIceCandidates := [];
      FailSession(reason);
    }

    method OnVerificationEnds(id: nat, ok: bool)
      requires Possible(Contents(), Verified(id, ok))
      modifies this
      ensures Contents() == OnVerified(old(Contents()), id, ok)
    {
      hide H.FromHex, H.Extract, H.ToHex, PeerId.DecodePeerIdSpec, F.VerifyFingerprint, Flush, Discard;
      var env := inFlight[id];
      inFlight := inFlight - {id};
      var key := PeerId.DecodePeerId(expectedRemotePeerId);
      if key.Err? {
        return;
      }
      var valid := F.VerifyFingerprint(H.FromHex(env.fingerprint.value), key.value, env.timestamp.value, env.nonce.value,
                                       env.signature.value, key.value);
      if valid.Err? {
        return;
      }
      if !valid.value {
        DiscardAndFail("signature_invalid");
        return;
      }
      var sdpFp := H.ExtractSDPFingerprint(env.sdp.value);
      if sdpFp.Err? {
        DiscardAndFail("schema_invalid");
        return;
      }
      if H.ToHex(sdpFp.value, H.LOWER) != env.fingerprint.value {
        DiscardAndFail("sdp_fingerprint_mismatch");
        return;
      }
      if !ok {
        session := session + [SignalThrew];
        return;
      }
      session := session + [AcceptSignal(env.sdp.value, env.kind)];
      remoteDescSet := true;
      FlushIceCandidates();
    }
  }

  // ── Candidates: once each, in order, after a description ─────────────────

  function Candidates(fates: seq<Fate>): (cs: seq<Candidate>)
    ensures |cs| == |fates| && forall i :: 0 <= i < |cs| ==> cs[i] == fates[i].c
  {
    seq(|fates|, i requires 0 <= i < |fates| => fates[i].c)
  }

  function HandedOver(fates: seq<Fate>): seq<Candidate> {
    if fates == [] then []
    else HandedOver(fates[..|fates| - 1]) + if fates[|fates| - 1].Handed? then [fates[|fates| - 1].c] else []
  }

  /** The candidates that the session was given. */
  function Given(session: seq<Call>): seq<Candidate> {
    if session == [] then []
    else
      var last := session[|session| - 1];
      Given(session[..|session| - 1]) + if last.AcceptCandidate? then [last.c] else []
  }

  predicate Subscribed(events: seq<Event>) {
    forall i :: 0 <= i < |events| ==> !events[i].Unsubscribes?
  }

  /** The non-empty candidates heard before unsubscribing. */
  function Arrived(events: seq<Event>): seq<Candidate> {
    if events == [] then []
    else
      var init, e := events[..|events| - 1], events[|events| - 1];
      Arrived(init)
      + if Subscribed(init) && e.Arrives? && e.signal.Ice? && e.signal.candidate != ""
        then [Candidate(e.signal.candidate, MidOf(e.signal.mid))] else []
  }

  lemma GivenSnoc(session: seq<Call>, call: Call)
    ensures Given(session + [call]) == Given(session) + if call.AcceptCandidate? then [call.c] else []
  {
    assert (session + [call])[..|session|] == session;
  }

  lemma HandedSnoc(fates: seq<Fate>, f: Fate)
    ensures HandedOver(fates + [f]) == HandedOver(fates) + if f.Handed? then [f.c] else []
  {
    assert (fates + [f])[..|fates|] == fates;
  }

  lemma {:induction false} GivenCalls(session: seq<Call>, cs: seq<Candidate>)
    ensures Given(session + Calls(cs)) == Given(session) + cs
    decreases |cs|
  {
    if cs == [] {
      assert session + Calls(cs) == session;
    } else {
      var init := cs[..|cs| - 1];
      GivenCalls(session, init);
      hide Given;
      assert Calls(cs) == Calls(init) + [AcceptCandidate(cs[|cs| - 1])];
      assert session + Calls(cs) == (session + Calls(init)) + [AcceptCandidate(cs[|cs| - 1])];
      GivenSnoc(session + Calls(init), AcceptCandidate(cs[|cs| - 1]));
      assert cs == init + [cs[|cs| - 1]];
    }
  }

  lemma {:induction false} HandedAll(fates: seq<Fate>, cs: seq<Candidate>)
    ensures HandedOver(fates + AllHanded(cs)) == HandedOver(fates) + cs
    decreases |cs|
  {
    if cs == [] {
      assert fates + AllHanded(cs) == fates;
    } else {
      var init := cs[..|cs| - 1];
      HandedAll(fates, init);
      hide HandedOver;
      assert AllHanded(cs) == AllHanded(init) + [Handed(cs[|cs| - 1])];
      assert fates + AllHanded(cs) == (fates + AllHanded(init)) + [Handed(cs[|cs| - 1])];
      HandedSnoc(fates + AllHanded(init), Handed(cs[|cs| - 1]));
      assert cs == init + [cs[|cs| - 1]];
    }
  }

  lemma {:induction false} DiscardedAll(fates: seq<Fate>, cs: seq<Candidate>)
    ensures HandedOver(fates + AllDiscarded(cs)) == HandedOver(fates)
    decreases |cs|
  {
    if cs == [] {
      assert fates + AllDiscarded(cs) == fates;
    } else {
      var init := cs[..|cs| - 1];
      DiscardedAll(fates, init);
      hide HandedOver;
      assert AllDiscarded(cs) == AllDiscarded(init) + [Discarded(cs[|cs| - 1])];
      assert fates + AllDiscarded(cs) == (fates + AllDiscarded(init)) + [Discarded(cs[|cs| - 1])];
      HandedSnoc(fates + AllDiscarded(init), Discarded(cs[|cs| - 1]));
    }
  }

  predicate Described(session: seq<Call>) {
    exists i :: 0 <= i < |session| && session[i].AcceptSignal?
  }

  predicate CandidatesAfterDescription(session: seq<Call>) {
    forall j :: 0 <= j < |session| && session[j].AcceptCandidate? ==>
      exists i :: 0 <= i < j && session[i].AcceptSignal?
  }

  ghost predicate Ledger(g: Gate, arrived: seq<Candidate>) {
    && arrived == Candidates(g.fates) + g.pending
    && Given(g.session) == HandedOver(g.fates)
    && (g.remoteDescSet <==> Described(g.session))
    && (g.remoteDescSet ==> g.pending == [])
    && CandidatesAfterDescription(g.session)
  }

  /** Calls that are no descriptions, appended; candidates only when a description came before. */
  lemma MoreCalls(session: seq<Call>, more: seq<Call>)
    requires CandidatesAfterDescription(session)
    requires forall i :: 0 <= i < |more| ==> !more[i].AcceptSignal?
    requires Described(session) || forall i :: 0 <= i < |more| ==> !more[i].AcceptCandidate?
    ensures CandidatesAfterDescription(session + more)
    ensures Described(session + more) <==> Described(session)
  {
    var all := session + more;
    if Described(session) {
      var i :| 0 <= i < |session| && session[i].AcceptSignal?;
      assert all[i].AcceptSignal?;
    }
    forall j | 0 <= j < |all| && all[j].AcceptCandidate?
      ensures exists i :: 0 <= i < j && all[i].AcceptSignal?
    {
      if j < |session| {
        assert session[j].AcceptCandidate?;
        var i :| 0 <= i < j && session[i].AcceptSignal?;
        assert all[i].AcceptSignal?;
      } else {
        var i :| 0 <= i < |session| && session[i].AcceptSignal?;
        assert all[i].AcceptSignal?;
      }
    }
  }

  lemma DescribedNow(session: seq<Call>, sdp: string, kind: Kind)
    requires CandidatesAfterDescription(session)
    ensures CandidatesAfterDescription(session + [AcceptSignal(sdp, kind)])
    ensures Described(session + [AcceptSignal(sdp, kind)])
  {
    var all := session + [AcceptSignal(sdp, kind)];
    assert all[|session|].AcceptSignal?;
    forall j | 0 <= j < |all| && all[j].AcceptCandidate?
      ensures exists i :: 0 <= i < j && all[i].AcceptSignal?
    {
      assert session[j].AcceptCandidate?;
      var i :| 0 <= i < j && session[i].AcceptSignal?;
      assert all[i].AcceptSignal?;
    }
  }

  lemma FailKeeps(g: Gate, call: Call, arrived: seq<Candidate>)
    requires Ledger(g, arrived) && (call.Fail? || call.SignalThrew?)
    ensures Ledger(g.(session := g.session + [call]), arrived)
  {
    GivenSnoc(g.session, call);
    MoreCalls(g.session, [call]);
    // Hidden in the goal only, here and below: the steps before need the definitions.
    hide CandidatesAfterDescription, Described;
  }

  lemma DiscardKeeps(g: Gate, reason: string, arrived: seq<Candidate>)
    requires Ledger(g, arrived)
    ensures Ledger(Discard(g, reason), arrived)
  {
    FailKeeps(g, Fail(reason), arrived);
    DiscardedAll(g.fates, g.pending);
    hide CandidatesAfterDescription, Described, Given;
    assert Candidates(g.fates + AllDiscarded(g.pending)) + [] == Candidates(g.fates) + g.pending;
  }

  lemma AcceptKeeps(g: Gate, sdp: string, kind: Kind, arrived: seq<Candidate>)
    requires Ledger(g, arrived)
    ensures Ledger(Flush(g.(session := g.session + [AcceptSignal(sdp, kind)], remoteDescSet := true)), arrived)
  {
    hide CandidatesAfterDescription, Described, Given, HandedOver;
    AcceptCalls(g.session, sdp, kind, g.pending);
    HandedAll(g.fates, g.pending);
    CandidatesAll(g.fates, g.pending);
    hide Calls, AllHanded, Candidates;
  }

  lemma CandidatesAll(fates: seq<Fate>, cs: seq<Candidate>)
    ensures Candidates(fates + AllHanded(cs)) + [] == Candidates(fates) + cs
  {
  }

  lemma AcceptCalls(session: seq<Call>, sdp: string, kind: Kind, pending: seq<Candidate>)
    requires CandidatesAfterDescription(session)
    ensures var all := session + [AcceptSignal(sdp, kind)] + Calls(pending);
      CandidatesAfterDescription(all) && Described(all) && Given(all) == Given(session) + pending
  {
    DescribedNow(session, sdp, kind);
    GivenSnoc(session, AcceptSignal(sdp, kind));
    assert Given(session) + [] == Given(session);
    hide CandidatesAfterDescription, Described, Given;
    MoreCalls(session + [AcceptSignal(sdp, kind)], Calls(pending));
    GivenCalls(session + [AcceptSignal(sdp, kind)], pending);
  }

  lemma IceKeeps(g: Gate, c: Candidate, arrived: seq<Candidate>)
    requires Ledger(g, arrived) && c.candidate != ""
    ensures Ledger(OnIce(g, c), arrived + [c])
  {
    hide Given, HandedOver;
    if g.remoteDescSet {
      GivenSnoc(g.session, AcceptCandidate(c));
      HandedSnoc(g.fates, Handed(c));
      MoreCalls(g.session, [AcceptCandidate(c)]);
      hide CandidatesAfterDescription, Described;
      CandidatesSnoc(g.fates, Handed(c));
    } else {
      hide CandidatesAfterDescription, Described;
      assert Candidates(g.fates) + (g.pending + [c]) == Candidates(g.fates) + g.pending + [c];
    }
  }

  lemma CandidatesSnoc(fates: seq<Fate>, f: Fate)
    ensures Candidates(fates + [f]) + [] == Candidates(fates) + [] + [f.c]
  {
  }

  lemma LedgerKept(g: Gate, h: Gate, arrived: seq<Candidate>)
    requires Ledger(g, arrived)
    requires h == g.(inFlight := h.inFlight, started := h.started, subscribed := h.subscribed)
    ensures Ledger(h, arrived)
  {
  }

  lemma SignalKeeps(g: Gate, s: Signal, now: int, arrived: seq<Candidate>)
    requires Ledger(g, arrived)
    ensures Ledger(OnSignal(g, s, now),
                   arrived + if s.Ice? && s.candidate != "" then [Candidate(s.candidate, MidOf(s.mid))] else [])
  {
    assert arrived + [] == arrived;
    match s {
      case Unparsable => FailKeeps(g, Fail("schema_invalid"), arrived);
      case Description(env) =>
        var check := Checked(g.expected, env, now);
        if check.Rejected? {
          FailKeeps(g, Fail(check.reason), arrived);
        } else {
          LedgerKept(g, OnDescription(g, env, now), arrived);
        }
      case Ice(candidate, mid) =>
        if candidate != "" {
          IceKeeps(g, Candidate(candidate, MidOf(mid)), arrived);
        }
      case Unknown =>
    }
    hide Ledger, Checked;
  }

  lemma VerifiedKeeps(g: Gate, id: nat, ok: bool, arrived: seq<Candidate>)
    requires Ledger(g, arrived) && Possible(g, Verified(id, ok))
    ensures Ledger(OnVerified(g, id, ok), arrived)
  {
    var env := g.inFlight[id];
    var g1 := g.(inFlight := g.inFlight - {id});
    LedgerKept(g, g1, arrived);
    match Judged(g.expected, env) {
      case Hangs =>
      case Denied(reason) => DiscardKeeps(g1, reason, arrived);
      case Passed =>
        FailKeeps(g1, SignalThrew, arrived);
        AcceptKeeps(g1, env.sdp.value, env.kind, arrived);
    }
    hide Ledger, Judged, Flush, Discard;
  }

  lemma SubscribedKept(g: Gate, e: Event)
    requires Possible(g, e)
    ensures Next(g, e).subscribed == (g.subscribed && !e.Unsubscribes?)
    ensures Next(g, e).expected == g.expected
  {
    hide Checked, Judged;
  }

  lemma {:induction false} LedgerRun(expected: string, events: seq<Event>)
    requires Run(expected, events).Some?
    ensures var g := Run(expected, events).value;
      Ledger(g, Arrived(events)) && g.subscribed == Subscribed(events) && g.expected == expected
  {
    if events == [] {
    } else {
      var init, e := events[..|events| - 1], events[|events| - 1];
      LedgerRun(expected, init);
      var g := Run(expected, init).value;
      SubscribedKept(g, e);
      assert Subscribed(events) == (Subscribed(init) && !e.Unsubscribes?) by {
        assert events == init + [e];
      }
      assert Arrived(init) + [] == Arrived(init);
      match e {
        case Arrives(s, now) => SignalKeeps(g, s, now, Arrived(init));
        case Verified(id, ok) => VerifiedKeeps(g, id, ok, Arrived(init));
        case Unsubscribes => LedgerKept(g, g.(subscribed := false), Arrived(init));
      }
      hide Ledger, OnSignal, OnVerified, Subscribed;
    }
  }

  /** Any number of verifications, finishing in any order: the candidates that arrived are those
      handed over or discarded, in order of arrival, then those still pending; the session got
      exactly the handed ones, in that order, each after an accepted description. */
  lemma {:induction false} CandidatesAccounted(expected: string, events: seq<Event>)
    requires Run(expected, events).Some?
    ensures var g := Run(expected, events).value;
      && Arrived(events) == Candidates(g.fates) + g.pending
      && Given(g.session) == HandedOver(g.fates)
      && CandidatesAfterDescription(g.session)
      && (Described(g.session) ==> g.pending == [])
  {
    LedgerRun(expected, events);
  }

  predicate AllWereHanded(fates: seq<Fate>) {
    forall i :: 0 <= i < |fates| ==> fates[i].Handed?
  }

  /** Some verification of the run ended in a denial. */
  predicate DeniedAt(expected: string, events: seq<Event>, k: nat)
    requires k < |events|
  {
    && events[k].Verified? && Run(expected, events[..k]).Some?
    && Possible(Run(expected, events[..k]).value, events[k])
    && Judged(expected, Run(expected, events[..k]).value.inFlight[events[k].id]).Denied?
  }

  /** A denial that finds candidates pending. */
  predicate DiscardsAt(expected: string, events: seq<Event>, k: nat)
    requires k < |events|
  {
    DeniedAt(expected, events, k) && Run(expected, events[..k]).value.pending != []
  }

  lemma HandedStep(g: Gate, e: Event)
    requires Possible(g, e)
    ensures AllWereHanded(Next(g, e).fates)
       <==> AllWereHanded(g.fates)
            && !(e.Verified? && Judged(g.expected, g.inFlight[e.id]).Denied? && g.pending != [])
  {
    hide Checked, Judged;
    var d := Next(g, e);
    assert g.fates <= d.fates;
    if AllWereHanded(d.fates) {
      assert forall i :: 0 <= i < |g.fates| ==> g.fates[i] == d.fates[i];
    }
    if e.Verified? && Judged(g.expected, g.inFlight[e.id]).Denied? && g.pending != [] {
      assert d.fates[|g.fates|].Discarded?;
    }
  }

  predicate Lossless(expected: string, events: seq<Event>) {
    forall k: nat :: k < |events| ==> !DiscardsAt(expected, events, k)
  }

  lemma LosslessStep(expected: string, events: seq<Event>)
    requires events != []
    ensures Lossless(expected, events)
       <==> Lossless(expected, events[..|events| - 1]) && !DiscardsAt(expected, events, |events| - 1)
  {
    hide DiscardsAt;
    var init := events[..|events| - 1];
    forall k: nat | k < |init|
      ensures DiscardsAt(expected, init, k) == DiscardsAt(expected, events, k)
    {
      DiscardsInPrefix(expected, events, k);
    }
    if Lossless(expected, init) && !DiscardsAt(expected, events, |init|) {
      forall k: nat | k < |events|
        ensures !DiscardsAt(expected, events, k)
      {
        assert k < |init| ==> !DiscardsAt(expected, init, k);
      }
    }
    if Lossless(expected, events) {
      forall k: nat | k < |init|
        ensures !DiscardsAt(expected, init, k)
      {
        assert !DiscardsAt(expected, events, k);
      }
    }
  }

  lemma {:induction false} HandedIff(expected: string, events: seq<Event>)
    requires Run(expected, events).Some?
    ensures AllWereHanded(Run(expected, events).value.fates) <==> Lossless(expected, events)
  {
    if events == [] {
    } else {
      hide Next, Judged, Ledger, Subscribed, AllWereHanded, Arrived, DiscardsAt, Lossless;
      var init := events[..|events| - 1];
      HandedIff(expected, init);
      LedgerRun(expected, init);
      HandedStep(Run(expected, init).value, events[|events| - 1]);
      DiscardsLast(expected, events);
      LosslessStep(expected, events);
    }
  }

  lemma DiscardsLast(expected: string, events: seq<Event>)
    requires events != [] && Run(expected, events).Some?
    ensures var n, e := |events| - 1, events[|events| - 1];
      var g := Run(expected, events[..n]).value;
      DiscardsAt(expected, events, n)
      <==> e.Verified? && Judged(expected, g.inFlight[e.id]).Denied? && g.pending != []
  {
    hide Next, Judged;
  }

  lemma DiscardsInPrefix(expected: string, events: seq<Event>, k: nat)
    requires k < |events| - 1
    ensures DiscardsAt(expected, events[..|events| - 1], k) == DiscardsAt(expected, events, k)
  {
    hide Run, Judged;
    assert events[..|events| - 1][..k] == events[..k];
  }

  lemma {:induction false} HandedOverAll(fates: seq<Fate>)
    ensures |HandedOver(fates)| <= |fates|
    ensures HandedOver(fates) == Candidates(fates) <==> AllWereHanded(fates)
  {
    if fates == [] {
    } else {
      var n := |fates| - 1;
      HandedOverAll(fates[..n]);
      assert Candidates(fates) == Candidates(fates[..n]) + [fates[n].c];
      if HandedOver(fates) == Candidates(fates) {
        assert |HandedOver(fates)| == n + 1;
        assert HandedOver(fates)[..n] == HandedOver(fates[..n]);
        assert Candidates(fates)[..n] == Candidates(fates[..n]);
      }
      assert AllWereHanded(fates) <==> AllWereHanded(fates[..n]) && fates[n].Handed?;
    }
  }

  /** Exactly when candidates are lost: some verification is denied while candidates wait. Without
      that, the session has got every candidate as soon as one description was accepted. */
  lemma {:induction false} NoLossIff(expected: string, events: seq<Event>)
    requires Run(expected, events).Some?
    ensures var g := Run(expected, events).value;
      && (AllWereHanded(g.fates) <==> Lossless(expected, events))
      && (Given(g.session) + g.pending == Arrived(events) <==> Lossless(expected, events))
      && (Described(g.session) ==> (Given(g.session) == Arrived(events) <==> Lossless(expected, events)))
  {
    HandedIff(expected, events);
    CandidatesAccounted(expected, events);
    var g := Run(expected, events).value;
    HandedOverAll(g.fates);
    hide Run, Given, HandedOver, AllWereHanded, Arrived, Lossless, Candidates, CandidatesAfterDescription;
    SameEnd(Given(g.session), Candidates(g.fates), g.pending);
    assert Given(g.session) + [] == Given(g.session);
  }

  lemma SameEnd(a: seq<Candidate>, b: seq<Candidate>, end: seq<Candidate>)
    ensures a + end == b + end <==> a == b
  {
    if a + end == b + end {
      assert |a| == |b|;
      assert a == (a + end)[..|a|];
    }
  }

  /** A denial discards what waits for the other verifications too: with one genuine and one
      forged description under way, the order in which they finish decides whether the session
      gets the pending candidates. */
  lemma {:induction false} FinishOrderDecides(g: Gate, forged: nat, genuine: nat)
    requires forged in g.inFlight && genuine in g.inFlight && forged != genuine
    requires Complete(g.inFlight[forged]) && Complete(g.inFlight[genuine])
    ensures Judged(g.expected, g.inFlight[forged]).Denied? && Judged(g.expected, g.inFlight[genuine]).Passed? ==>
              && Given(OnVerified(OnVerified(g, forged, true), genuine, true).session) == Given(g.session)
              && Given(OnVerified(OnVerified(g, genuine, true), forged, true).session) == Given(g.session) + g.pending
  {
    hide Judged, Given;
    if !Judged(g.expected, g.inFlight[forged]).Denied? {
      return;
    }
    var env, reason := g.inFlight[genuine], Judged(g.expected, g.inFlight[forged]).reason;
    var accept := AcceptSignal(env.sdp.value, env.kind);
    GivenSnoc(g.session, Fail(reason));
    GivenSnoc(g.session + [Fail(reason)], accept);
    assert Calls([]) == [] && forall s: seq<Call> :: s + [] == s;
    GivenSnoc(g.session, accept);
    GivenCalls(g.session + [accept], g.pending);
    GivenSnoc(g.session + [accept] + Calls(g.pending), Fail(reason));
  }

  // ── Descriptions: only what the expected peer signed ─────────────────────

  /** Signed with the key of the expected id, over the fingerprint that the SDP itself carries,
      which the envelope repeats in lower-case digits, and fresh on arrival. */
  ghost predicate Genuine(expected: string, env: Envelope, now: int) {
    && Complete(env) && env.peerId == Some(expected)
    && now - 300 <= env.timestamp.value <= now + 300
    && PeerId.DecodePeerIdSpec(expected).Ok?
    && H.Extract(env.sdp.value).Ok?
    && var key, fp := PeerId.DecodePeerIdSpec(expected).value, H.Extract(env.sdp.value).value;
       F.Payload(fp, key, env.timestamp.value, env.nonce.value).Ok?
       && env.signature.value == F.Signed(key, F.Payload(fp, key, env.timestamp.value, env.nonce.value).value)
       && env.fingerprint.value == H.ToHex(fp, H.LOWER)
  }

  lemma VerifiesOnly(fp: seq<byte>, key: seq<byte>, timestamp: int, nonce: seq<byte>, signature: F.Signature)
    ensures F.VerifyFingerprint(fp, key, timestamp, nonce, signature, key) == Ok(true)
       <==> F.Payload(fp, key, timestamp, nonce).Ok?
            && signature == F.Signed(key, F.Payload(fp, key, timestamp, nonce).value)
  {
  }

  lemma JudgedIs(expected: string, env: Envelope)
    requires Complete(env)
    ensures Judged(expected, env).Passed?
       <==> PeerId.DecodePeerIdSpec(expected).Ok? && H.Extract(env.sdp.value).Ok?
            && env.fingerprint.value == H.ToHex(H.Extract(env.sdp.value).value, H.LOWER)
            && var key := PeerId.DecodePeerIdSpec(expected).value;
               F.VerifyFingerprint(H.FromHex(env.fingerprint.value), key, env.timestamp.value, env.nonce.value,
                                   env.signature.value, key) == Ok(true)
  {
    hide H.FromHex, H.ToHex, H.Extract, F.VerifyFingerprint, PeerId.DecodePeerIdSpec;
  }

  /** An envelope passes all checks exactly when it is genuine. */
  lemma {:induction false} PassesIff(expected: string, env: Envelope, now: int)
    ensures Checked(expected, env, now).Starts? && Judged(expected, env).Passed? <==> Genuine(expected, env, now)
  {
    hide H.FromHex, H.ToHex, H.Extract, F.Payload, F.VerifyFingerprint, PeerId.DecodePeerIdSpec, Judged;
    if Complete(env) {
      JudgedIs(expected, env);
      if H.Extract(env.sdp.value).Ok? && PeerId.DecodePeerIdSpec(expected).Ok? {
        var fp := H.Extract(env.sdp.value).value;
        H.FromToHex(fp);
        VerifiesOnly(fp, PeerId.DecodePeerIdSpec(expected).value, env.timestamp.value, env.nonce.value, env.signature.value);
      }
    }
  }

  ghost predicate Heard(expected: string, events: seq<Event>, env: Envelope) {
    exists k :: 0 <= k < |events| && events[k].Arrives? && events[k].signal == Description(env)
                && Checked(expected, env, events[k].now).Starts?
  }

  ghost predicate HeardGenuine(expected: string, events: seq<Event>, sdp: string, kind: Kind) {
    exists k :: 0 <= k < |events| && events[k].Arrives? && events[k].signal.Description?
                && events[k].signal.env.sdp == Some(sdp) && events[k].signal.env.kind == kind
                && Genuine(expected, events[k].signal.env, events[k].now)
  }

  ghost predicate SignedInv(expected: string, events: seq<Event>, inFlight: map<nat, Envelope>, session: seq<Call>) {
    && (forall id :: id in inFlight ==> Heard(expected, events, inFlight[id]))
    && (forall i :: 0 <= i < |session| && session[i].AcceptSignal? ==>
          HeardGenuine(expected, events, session[i].sdp, session[i].kind))
  }

  lemma HeardLast(expected: string, events: seq<Event>, e: Event)
    ensures forall env :: Heard(expected, events, env) ==> Heard(expected, events + [e], env)
    ensures forall sdp, kind :: HeardGenuine(expected, events, sdp, kind) ==> HeardGenuine(expected, events + [e], sdp, kind)
    ensures e.Arrives? && e.signal.Description? && Checked(expected, e.signal.env, e.now).Starts? ==>
              Heard(expected, events + [e], e.signal.env)
  {
    hide Genuine, Checked;
    var all := events + [e];
    assert all[|events|] == e;
    assert forall k :: 0 <= k < |events| ==> all[k] == events[k];
  }

  lemma HeardPassed(expected: string, events: seq<Event>, env: Envelope)
    requires Heard(expected, events, env) && Complete(env) && Judged(expected, env).Passed?
    ensures HeardGenuine(expected, events, env.sdp.value, env.kind)
  {
    var k :| 0 <= k < |events| && events[k].Arrives? && events[k].signal == Description(env)
             && Checked(expected, env, events[k].now).Starts?;
    PassesIff(expected, env, events[k].now);
    hide Genuine, Checked, Judged;
  }

  lemma SignedStep(events: seq<Event>, g: Gate, e: Event)
    requires SignedInv(g.expected, events, g.inFlight, g.session) && Possible(g, e)
    ensures var h := Next(g, e); SignedInv(g.expected, events + [e], h.inFlight, h.session)
  {
    HeardLast(g.expected, events, e);
    hide Heard, HeardGenuine, Checked, Judged;
    match e {
      case Arrives(s, now) => DuringSignal(g, s, now);
      case Verified(id, ok) => SignedVerified(events, g, id, ok);
      case Unsubscribes =>
    }
    hide OnSignal, OnVerified;
  }

  lemma DuringSignal(g: Gate, s: Signal, now: int)
    ensures var h := OnSignal(g, s, now);
      && g.session <= h.session && (forall i :: |g.session| <= i < |h.session| ==> !h.session[i].AcceptSignal?)
      && (forall id :: id in h.inFlight ==>
            (id in g.inFlight && h.inFlight[id] == g.inFlight[id])
            || (s.Description? && h.inFlight[id] == s.env && Checked(g.expected, s.env, now).Starts?))
  {
    hide Checked;
  }

  lemma SignedVerified(events: seq<Event>, g: Gate, id: nat, ok: bool)
    requires SignedInv(g.expected, events, g.inFlight, g.session) && Possible(g, Verified(id, ok))
    ensures var h := OnVerified(g, id, ok); SignedInv(g.expected, events, h.inFlight, h.session)
  {
    if Judged(g.expected, g.inFlight[id]).Passed? {
      HeardPassed(g.expected, events, g.inFlight[id]);
    }
    DuringVerified(g, id, ok);
    hide Heard, HeardGenuine, Judged, OnVerified;
  }

  lemma DuringVerified(g: Gate, id: nat, ok: bool)
    requires Possible(g, Verified(id, ok))
    ensures var h, env := OnVerified(g, id, ok), g.inFlight[id];
      && g.session <= h.session && h.inFlight == g.inFlight - {id}
      && (forall i :: |g.session| <= i < |h.session| && h.session[i].AcceptSignal? ==>
            Judged(g.expected, env).Passed? && h.session[i] == AcceptSignal(env.sdp.value, env.kind))
  {
    hide Judged;
  }

  lemma {:induction false} SignedRun(expected: string, events: seq<Event>)
    requires Run(expected, events).Some?
    ensures var g := Run(expected, events).value; SignedInv(expected, events, g.inFlight, g.session)
  {
    if events == [] {
    } else {
      var init, e := events[..|events| - 1], events[|events| - 1];
      assert events == init + [e];
      SignedRun(expected, init);
      LedgerRun(expected, init);
      SignedStep(init, Run(expected, init).value, e);
      hide SignedInv, Next, Ledger, Subscribed;
    }
  }

  /** Every description that the session accepts is the SDP of an envelope that arrived fresh and
      whose signature, under the expected peer's key, covers the fingerprint in that very SDP. */
  lemma {:induction false} AcceptedIsSigned(expected: string, events: seq<Event>, i: nat)
    requires Run(expected, events).Some?
    requires i < |Run(expected, events).value.session| && Run(expected, events).value.session[i].AcceptSignal?
    ensures var call := Run(expected, events).value.session[i];
      HeardGenuine(expected, events, call.sdp, call.kind)
  {
    SignedRun(expected, events);
  }

  // ── Failures: what the session is told, by the fields alone ──────────────

  /** The reason of the first check that fails. */
  function FirstFault(checks: seq<(bool, string)>): Option<string> {
    if checks == [] then None
    else if !checks[0].0 then Some(checks[0].1)
    else FirstFault(checks[1..])
  }

  /** The checks on arrival, in their order. */
  ghost function ArrivalChecks(expected: string, env: Envelope, now: int): seq<(bool, string)> {
    [(env.sdp.Some? && env.fingerprint.Some? && env.signature.Some? && env.peerId.Some? && env.timestamp.Some? && env.nonce.Some?,
      "schema_invalid"),
     (env.peerId == Some(expected), "peer_id_mismatch"),
     (env.timestamp.Some? && now - 300 <= env.timestamp.value <= now + 300, "timestamp_invalid"),
     (env.fingerprint.Some? && |H.FromHex(env.fingerprint.value)| == 32, "schema_invalid")]
  }

  /** The checks when the verification ends, for the key of the expected id. */
  ghost function FinalChecks(key: seq<byte>, env: Envelope): seq<(bool, string)>
    requires Complete(env)
  {
    var payload := F.Payload(H.FromHex(env.fingerprint.value), key, env.timestamp.value, env.nonce.value);
    var fp := H.Extract(env.sdp.value);
    [(payload.Ok? && env.signature.value == F.Signed(key, payload.value), "signature_invalid"),
     (fp.Ok?, "schema_invalid"),
     (fp.Ok? && env.fingerprint.value == H.ToHex(fp.value, H.LOWER), "sdp_fingerprint_mismatch")]
  }

  /** The verification cannot be carried out: nobody hears of it. */
  ghost predicate Unverifiable(key: seq<byte>, env: Envelope)
    requires Complete(env)
  {
    |env.nonce.value| != 16 || env.signature.value.Malformed?
  }

  lemma FourChecks(a: (bool, string), b: (bool, string), c: (bool, string), d: (bool, string))
    ensures FirstFault([a, b, c, d])
         == if !a.0 then Some(a.1) else if !b.0 then Some(b.1) else if !c.0 then Some(c.1) else if !d.0 then Some(d.1) else None
  {
    assert [a, b, c, d][1..] == [b, c, d];
    ThreeChecks(b, c, d);
  }

  lemma ThreeChecks(a: (bool, string), b: (bool, string), c: (bool, string))
    ensures FirstFault([a, b, c]) == if !a.0 then Some(a.1) else if !b.0 then Some(b.1) else if !c.0 then Some(c.1) else None
  {
    assert [a, b, c][1..] == [b, c] && [b, c][1..] == [c] && [c][1..] == [];
    assert FirstFault([c]) == if !c.0 then Some(c.1) else None;
    assert FirstFault([b, c]) == if !b.0 then Some(b.1) else FirstFault([c]);
  }

  lemma CheckedIs(expected: string, env: Envelope, now: int)
    ensures var fault := FirstFault(ArrivalChecks(expected, env, now));
      Checked(expected, env, now)
      == if fault.Some? then Rejected(fault.value)
         else if PeerId.DecodePeerIdSpec(expected).Err? then Throws else Starts
  {
    hide H.FromHex, PeerId.DecodePeerIdSpec;
    var checks := ArrivalChecks(expected, env, now);
    FourChecks(checks[0], checks[1], checks[2], checks[3]);
    assert checks == [checks[0], checks[1], checks[2], checks[3]];
    hide FirstFault;
  }

  lemma JudgedFault(expected: string, env: Envelope)
    requires Complete(env) && PeerId.DecodePeerIdSpec(expected).Ok? && |H.FromHex(env.fingerprint.value)| == 32
    ensures var key := PeerId.DecodePeerIdSpec(expected).value;
      var fault := FirstFault(FinalChecks(key, env));
      Judged(expected, env)
      == if Unverifiable(key, env) then Hangs else if fault.Some? then Denied(fault.value) else Passed
  {
    PeerId.DecodedKey(expected);
    hide H.FromHex, H.ToHex, H.Extract, PeerId.DecodePeerIdSpec, F.BigEndian;
    var key := PeerId.DecodePeerIdSpec(expected).value;
    var checks := FinalChecks(key, env);
    ThreeChecks(checks[0], checks[1], checks[2]);
    assert checks == [checks[0], checks[1], checks[2]];
    hide FirstFault;
  }

  /** The descriptions whose verification started, in order of arrival. */
  ghost function Started(expected: string, events: seq<Event>): seq<Envelope> {
    if events == [] then []
    else
      var init, e := events[..|events| - 1], events[|events| - 1];
      Started(expected, init)
      + if Subscribed(init) && e.Arrives? && e.signal.Description? && PeerId.DecodePeerIdSpec(expected).Ok?
           && FirstFault(ArrivalChecks(expected, e.signal.env, e.now)).None?
        then [e.signal.env] else []
  }

  /** What one event tells the session, besides candidates; `started` are the verifications so far. */
  ghost function Tells(expected: string, subscribed: bool, started: seq<Envelope>, e: Event): seq<Call> {
    match e
    case Arrives(Unparsable, _) => if subscribed then [Fail("schema_invalid")] else []
    case Arrives(Description(env), now) =>
      var fault := FirstFault(ArrivalChecks(expected, env, now));
      if subscribed && fault.Some? then [Fail(fault.value)] else []
    case Verified(id, ok) =>
      if id >= |started| || !Complete(started[id]) || PeerId.DecodePeerIdSpec(expected).Err? then []
      else
        var env, key := started[id], PeerId.DecodePeerIdSpec(expected).value;
        var fault := FirstFault(FinalChecks(key, env));
        if Unverifiable(key, env) then []
        else if fault.Some? then [Fail(fault.value)]
        else if ok then [AcceptSignal(env.sdp.value, env.kind)] else [SignalThrew]
    case _ => []
  }

  ghost function Told(expected: string, events: seq<Event>): seq<Call> {
    if events == [] then []
    else
      var init, e := events[..|events| - 1], events[|events| - 1];
      Told(expected, init) + Tells(expected, Subscribed(init), Started(expected, init), e)
  }

  /** The calls that hand over no candidate. */
  function Verdicts(session: seq<Call>): seq<Call> {
    if session == [] then []
    else
      var last := session[|session| - 1];
      Verdicts(session[..|session| - 1]) + if last.AcceptCandidate? then [] else [last]
  }

  lemma VerdictsSnoc(session: seq<Call>, call: Call)
    ensures Verdicts(session + [call]) == Verdicts(session) + if call.AcceptCandidate? then [] else [call]
  {
    assert (session + [call])[..|session|] == session;
  }

  lemma {:induction false} VerdictsCalls(session: seq<Call>, cs: seq<Candidate>)
    ensures Verdicts(session + Calls(cs)) == Verdicts(session)
    decreases |cs|
  {
    if cs == [] {
      assert session + Calls(cs) == session;
    } else {
      var init := cs[..|cs| - 1];
      VerdictsCalls(session, init);
      hide Verdicts;
      assert Calls(cs) == Calls(init) + [AcceptCandidate(cs[|cs| - 1])];
      assert session + Calls(cs) == (session + Calls(init)) + [AcceptCandidate(cs[|cs| - 1])];
      VerdictsSnoc(session + Calls(init), AcceptCandidate(cs[|cs| - 1]));
    }
  }

  ghost predicate FlightInv(g: Gate, started: seq<Envelope>) {
    && g.started == |started|
    && (forall id :: id in g.inFlight ==> id < |started| && g.inFlight[id] == started[id])
    && (forall id :: 0 <= id < |started| ==>
          Complete(started[id]) && PeerId.DecodePeerIdSpec(g.expected).Ok? && |H.FromHex(started[id].fingerprint.value)| == 32)
  }

  lemma DescriptionTells(g: Gate, env: Envelope, now: int, started: seq<Envelope>)
    requires FlightInv(g, started)
    ensures var h, fault := OnDescription(g, env, now), FirstFault(ArrivalChecks(g.expected, env, now));
      && Verdicts(h.session) == Verdicts(g.session) + (if fault.Some? then [Fail(fault.value)] else [])
      && FlightInv(h, started + if PeerId.DecodePeerIdSpec(g.expected).Ok? && fault.None? then [env] else [])
  {
    hide Checked, ArrivalChecks, FirstFault, Verdicts, H.FromHex, PeerId.DecodePeerIdSpec, FlightInv;
    CheckedIs(g.expected, env, now);
    var fault := FirstFault(ArrivalChecks(g.expected, env, now));
    assert started + [] == started && Verdicts(g.session) + [] == Verdicts(g.session);
    if fault.Some? {
      VerdictsSnoc(g.session, Fail(fault.value));
      FlightTold(g, g.session + [Fail(fault.value)], started);
    } else {
      PassesArrival(g.expected, env, now);
      if PeerId.DecodePeerIdSpec(g.expected).Ok? {
        FlightStarts(g, env, started);
      }
    }
  }

  lemma FlightTold(g: Gate, session: seq<Call>, started: seq<Envelope>)
    requires FlightInv(g, started)
    ensures FlightInv(g.(session := session), started)
  {
  }

  lemma FlightStarts(g: Gate, env: Envelope, started: seq<Envelope>)
    requires FlightInv(g, started) && Complete(env) && |H.FromHex(env.fingerprint.value)| == 32
    requires PeerId.DecodePeerIdSpec(g.expected).Ok?
    ensures FlightInv(g.(inFlight := g.inFlight[g.started := env], started := g.started + 1), started + [env])
  {
    hide H.FromHex, PeerId.DecodePeerIdSpec;
  }

  lemma ArrivalTells(g: Gate, s: Signal, now: int, started: seq<Envelope>)
    requires FlightInv(g, started)
    ensures var h := OnSignal(g, s, now);
      && Verdicts(h.session) == Verdicts(g.session) + Tells(g.expected, true, started, Arrives(s, now))
      && FlightInv(h, started + if s.Description? && PeerId.DecodePeerIdSpec(g.expected).Ok?
                                   && FirstFault(ArrivalChecks(g.expected, s.env, now)).None? then [s.env] else [])
  {
    hide Checked, ArrivalChecks, FirstFault, Verdicts, H.FromHex, PeerId.DecodePeerIdSpec;
    assert started + [] == started && Verdicts(g.session) + [] == Verdicts(g.session);
    match s {
      case Description(env) =>
        DescriptionTells(g, env, now, started);
        hide OnDescription, FlightInv;
      case Unparsable => VerdictsSnoc(g.session, Fail("schema_invalid"));
      case Ice(candidate, mid) => VerdictsSnoc(g.session, AcceptCandidate(Candidate(candidate, MidOf(mid))));
      case Unknown =>
    }
  }

  lemma PassesArrival(expected: string, env: Envelope, now: int)
    requires FirstFault(ArrivalChecks(expected, env, now)).None?
    ensures Complete(env) && |H.FromHex(env.fingerprint.value)| == 32
  {
    hide H.FromHex;
    var checks := ArrivalChecks(expected, env, now);
    FourChecks(checks[0], checks[1], checks[2], checks[3]);
    assert checks == [checks[0], checks[1], checks[2], checks[3]];
  }

  lemma VerdictTells(g: Gate, id: nat, ok: bool, started: seq<Envelope>)
    requires FlightInv(g, started) && Possible(g, Verified(id, ok))
    ensures var h := OnVerified(g, id, ok);
      && Verdicts(h.session) == Verdicts(g.session) + Tells(g.expected, true, started, Verified(id, ok))
      && FlightInv(h, started)
  {
    hide FinalChecks, FirstFault, Unverifiable, Verdicts, OnVerified, Judged, H.FromHex, PeerId.DecodePeerIdSpec;
    JudgedFault(g.expected, g.inFlight[id]);
    VerdictSays(g, id, ok);
    FlightAfter(g, id, ok, started);
  }

  lemma VerdictSays(g: Gate, id: nat, ok: bool)
    requires Possible(g, Verified(id, ok))
    ensures var env := g.inFlight[id];
      Verdicts(OnVerified(g, id, ok).session) == Verdicts(g.session) +
        match Judged(g.expected, env)
        case Hangs => []
        case Denied(reason) => [Fail(reason)]
        case Passed => if ok then [AcceptSignal(env.sdp.value, env.kind)] else [SignalThrew]
  {
    hide Judged, Verdicts;
    var env := g.inFlight[id];
    match Judged(g.expected, env) {
      case Hangs => assert Verdicts(g.session) + [] == Verdicts(g.session);
      case Denied(reason) => VerdictsSnoc(g.session, Fail(reason));
      case Passed =>
        VerdictsSnoc(g.session, SignalThrew);
        var accept := AcceptSignal(env.sdp.value, env.kind);
        VerdictsSnoc(g.session, accept);
        VerdictsCalls(g.session + [accept], g.pending);
    }
  }

  lemma FlightAfter(g: Gate, id: nat, ok: bool, started: seq<Envelope>)
    requires FlightInv(g, started) && Possible(g, Verified(id, ok))
    ensures FlightInv(OnVerified(g, id, ok), started)
  {
    DuringVerified(g, id, ok);
    VerifiedCounts(g, id, ok);
    hide OnVerified, Judged, H.FromHex, PeerId.DecodePeerIdSpec;
  }

  lemma VerifiedCounts(g: Gate, id: nat, ok: bool)
    requires Possible(g, Verified(id, ok))
    ensures OnVerified(g, id, ok).started == g.started && OnVerified(g, id, ok).expected == g.expected
  {
    hide Judged;
  }

  lemma {:induction false} ToldRun(expected: string, events: seq<Event>)
    requires Run(expected, events).Some?
    ensures var g := Run(expected, events).value;
      Verdicts(g.session) == Told(expected, events) && FlightInv(g, Started(expected, events))
  {
    if events == [] {
    } else {
      var init, e := events[..|events| - 1], events[|events| - 1];
      ToldRun(expected, init);
      LedgerRun(expected, init);
      var g, started := Run(expected, init).value, Started(expected, init);
      hide Ledger, Arrived, OnSignal, OnVerified, FlightInv, Verdicts, Subscribed, FirstFault, ArrivalChecks, FinalChecks;
      hide PeerId.DecodePeerIdSpec;
      assert Told(expected, init) + [] == Told(expected, init) && started + [] == started;
      match e {
        case Arrives(s, now) => ArrivalTells(g, s, now, started);
        case Verified(id, ok) => VerdictTells(g, id, ok, started);
        case Unsubscribes => FlightKept(g, started);
      }
    }
  }

  lemma FlightKept(g: Gate, started: seq<Envelope>)
    requires FlightInv(g, started)
    ensures FlightInv(g.(subscribed := false), started)
  {
  }

  /** In every run, besides candidates the session is told exactly this, in the order of the events:
      a failure for each unparsable signal and each description that fails a check on arrival, and
      for each verification that ends its acceptance or its failure, always with the reason of the
      first check that fails. */
  lemma {:induction false} SessionIsTold(expected: string, events: seq<Event>)
    requires Run(expected, events).Some?
    ensures Verdicts(Run(expected, events).value.session) == Told(expected, events)
  {
    ToldRun(expected, events);
  }

  // ── The sending side ─────────────────────────────────────────────────────

  /** The envelope for a local description; on any error nothing is sent. The secret key is named
      by its public key. */
  function SignedEnvelope(kind: Kind, sdp: string, localPeerId: string, timestamp: int, nonce: seq<byte>, publicKey: seq<byte>)
    : Option<Envelope>
  {
    match H.Extract(sdp)
    case Err(_) => None
    case Ok(fp) =>
      match PeerId.DecodePeerIdSpec(localPeerId)
      case Err(_) => None
      case Ok(key) =>
        match F.SignFingerprint(fp, key, timestamp, nonce, publicKey)
        case Err(_) => None
        case Ok(signature) =>
          Some(Envelope(kind, Some(sdp), Some(H.ToHex(fp, H.LOWER)), Some(signature), Some(localPeerId), Some(timestamp), Some(nonce)))
  }

  /** End to end: what one relay sends, the other accepts exactly when it expects that id, the key
      pair is the id's own, and it arrives within the window. */
  lemma {:induction false} HonestPassesIff(expected: string, kind: Kind, sdp: string, localPeerId: string, timestamp: int,
                        nonce: seq<byte>, publicKey: seq<byte>, now: int)
    ensures match SignedEnvelope(kind, sdp, localPeerId, timestamp, nonce, publicKey)
      case None => H.Extract(sdp).Err? || PeerId.DecodePeerIdSpec(localPeerId).Err? || |nonce| != 16
      case Some(env) =>
        Checked(expected, env, now).Starts? && Judged(expected, env).Passed?
        <==> expected == localPeerId && PeerId.DecodePeerIdSpec(localPeerId) == Ok(publicKey)
             && now - 300 <= timestamp <= now + 300
  {
    var envelope := SignedEnvelope(kind, sdp, localPeerId, timestamp, nonce, publicKey);
    if envelope.None? {
      if H.Extract(sdp).Ok? && PeerId.DecodePeerIdSpec(localPeerId).Ok? {
        PeerId.DecodedKey(localPeerId);
      }
      hide H.Extract, PeerId.DecodePeerIdSpec;
      return;
    }
    PassesIff(expected, envelope.value, now);
    hide H.ToHex, H.Extract, PeerId.DecodePeerIdSpec, Checked, Judged, F.Payload;
  }

  // ── Losing a candidate, from the start ───────────────────────────────────

  lemma RunSnoc(expected: string, events: seq<Event>, e: Event)
    requires Run(expected, events).Some? && Possible(Run(expected, events).value, e)
    ensures Run(expected, events + [e]) == Some(Next(Run(expected, events).value, e))
  {
    assert (events + [e])[..|events|] == events;
  }

  const LATE := Candidate("candidate", "0")

  /** A forged and a genuine description arrive, then a candidate. */
  function BothArrive(forged: Envelope, genuine: Envelope, now: int): seq<Event> {
    [] + [Arrives(Description(forged), now)] + [Arrives(Description(genuine), now)]
    + [Arrives(Ice("candidate", None), now)]
  }

  function BothUnderWay(expected: string, forged: Envelope, genuine: Envelope): Gate {
    Gate(expected, true, false, [LATE], map[0 := forged, 1 := genuine], 2, [], [])
  }

  lemma BothStart(expected: string, forged: Envelope, genuine: Envelope, now: int)
    requires Checked(expected, forged, now).Starts? && Checked(expected, genuine, now).Starts?
    ensures Run(expected, BothArrive(forged, genuine, now)) == Some(BothUnderWay(expected, forged, genuine))
  {
    hide Checked;
    var first, second := Arrives(Description(forged), now), Arrives(Description(genuine), now);
    var g := Initial(expected);
    var g1 := g.(inFlight := map[0 := forged], started := 1);
    var g2 := g.(inFlight := map[0 := forged, 1 := genuine], started := 2);
    assert Run(expected, []) == Some(g);
    assert map[0 := forged][1 := genuine] == map[0 := forged, 1 := genuine];
    assert Next(g, first) == g1 && Next(g1, second) == g2;
    assert [] + [LATE] == [LATE];
    assert Next(g2, Arrives(Ice("candidate", None), now)) == BothUnderWay(expected, forged, genuine);
    hide Next, Run, Initial;
    RunSnoc(expected, [], first);
    RunSnoc(expected, [] + [first], second);
    RunSnoc(expected, [] + [first] + [second], Arrives(Ice("candidate", None), now));
  }

  lemma BothFinish(expected: string, forged: Envelope, genuine: Envelope, now: int)
    requires Checked(expected, forged, now).Starts? && Checked(expected, genuine, now).Starts?
    requires Complete(forged) && Complete(genuine)
    requires Judged(expected, forged).Denied? && Judged(expected, genuine).Passed?
    ensures var before := BothArrive(forged, genuine, now);
      var lost := Run(expected, before + [Verified(0, true)] + [Verified(1, true)]);
      var kept := Run(expected, before + [Verified(1, true)] + [Verified(0, true)]);
      lost.Some? && Given(lost.value.session) == [] && kept.Some? && Given(kept.value.session) == [LATE]
  {
    var before := BothArrive(forged, genuine, now);
    var g := BothUnderWay(expected, forged, genuine);
    BothStart(expected, forged, genuine, now);
    FinishOrderDecides(g, 0, 1);
    assert Given([]) == [];
    hide Checked, Judged, Run, Given, BothArrive;
    RunSnoc(expected, before, Verified(0, true));
    RunSnoc(expected, before + [Verified(0, true)], Verified(1, true));
    RunSnoc(expected, before, Verified(1, true));
    RunSnoc(expected, before + [Verified(1, true)], Verified(0, true));
  }

  /** For every key and fingerprint both orders occur in runs from the start: forging needs no more
      than the genuine envelope with another signature. */
  lemma LossIsReachable(key: seq<byte>, fp: seq<byte>, nonce: seq<byte>, now: int)
    requires |key| == 32 && |fp| == 32 && |nonce| == 16
    ensures PeerId.EncodePeerIdSpec(key).Ok?
    ensures var expected := PeerId.EncodePeerIdSpec(key).value;
      exists forged, genuine ::
        var before := BothArrive(forged, genuine, now);
        var lost := Run(expected, before + [Verified(0, true)] + [Verified(1, true)]);
        var kept := Run(expected, before + [Verified(1, true)] + [Verified(0, true)]);
        lost.Some? && Given(lost.value.session) == [] && kept.Some? && Given(kept.value.session) == [LATE]
  {
    PeerId.RoundTrip(key);
    var expected := PeerId.EncodePeerIdSpec(key).value;
    H.RoundTrip([], fp, H.LOWER, []);
    var sdp := JoinLines([] + [H.FingerprintLine(fp, H.LOWER)] + []);
    hide JoinLines, H.FingerprintLine, H.ToHex, H.Extract, PeerId.EncodePeerIdSpec, PeerId.DecodePeerIdSpec;
    HonestPassesIff(expected, OfferKind, sdp, expected, now, nonce, key, now);
    var genuine := SignedEnvelope(OfferKind, sdp, expected, now, nonce, key).value;
    var forged := genuine.(signature := Some(F.Forged(0)));
    ForgedDenied(expected, genuine, forged, now);
    BothFinish(expected, forged, genuine, now);
  }

  lemma ForgedDenied(expected: string, genuine: Envelope, forged: Envelope, now: int)
    requires Checked(expected, genuine, now).Starts? && Judged(expected, genuine).Passed?
    requires forged == genuine.(signature := Some(F.Forged(0)))
    ensures Checked(expected, forged, now).Starts? && Judged(expected, forged).Denied?
  {
    hide H.FromHex, H.ToHex, H.Extract, PeerId.DecodePeerIdSpec, F.Payload;
    var key := PeerId.DecodePeerIdSpec(expected).value;
    var fp := H.FromHex(genuine.fingerprint.value);
    assert F.Payload(fp, key, genuine.timestamp.value, genuine.nonce.value).Ok? && |key| == 32;
    assert F.VerifyFingerprint(fp, key, genuine.timestamp.value, genuine.nonce.value, F.Forged(0), key) == Ok(false);
  }
}
