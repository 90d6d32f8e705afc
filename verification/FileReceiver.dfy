/** The receiving side of a file transfer: offer decision, chunk sequence, digest check, rename. */
module FileReceiver {
  import opened Prelude
  import opened FileMessages

  const SIZE_LIMIT: int := 500 * 1024 * 1024

  datatype Phase = Idle | AwaitingDecision | Receiving | Verifying | Done | Failed

  /** What `#handleFileDone` waits for: the end of the write stream, or the rename. */
  datatype Stage = NoStage | Ending | Renaming

  datatype Decision = Accepts(savePath: string) | Refuses(reason: string) | Throws

  /** `part` and `final` are the contents of the `.part` file and of the file at the save path;
      `taken` are the chunks written so far. */
  datatype Transfer = Transfer(
    hasCallback: bool,
    state: Phase,
    undecided: Option<Control>,
    currentFileId: Option<string>,
    expectedSha256: Option<Digest>,
    expectedSize: int,
    savePath: string,
    expectedSeq: nat,
    bytesReceived: nat,
    hash: Option<seq<byte>>,
    streamOpen: bool,
    stage: Stage,
    unlinking: bool,
    part: Option<seq<byte>>,
    final: Option<seq<byte>>,
    taken: seq<Chunk>,
    control: seq<Control>,
    failReason: Option<string>)

  function Initial(hasCallback: bool): Transfer {
    Transfer(hasCallback, Idle, None, None, None, 0, "", 0, 0, None, false, NoStage, false, None, None, [], [], None)
  }

  /** `ok`: whether a control message that the step sends goes out. */
  datatype Event =
    | OfferArrives(offer: Control, ok: bool)
    | Decided(decision: Decision, ok: bool)
    | ChunkArrives(chunk: Chunk, ok: bool)
    | DoneArrives(fileId: string)
    | AbortArrives(fileId: string, reason: string)
    | StreamEnds(ok: bool)
    | StreamFails
    | RenameRuns
    | UnlinkRuns

  // ── Steps ────────────────────────────────────────────────────────────────

  predicate Possible(r: Transfer, e: Event) {
    match e
    case OfferArrives(offer, _) => offer.Offer?
    case Decided(_, _) => r.undecided.Some?
    case StreamEnds(_) => r.stage.Ending?
    case StreamFails => r.stage.Ending?
    case RenameRuns => r.stage.Renaming?
    case UnlinkRuns => r.unlinking
    case _ => true
  }

  function Say(r: Transfer, m: Control, ok: bool): Transfer {
    if ok then r.(control := r.control + [m]) else r
  }

  /** The three answers to an offer; when the refusal of a large one cannot be sent, nothing changes. */
  function OnOffer(r: Transfer, offer: Control, ok: bool): Transfer
    requires offer.Offer?
  {
    if !r.state.Idle? then r
    else if offer.size > SIZE_LIMIT then
      if !ok then r
      else Say(r, Reject(offer.fileId, "file_too_large"), ok).(state := Failed, failReason := Some("file_too_large"))
    else if !r.hasCallback then
      if !ok then r.(state := AwaitingDecision)
      else Say(r, Reject(offer.fileId, "auto_rejected"), ok).(state := Failed, failReason := Some("auto_rejected"))
    else r.(state := AwaitingDecision, undecided := Some(offer))
  }

  /** A new `.part` file and an empty hash for the offered file. */
  function Begin(r: Transfer, offer: Control, savePath: string): Transfer
    requires offer.Offer?
  {
    Reset(r.(undecided := None, currentFileId := Some(offer.fileId), expectedSha256 := Some(offer.sha256),
             expectedSize := offer.size, savePath := savePath))
  }

  function Reset(r: Transfer): Transfer {
    r.(expectedSeq := 0, bytesReceived := 0, hash := Some([]), streamOpen := true, part := Some([]))
  }

  /** Without the accept message there is no transfer, but the `.part` file stays. */
  function AcceptOffer(r: Transfer, offer: Control, savePath: string, ok: bool): Transfer
    requires offer.Offer?
  {
    var r1 := Begin(r, offer, savePath);
    if ok then r1.(control := r1.control + [Accept(offer.fileId)], state := Receiving)
    else r1.(state := Failed, failReason := Some("send failed"))
  }

  function OnDecision(r: Transfer, d: Decision, ok: bool): Transfer
    requires r.undecided.Some? && r.undecided.value.Offer?
  {
    var offer := r.undecided.value;
    match d
    case Accepts(savePath) => AcceptOffer(r, offer, savePath, ok)
    case Refuses(reason) =>
      if ok then
        r.(undecided := None, control := r.control + [Reject(offer.fileId, reason)],
           state := Failed, failReason := Some("File rejected: " + reason))
      else r.(undecided := None, state := Failed, failReason := Some("send failed"))
    case Throws => r.(undecided := None, state := Failed, failReason := Some("callback failed"))
  }

  /** A failed check: abort the peer, if that can be sent, and delete the `.part` file. */
  function FailCheck(r: Transfer, fileId: string, reason: string, ok: bool): Transfer {
    Say(r, Abort(fileId, reason), ok).(state := Failed, failReason := Some(reason), streamOpen := false, unlinking := true)
  }

  function Appended(content: Option<seq<byte>>, data: seq<byte>): Option<seq<byte>> {
    if content.None? then None else Some(content.value + data)
  }

  function OnChunk(r: Transfer, c: Chunk, ok: bool): Transfer {
    if !r.state.Receiving? || r.currentFileId != Some(c.fileId) || !r.streamOpen || r.hash.None? then r
    else if c.seqNum != r.expectedSeq then FailCheck(r, c.fileId, "chunk_gap", ok)
    else Take(r, c)
  }

  function Take(r: Transfer, c: Chunk): Transfer {
    r.(expectedSeq := r.expectedSeq + 1, part := Appended(r.part, c.data), hash := Appended(r.hash, c.data),
       bytesReceived := r.bytesReceived + |c.data|, taken := r.taken + [c])
  }

  /** An empty save path counts as none. */
  function OnDone(r: Transfer, fileId: string): Transfer {
    if !r.state.Receiving? || r.currentFileId != Some(fileId) || !r.streamOpen || r.hash.None?
       || r.expectedSha256.None? || r.savePath == "" then r
    else r.(state := Verifying, stage := Ending)
  }

  /** No guard on the state: an abort of the current file fails even a finished transfer. */
  function OnAbort(r: Transfer, fileId: string, reason: string): Transfer {
    if r.currentFileId != Some(fileId) then r
    else r.(state := Failed, failReason := Some("peer_aborted: " + reason), streamOpen := false, hash := None, unlinking := true)
  }

  /** After an abort in between there is no hash left, and the routine ends in an exception. */
  function OnStreamEnd(r: Transfer, ok: bool): Transfer {
    var r1 := r.(streamOpen := false, stage := NoStage);
    if r.hash.None? || r.currentFileId.None? then r1
    else if Some(Sha256(r.hash.value)) == r.expectedSha256 then r1.(hash := None, stage := Renaming)
    else FailCheck(r1.(hash := None), r.currentFileId.value, "sha256_mismatch", ok)
  }

  /** The rename fails when an abort has deleted the `.part` file first. */
  function OnRename(r: Transfer): Transfer {
    var r1 := r.(stage := NoStage);
    if r.part.None? then r1 else r1.(final := r.part, part := None, state := Done)
  }

  function Next(r: Transfer, e: Event): Transfer
    requires Possible(r, e)
  {
    match e
    case OfferArrives(offer, ok) => OnOffer(r, offer, ok)
    case Decided(d, ok) => if r.undecided.value.Offer? then OnDecision(r, d, ok) else r
    case ChunkArrives(c, ok) => OnChunk(r, c, ok)
    case DoneArrives(id) => OnDone(r, id)
    case AbortArrives(id, reason) => OnAbort(r, id, reason)
    case StreamEnds(ok) => OnStreamEnd(r, ok)
    case StreamFails => r.(stage := NoStage)
    case RenameRuns => OnRename(r)
    case UnlinkRuns => r.(unlinking := false, part := None)
  }

  function Run(r: Transfer, events: seq<Event>): Option<Transfer> {
    if events == [] then Some(r)
    else
      var init := Run(r, events[..|events| - 1]);
      var e := events[|events| - 1];
      if init.None? || !Possible(init.value, e) then None else Some(Next(init.value, e))
  }

  // ── The receiver object ──────────────────────────────────────────────────

  class Receiver {
    var onFileOffer: bool
    var state: Phase
    var undecided: Option<Control>
    var currentFileId: Option<string>
    var expectedSha256: Option<Digest>
    var expectedSize: int
    var savePath: string
    var expectedSeq: nat
    var bytesReceived: nat
    var hash: Option<seq<byte>>
    var writeStream: bool
    var stage: Stage
    var unlinking: bool
    var part: Option<seq<byte>>
    var final: Option<seq<byte>>
    var taken: seq<Chunk>
    var control: seq<Control>
    var failReason: Option<string>

    function Contents(): Transfer
      reads this
    {
      Transfer(onFileOffer, state, undecided, currentFileId, expectedSha256, expectedSize, savePath, expectedSeq,
               bytesReceived, hash, writeStream, stage, unlinking, part, final, taken, control, failReason)
    }

    constructor (hasCallback: bool)
      ensures Contents() == Initial(hasCallback)
    {
      onFileOffer, state, undecided, currentFileId, expectedSha256 := hasCallback, Idle, None, None, None;
      expectedSize, savePath, expectedSeq, bytesReceived, hash := 0, "", 0, 0, None;
      writeStream, stage, unlinking, part, final := false, NoStage, false, None, None;
      taken, control, failReason := [], [], None;
    }

    method HandleFileOffer(offer: Control, ok: bool)
      requires offer.Offer?
      modifies this
      ensures Contents() == OnOffer(old(Contents()), offer, ok)
    {
      if state != Idle {
        return;
      }
      if offer.size > SIZE_LIMIT {
        if ok {
          control := control + [Reject(offer.fileId, "file_too_large")];
          state, failReason := Failed, Some("file_too_large");
        }
        return;
      }
      state := AwaitingDecision;
      if !onFileOffer {
        if ok {
          control := control + [Reject(offer.fileId, "auto_rejected")];
          state, failReason := Failed, Some("auto_rejected");
        }
        return;
      }
      undecided := Some(offer);
    }

    method BeginTransfer(offer: Control, path: string)
      requires offer.Offer?
      modifies this
      ensures Contents() == Begin(old(Contents()), offer, path)
    {
      hide Reset;
      undecided, currentFileId, expectedSha256 := None, Some(offer.fileId), Some(offer.sha256);
      expectedSize, savePath := offer.size, path;
      ResetProgress();
    }

    method ResetProgress()
      modifies this
      ensures Contents() == Reset(old(Contents()))
    {
      expectedSeq, bytesReceived, hash, writeStream, part := 0, 0, Some([]), true, Some([]);
    }

    method AcceptTransfer(offer: Control, path: string, ok: bool)
      requires offer.Offer?
      modifies this
      ensures Contents() == AcceptOffer(old(Contents()), offer, path, ok)
    {
      hide Begin;
      BeginTransfer(offer, path);
      if ok {
        control := control + [Accept(offer.fileId)];
        state := Receiving;
      } else {
        state, failReason := Failed, Some("send failed");
      }
    }

    method OnDecided(decision: Decision, ok: bool)
      requires undecided.Some? && undecided.value.Offer?
      modifies this
      ensures Contents() == OnDecision(old(Contents()), decision, ok)
    {
      hide AcceptOffer;
      var offer := undecided.value;
      match decision {
        case Accepts(path) =>
          AcceptTransfer(offer, path, ok);
        case Refuses(reason) =>
          undecided, state := None, Failed;
          if ok {
            control := control + [Reject(offer.fileId, reason)];
          }
          failReason := Some(if ok then "File rejected: " + reason else "send failed");
        case Throws =>
          undecided, state, failReason := None, Failed, Some("callback failed");
      }
    }

    method AbortTransfer(fileId: string, reason: string, ok: bool)
      modifies this
      ensures Contents() == FailCheck(old(Contents()), fileId, reason, ok)
    {
      state, failReason, writeStream := Failed, Some(reason), false;
      if ok {
        control := control + [Abort(fileId, reason)];
      }
      unlinking := true;
    }

    method HandleFileChunk(c: Chunk, ok: bool)
      modifies this
      ensures Contents() == OnChunk(old(Contents()), c, ok)
    {
      hide FailCheck, Take;
      if state != Receiving || currentFileId != Some(c.fileId) || !writeStream || hash.None? {
        return;
      }
      if c.seqNum != expectedSeq {
        AbortTransfer(c.fileId, "chunk_gap", ok);
        return;
      }
      TakeChunk(c);
    }

    method TakeChunk(c: Chunk)
      requires hash.Some?
      modifies this
      ensures Contents() == Take(old(Contents()), c)
    {
      expectedSeq := expectedSeq + 1;
      part := if part.Some? then Some(part.value + c.data) else None;
      hash := Some(hash.value + c.data);
      bytesReceived := bytesReceived + |c.data|;
      taken := taken + [c];
    }

    method HandleFileDone(fileId: string)
      modifies this
      ensures Contents() == OnDone(old(Contents()), fileId)
    {
      if state != Receiving || currentFileId != Some(fileId) {
        return;
      }
      if !writeStream || hash.None? || expectedSha256.None? || savePath == "" {
        return;
      }
      state := Verifying;
      stage := Ending;
    }

    method OnStreamEnded(ok: bool)
      requires stage.Ending?
      modifies this
      ensures Contents() == OnStreamEnd(old(Contents()), ok)
    {
      hide FailCheck;
      stage := NoStage;
      writeStream := false;
      if hash.None? || currentFileId.None? {
        return;
      }
      var digest := Sha256(hash.value);
      hash := None;
      if expectedSha256 == Some(digest) {
        stage := Renaming;
      } else {
        AbortTransfer(currentFileId.value, "sha256_mismatch", ok);
      }
    }

    method OnRenamed()
      requires stage.Renaming?
      modifies this
      ensures Contents() == OnRename(old(Contents()))
    {
      stage := NoStage;
      if part.Some? {
        final, part := part, None;
        state := Done;
      }
    }

    method HandleFileAbort(fileId: string, reason: string)
      modifies this
      ensures Contents() == OnAbort(old(Contents()), fileId, reason)
    {
      if currentFileId != Some(fileId) {
        return;
      }
      state, failReason := Failed, Some("peer_aborted: " + reason);
      writeStream := false;
      hash := None;
      unlinking := true;
    }
  }

  // ── The invariant ────────────────────────────────────────────────────────

  /** Nothing was accepted yet, or never will be. */
  ghost predicate UnstartedInv(r: Transfer) {
    && (r.state.Idle? || r.state.AwaitingDecision? || r.state.Failed?)
    && (r.undecided.Some? ==> r.state.AwaitingDecision? && r.undecided.value.Offer? && r.undecided.value.size <= SIZE_LIMIT)
    && r.stage.NoStage? && !r.unlinking && r.part.None? && r.final.None? && r.hash.None? && r.taken == []
  }

  /** Of an accepted transfer: what is hashed is what was written. */
  ghost predicate ContentInv(state: Phase, stage: Stage, hash: Option<seq<byte>>, part: Option<seq<byte>>,
                             final: Option<seq<byte>>, taken: seq<Chunk>, sha256: Option<Digest>) {
    && (hash.Some? ==> hash.value == Concat(taken))
    && (part.Some? ==> part.value == Concat(taken))
    && (final.Some? ==> final.value == Concat(taken) && part.None? && stage.NoStage?)
    && (stage.Renaming? || final.Some? ==> sha256 == Some(Sha256(Concat(taken))))
    && (state.Done? ==> final.Some?)
    && (state.Receiving? ==> hash.Some? && part.Some? && stage.NoStage? && final.None?)
    && (stage.Ending? && hash.Some? ==> state.Verifying? && part.Some?)
  }

  ghost predicate StartedInv(r: Transfer) {
    && (r.state.Receiving? || r.state.Verifying? || r.state.Done? || r.state.Failed?)
    && r.undecided.None? && r.expectedSha256.Some? && r.expectedSize <= SIZE_LIMIT
    && (r.state.Receiving? ==> r.streamOpen)
    && r.currentFileId.Some? && Numbered(r.taken, r.currentFileId.value) && r.expectedSeq == |r.taken| && r.bytesReceived == |Concat(r.taken)|
    && (r.part.Some? && r.state.Failed? ==> r.unlinking || r.failReason == Some("send failed"))
    && (r.unlinking ==> r.state.Failed? || r.state.Done?)
  }

  ghost predicate Inv(r: Transfer) {
    if r.currentFileId.None? then UnstartedInv(r)
    else StartedInv(r)
         && ContentInv(r.state, r.stage, r.hash, r.part, r.final, r.taken, r.expectedSha256)
  }

  lemma TakeKeeps(r: Transfer, c: Chunk)
    requires Inv(r) && r.state.Receiving? && r.currentFileId == Some(c.fileId) && c.seqNum == r.expectedSeq
    ensures Inv(OnChunk(r, c, true)) && Inv(OnChunk(r, c, false))
  {
    ConcatSnoc(r.taken, c);
  }

  lemma OfferKeeps(r: Transfer, offer: Control, ok: bool)
    requires Inv(r) && offer.Offer?
    ensures Inv(OnOffer(r, offer, ok))
  {
    hide ContentInv;
  }

  lemma DecisionKeeps(r: Transfer, d: Decision, ok: bool)
    requires Inv(r) && r.undecided.Some? && r.undecided.value.Offer?
    ensures Inv(OnDecision(r, d, ok))
  {
  }

  lemma GapKeeps(r: Transfer, c: Chunk, ok: bool)
    requires Inv(r) && c.seqNum != r.expectedSeq
    ensures Inv(OnChunk(r, c, ok))
  {
  }

  lemma StrayKeeps(r: Transfer, c: Chunk, ok: bool)
    requires !r.state.Receiving? || r.currentFileId != Some(c.fileId)
    ensures OnChunk(r, c, ok) == r
  {
  }

  lemma DoneKeeps(r: Transfer, fileId: string)
    requires Inv(r)
    ensures Inv(OnDone(r, fileId))
  {
  }

  lemma AbortKeeps(r: Transfer, fileId: string, reason: string)
    requires Inv(r)
    ensures Inv(OnAbort(r, fileId, reason))
  {
  }

  lemma StreamEndKeeps(r: Transfer, ok: bool)
    requires Inv(r) && r.stage.Ending?
    ensures Inv(OnStreamEnd(r, ok))
  {
  }

  lemma RenameKeeps(r: Transfer)
    requires Inv(r) && r.stage.Renaming?
    ensures Inv(OnRename(r))
  {
  }

  lemma UnlinkKeeps(r: Transfer)
    requires Inv(r) && r.unlinking
    ensures Inv(r.(unlinking := false, part := None))
  {
  }

  lemma StreamFailKeeps(r: Transfer)
    requires Inv(r) && r.stage.Ending?
    ensures Inv(r.(stage := NoStage))
  {
  }

  lemma InvStep(r: Transfer, e: Event)
    requires Inv(r) && Possible(r, e)
    ensures Inv(Next(r, e))
  {
    match e {
      case OfferArrives(offer, ok) => OfferKeeps(r, offer, ok);
      case Decided(d, ok) =>
        if r.undecided.value.Offer? {
          DecisionKeeps(r, d, ok);
        }
      case ChunkArrives(c, ok) =>
        if !r.state.Receiving? || r.currentFileId != Some(c.fileId) {
          StrayKeeps(r, c, ok);
        } else if c.seqNum == r.expectedSeq {
          TakeKeeps(r, c);
        } else {
          GapKeeps(r, c, ok);
        }
      case DoneArrives(id) => DoneKeeps(r, id);
      case AbortArrives(id, reason) => AbortKeeps(r, id, reason);
      case StreamEnds(ok) => StreamEndKeeps(r, ok);
      case StreamFails => StreamFailKeeps(r);
      case RenameRuns => RenameKeeps(r);
      case UnlinkRuns => UnlinkKeeps(r);
    }
    // Hidden in the goal only, here and below: the steps before need the definitions.
    hide Inv, OnOffer, OnDecision, OnChunk, OnDone, OnAbort, OnStreamEnd, OnRename;
  }

  // ── Whole runs, with any peer ────────────────────────────────────────────

  lemma {:induction false} InvRun(r: Transfer, events: seq<Event>)
    requires Inv(r) && Run(r, events).Some?
    ensures Inv(Run(r, events).value)
    decreases |events|
  {
    if events == [] {
    } else {
      InvRun(r, events[..|events| - 1]);
      InvStep(Run(r, events[..|events| - 1]).value, events[|events| - 1]);
      hide Inv, Next, Possible;
    }
  }

  /** An offer was made by the peer, and the callback's acceptance was of that offer. */
  ghost predicate OfferAccepted(hasCallback: bool, events: seq<Event>, offer: Control) {
    exists j: nat :: j < |events| && AcceptedAt(hasCallback, events, j, offer) && OfferMade(events[..j], offer)
  }

  ghost predicate AcceptedAt(hasCallback: bool, events: seq<Event>, j: nat, offer: Control)
    requires j < |events|
  {
    && events[j].Decided? && events[j].decision.Accepts?
    && Run(Initial(hasCallback), events[..j]).Some?
    && Run(Initial(hasCallback), events[..j]).value.undecided == Some(offer)
  }

  ghost predicate OfferMade(events: seq<Event>, offer: Control) {
    exists i :: 0 <= i < |events| && events[i].OfferArrives? && events[i].offer == offer
  }

  ghost predicate OffersInv(hasCallback: bool, events: seq<Event>, r: Transfer) {
    && (r.undecided.Some? ==> OfferMade(events, r.undecided.value))
    && (r.currentFileId.Some? && r.expectedSha256.Some? ==>
          OfferAccepted(hasCallback, events, Offer(r.currentFileId.value, r.expectedSize, r.expectedSha256.value)))
  }

  lemma OfferMadeLast(events: seq<Event>, e: Event)
    ensures forall offer :: OfferMade(events, offer) ==> OfferMade(events + [e], offer)
    ensures e.OfferArrives? ==> OfferMade(events + [e], e.offer)
  {
    var all := events + [e];
    assert all[|events|] == e;
    assert forall i :: 0 <= i < |events| ==> all[i] == events[i];
  }

  lemma OfferAcceptedLast(hasCallback: bool, events: seq<Event>, e: Event, offer: Control)
    requires Run(Initial(hasCallback), events).Some?
    ensures OfferAccepted(hasCallback, events, offer) ==> OfferAccepted(hasCallback, events + [e], offer)
    ensures e.Decided? && e.decision.Accepts? && OfferMade(events, offer)
            && Run(Initial(hasCallback), events).value.undecided == Some(offer)
            ==> OfferAccepted(hasCallback, events + [e], offer)
  {
    hide Run, Initial, OfferMade;
    var all := events + [e];
    assert all[|events|] == e && all[..|events|] == events;
    if OfferAccepted(hasCallback, events, offer) {
      var j: nat :| j < |events| && AcceptedAt(hasCallback, events, j, offer) && OfferMade(events[..j], offer);
      assert all[j] == events[j] && all[..j] == events[..j];
      assert AcceptedAt(hasCallback, all, j, offer);
    }
    if e.Decided? && e.decision.Accepts? && OfferMade(events, offer)
       && Run(Initial(hasCallback), events).value.undecided == Some(offer) {
      assert AcceptedAt(hasCallback, all, |events|, offer);
    }
  }

  lemma OffersStep(hasCallback: bool, events: seq<Event>, e: Event)
    requires Run(Initial(hasCallback), events).Some?
    requires var r := Run(Initial(hasCallback), events).value;
      OffersInv(hasCallback, events, r) && Possible(r, e)
    ensures OffersInv(hasCallback, events + [e], Next(Run(Initial(hasCallback), events).value, e))
  {
    hide OfferMade, OfferAccepted, Run, Initial;
    var r := Run(Initial(hasCallback), events).value;
    OfferMadeLast(events, e);
    if r.currentFileId.Some? && r.expectedSha256.Some? {
      OfferAcceptedLast(hasCallback, events, e, Offer(r.currentFileId.value, r.expectedSize, r.expectedSha256.value));
    }
    match e {
      case OfferArrives(offer, ok) => DuringOffer(r, offer, ok);
      case Decided(d, ok) =>
        OfferAcceptedLast(hasCallback, events, e, r.undecided.value);
        if r.undecided.value.Offer? {
          DuringDecision(r, d, ok);
        }
      case _ => UntouchedOffer(r, e);
    }
    hide OnOffer, OnDecision;
  }

  lemma DuringOffer(r: Transfer, offer: Control, ok: bool)
    requires offer.Offer?
    ensures var d := OnOffer(r, offer, ok);
      && d.currentFileId == r.currentFileId && d.expectedSize == r.expectedSize && d.expectedSha256 == r.expectedSha256
      && (d.undecided == r.undecided || d.undecided == Some(offer))
  {
  }

  lemma DuringDecision(r: Transfer, d: Decision, ok: bool)
    requires r.undecided.Some? && r.undecided.value.Offer?
    ensures var after := OnDecision(r, d, ok);
      && after.undecided.None?
      && (d.Accepts? ==> after.currentFileId.Some? && after.expectedSha256.Some?
                         && r.undecided.value == Offer(after.currentFileId.value, after.expectedSize, after.expectedSha256.value))
      && (!d.Accepts? ==> after.currentFileId == r.currentFileId && after.expectedSize == r.expectedSize
                          && after.expectedSha256 == r.expectedSha256)
  {
  }

  lemma UntouchedOffer(r: Transfer, e: Event)
    requires Possible(r, e) && !e.OfferArrives? && !e.Decided?
    ensures var d := Next(r, e);
      && d.hasCallback == r.hasCallback && d.undecided == r.undecided && d.currentFileId == r.currentFileId
      && d.expectedSize == r.expectedSize && d.expectedSha256 == r.expectedSha256
  {
    match e {
      case ChunkArrives(c, ok) =>
      case AbortArrives(id, reason) =>
      case StreamEnds(ok) =>
      case _ =>
    }
  }

  lemma {:induction false} OffersRun(hasCallback: bool, events: seq<Event>)
    requires Run(Initial(hasCallback), events).Some?
    ensures OffersInv(hasCallback, events, Run(Initial(hasCallback), events).value)
  {
    if events == [] {
    } else {
      var init, e := events[..|events| - 1], events[|events| - 1];
      assert events == init + [e];
      OffersRun(hasCallback, init);
      OffersStep(hasCallback, init, e);
      hide OffersInv, Next, Possible;
    }
  }

  /** Whatever the peer sends and however the callbacks interleave: a file at the save path is the
      data of consecutively numbered chunks, its SHA-256 is the one of an offer that the peer made
      and that the callback accepted, and the offered size was within the limit. */
  lemma {:induction false} ReceivedFileIsOffered(hasCallback: bool, events: seq<Event>)
    requires Run(Initial(hasCallback), events).Some?
    requires Run(Initial(hasCallback), events).value.final.Some?
    ensures var r := Run(Initial(hasCallback), events).value;
      && r.currentFileId.Some? && Numbered(r.taken, r.currentFileId.value)
      && r.final.value == Concat(r.taken)
      && OfferAccepted(hasCallback, events, Offer(r.currentFileId.value, r.expectedSize, Sha256(r.final.value)))
      && r.expectedSize <= SIZE_LIMIT
  {
    assert Inv(Initial(hasCallback));
    InvRun(Initial(hasCallback), events);
    OffersRun(hasCallback, events);
    hide OfferAccepted, OfferMade;
  }

  /** The length of a received file is never compared with the offer. It is the offered one, or
      within the limit, exactly when that is so of the content whose digest was offered. */
  lemma {:induction false} LengthHonouredIff(hasCallback: bool, events: seq<Event>)
    requires Run(Initial(hasCallback), events).Some?
    requires Run(Initial(hasCallback), events).value.final.Some?
    ensures var r := Run(Initial(hasCallback), events).value;
      && r.expectedSha256.Some? && r.expectedSha256.value.Sha256?
      && (|r.final.value| == r.expectedSize <==> |r.expectedSha256.value.input| == r.expectedSize)
      && (|r.final.value| <= SIZE_LIMIT <==> |r.expectedSha256.value.input| <= SIZE_LIMIT)
  {
    assert Inv(Initial(hasCallback));
    InvRun(Initial(hasCallback), events);
  }

  /** In `failed` the `.part` file is gone or its deletion is under way, except on the one path
      where the accept message could not be sent. */
  lemma PartIsDeleted(hasCallback: bool, events: seq<Event>)
    requires Run(Initial(hasCallback), events).Some?
    ensures var r := Run(Initial(hasCallback), events).value;
      r.state.Failed? && r.part.Some? ==> r.unlinking || r.failReason == Some("send failed")
  {
    assert Inv(Initial(hasCallback));
    InvRun(Initial(hasCallback), events);
  }

  /** `done` is left by an abort of the same file and by nothing else. */
  lemma DoneLeftIff(r: Transfer, e: Event)
    requires Inv(r) && r.state.Done? && Possible(r, e)
    ensures Next(r, e).state != Done <==> e.AbortArrives? && Some(e.fileId) == r.currentFileId
  {
  }

  lemma FinalKept(r: Transfer, e: Event)
    requires Inv(r) && Possible(r, e) && r.final.Some?
    ensures Next(r, e).final == r.final
  {
  }

  /** A file in place is never changed or deleted again, not even by that abort. */
  lemma {:induction false} FinalStays(r: Transfer, more: seq<Event>)
    requires Inv(r) && r.final.Some? && Run(r, more).Some?
    ensures Run(r, more).value.final == r.final
    decreases |more|
  {
    if more == [] {
    } else {
      FinalStays(r, more[..|more| - 1]);
      InvRun(r, more[..|more| - 1]);
      FinalKept(Run(r, more[..|more| - 1]).value, more[|more| - 1]);
    }
  }

  lemma RunSnoc(r: Transfer, events: seq<Event>, e: Event)
    requires Run(r, events).Some? && Possible(Run(r, events).value, e)
    ensures Run(r, events + [e]) == Some(Next(Run(r, events).value, e))
  {
    assert (events + [e])[..|events|] == events;
  }

  // ── How a transfer starts and how it leaves `receiving`, by the events alone ──

  /** Every offer does, except a too large one whose refusal cannot be sent. */
  predicate LeavesIdle(e: Event) {
    e.OfferArrives? && e.offer.Offer? && (e.offer.size <= SIZE_LIMIT || e.ok)
  }

  predicate NothingOffered(events: seq<Event>) {
    forall i :: 0 <= i < |events| ==> !LeavesIdle(events[i])
  }

  /** The first offer within the limit. */
  function FirstOffer(events: seq<Event>): Option<Control> {
    if events == [] then None
    else
      var before, e := FirstOffer(events[..|events| - 1]), events[|events| - 1];
      if before.Some? || !e.OfferArrives? || !e.offer.Offer? || e.offer.size > SIZE_LIMIT then before else Some(e.offer)
  }

  datatype Acceptance = Acceptance(savePath: string, since: seq<Event>)

  /** The acceptance that went out, with the events after it. */
  function Accepted(events: seq<Event>): Option<Acceptance> {
    if events == [] then None
    else
      var before, e := Accepted(events[..|events| - 1]), events[|events| - 1];
      if e.Decided? && e.decision.Accepts? && e.ok then Some(Acceptance(e.decision.savePath, []))
      else if before.None? then None
      else Some(before.value.(since := before.value.since + [e]))
  }

  /** The chunks of the file among some events. */
  function ChunksIn(events: seq<Event>, fileId: string): seq<Chunk> {
    if events == [] then []
    else
      var e := events[|events| - 1];
      ChunksIn(events[..|events| - 1], fileId) + if e.ChunkArrives? && e.chunk.fileId == fileId then [e.chunk] else []
  }

  /** An abort of the file, an out-of-sequence chunk of it, or its file_done: after `since`, `e` ends
      the receiving. */
  predicate EndsReceiving(since: seq<Event>, e: Event, fileId: string, savePath: string) {
    match e
    case AbortArrives(id, _) => id == fileId
    case ChunkArrives(c, _) => c.fileId == fileId && c.seqNum != |ChunksIn(since, fileId)|
    case DoneArrives(id) => id == fileId && savePath != ""
    case _ => false
  }

  predicate Undisturbed(since: seq<Event>, fileId: string, savePath: string) {
    since != [] ==>
      var init := since[..|since| - 1];
      Undisturbed(init, fileId, savePath) && !EndsReceiving(init, since[|since| - 1], fileId, savePath)
  }

  /** An acceptance went out and nothing has ended the receiving since. */
  predicate StillReceiving(events: seq<Event>, fileId: Option<string>) {
    Accepted(events).Some? && fileId.Some? && Undisturbed(Accepted(events).value.since, fileId.value, Accepted(events).value.savePath)
  }

  lemma SinceSnoc(since: seq<Event>, e: Event, fileId: string, savePath: string)
    ensures ChunksIn(since + [e], fileId)
         == ChunksIn(since, fileId) + if e.ChunkArrives? && e.chunk.fileId == fileId then [e.chunk] else []
    ensures Undisturbed(since + [e], fileId, savePath)
       <==> Undisturbed(since, fileId, savePath) && !EndsReceiving(since, e, fileId, savePath)
  {
    assert (since + [e])[..|since|] == since;
  }

  ghost predicate Tracked(r: Transfer, accepted: Option<Acceptance>) {
    match accepted
    case None => !r.state.Receiving?
    case Some(a) =>
      && r.currentFileId.Some? && r.savePath == a.savePath
      && (r.state.Receiving? <==> Undisturbed(a.since, r.currentFileId.value, a.savePath))
      && (r.state.Receiving? ==> r.taken == ChunksIn(a.since, r.currentFileId.value))
  }

  lemma TrackedChunk(r: Transfer, a: Acceptance, c: Chunk, ok: bool)
    requires Inv(r) && Tracked(r, Some(a))
    ensures Tracked(OnChunk(r, c, ok), Some(a.(since := a.since + [ChunkArrives(c, ok)])))
  {
    SinceSnoc(a.since, ChunkArrives(c, ok), r.currentFileId.value, a.savePath);
    hide Undisturbed, ChunksIn;
    if r.state.Receiving? {
      ReceivingHas(r);
    }
  }

  lemma ReceivingHas(r: Transfer)
    requires Inv(r) && r.state.Receiving?
    ensures r.streamOpen && r.hash.Some? && r.part.Some? && r.expectedSha256.Some? && r.currentFileId.Some?
    ensures r.expectedSeq == |r.taken| && r.undecided.None? && r.stage.NoStage?
    ensures r.hash == Some(Concat(r.taken))
  {
  }

  lemma TrackedOther(r: Transfer, a: Acceptance, e: Event)
    requires Inv(r) && Tracked(r, Some(a)) && Possible(r, e) && !e.ChunkArrives? && !e.Decided?
    ensures Tracked(Next(r, e), Some(a.(since := a.since + [e])))
  {
    SinceSnoc(a.since, e, r.currentFileId.value, a.savePath);
    if r.state.Receiving? {
      ReceivingHas(r);
    }
    OtherLeaves(r, e);
    hide Undisturbed, ChunksIn, Inv, Next, Possible;
  }

  /** What other events do to a started transfer. */
  lemma OtherLeaves(r: Transfer, e: Event)
    requires Inv(r) && Possible(r, e) && !e.ChunkArrives? && !e.Decided? && r.currentFileId.Some?
    ensures var d := Next(r, e);
      && d.currentFileId == r.currentFileId && d.savePath == r.savePath && d.taken == r.taken
      && (d.state.Receiving? <==>
            && r.state.Receiving? && !(e.AbortArrives? && Some(e.fileId) == r.currentFileId)
            && !(e.DoneArrives? && Some(e.fileId) == r.currentFileId && r.savePath != ""))
  {
    if r.state.Receiving? {
      ReceivingHas(r);
    }
    hide ContentInv;
  }

  lemma TrackedBefore(r: Transfer, e: Event)
    requires Inv(r) && Tracked(r, None) && Possible(r, e) && !(e.Decided? && e.decision.Accepts? && e.ok)
    ensures Tracked(Next(r, e), None)
  {
    hide ContentInv;
  }

  lemma TrackedAcceptance(r: Transfer, path: string)
    requires Inv(r) && Possible(r, Decided(Accepts(path), true))
    ensures Tracked(Next(r, Decided(Accepts(path), true)), Some(Acceptance(path, [])))
  {
    assert r.currentFileId.None?;
    hide ContentInv;
  }

  lemma {:induction false} TrackedRun(hasCallback: bool, events: seq<Event>)
    requires Run(Initial(hasCallback), events).Some?
    ensures Tracked(Run(Initial(hasCallback), events).value, Accepted(events))
  {
    if events == [] {
    } else {
      var init, e := events[..|events| - 1], events[|events| - 1];
      TrackedRun(hasCallback, init);
      assert Inv(Initial(hasCallback));
      InvRun(Initial(hasCallback), init);
      var r, accepted := Run(Initial(hasCallback), init).value, Accepted(init);
      if e.Decided? && e.decision.Accepts? && e.ok {
        TrackedAcceptance(r, e.decision.savePath);
      } else if accepted.None? {
        TrackedBefore(r, e);
      } else if e.ChunkArrives? {
        TrackedChunk(r, accepted.value, e.chunk, e.ok);
      } else {
        DecidedOnce(r, e, accepted.value);
        TrackedOther(r, accepted.value, e);
      }
      hide Tracked, Inv, Next, Possible;
    }
  }

  /** After an acceptance there is nothing left to decide. */
  lemma DecidedOnce(r: Transfer, e: Event, a: Acceptance)
    requires Inv(r) && Tracked(r, Some(a)) && Possible(r, e)
    ensures !e.Decided?
  {
    hide ContentInv, Undisturbed;
  }

  /** In every run the receiver is receiving exactly when an acceptance went out and no later event
      was an abort of that file, an out-of-sequence chunk of it, or its file_done with a save path;
      and then it has taken every chunk of the file that arrived since. */
  lemma {:induction false} ReceivingIff(hasCallback: bool, events: seq<Event>)
    requires Run(Initial(hasCallback), events).Some?
    ensures var r := Run(Initial(hasCallback), events).value;
      && (r.state.Receiving? <==> StillReceiving(events, r.currentFileId))
      && (r.state.Receiving? ==> r.taken == ChunksIn(Accepted(events).value.since, r.currentFileId.value))
  {
    TrackedRun(hasCallback, events);
    hide Run, Undisturbed, ChunksIn;
  }

  // ── Offers, by the events alone ──────────────────────────────────────────

  lemma NothingOfferedLast(events: seq<Event>)
    requires events != []
    ensures NothingOffered(events) <==> NothingOffered(events[..|events| - 1]) && !LeavesIdle(events[|events| - 1])
  {
  }

  lemma {:induction false} NoFirstOffer(events: seq<Event>)
    requires NothingOffered(events)
    ensures FirstOffer(events).None?
  {
    if events == [] {
    } else {
      NothingOfferedLast(events);
      NoFirstOffer(events[..|events| - 1]);
    }
  }

  ghost predicate OfferTracked(r: Transfer, hasCallback: bool, nothing: bool, first: Option<Control>) {
    && r.hasCallback == hasCallback && (r.state.Idle? <==> nothing)
    && (r.undecided.Some? ==> r.undecided == first)
    && (r.currentFileId.Some? ==>
          r.expectedSha256.Some? && first == Some(Offer(r.currentFileId.value, r.expectedSize, r.expectedSha256.value)))
    && (r.state.Idle? || r.undecided.Some? ==> r.control == [])
    && (r.state.Idle? ==> r.undecided.None? && r.currentFileId.None?)
  }

  lemma OfferTrackedStep(r: Transfer, e: Event, hasCallback: bool, nothing: bool, first: Option<Control>)
    requires Inv(r) && Possible(r, e) && OfferTracked(r, hasCallback, nothing, first) && (nothing ==> first.None?)
    ensures OfferTracked(Next(r, e), hasCallback, nothing && !LeavesIdle(e),
                         if first.None? && e.OfferArrives? && e.offer.size <= SIZE_LIMIT then Some(e.offer) else first)
  {
    match e {
      case OfferArrives(offer, ok) => DuringOffer(r, offer, ok);
      case Decided(d, ok) =>
        if r.undecided.value.Offer? {
          DuringDecision(r, d, ok);
        }
      case _ => LaterEvent(r, e);
    }
    hide ContentInv;
  }

  lemma LaterEvent(r: Transfer, e: Event)
    requires Inv(r) && Possible(r, e) && !e.OfferArrives? && !e.Decided?
    ensures var d := Next(r, e);
      && d.hasCallback == r.hasCallback && d.undecided == r.undecided && d.currentFileId == r.currentFileId
      && d.expectedSize == r.expectedSize && d.expectedSha256 == r.expectedSha256
      && (r.currentFileId.None? ==> d.state == r.state && d.control == r.control)
      && (r.currentFileId.Some? ==> !d.state.Idle?)
  {
    UntouchedOffer(r, e);
    if r.currentFileId.None? {
      BeforeAcceptance(r, e);
    } else {
      InvStep(r, e);
    }
    hide Next, Possible, ContentInv;
  }

  lemma BeforeAcceptance(r: Transfer, e: Event)
    requires UnstartedInv(r) && r.currentFileId.None? && Possible(r, e) && !e.OfferArrives? && !e.Decided?
    ensures Next(r, e) == r
  {
  }

  lemma {:induction false} OfferTrackedRun(hasCallback: bool, events: seq<Event>)
    requires Run(Initial(hasCallback), events).Some?
    ensures OfferTracked(Run(Initial(hasCallback), events).value, hasCallback, NothingOffered(events), FirstOffer(events))
  {
    if events == [] {
    } else {
      hide OfferTracked, Inv, Next, NothingOffered;
      var init, e := events[..|events| - 1], events[|events| - 1];
      OfferTrackedRun(hasCallback, init);
      InitialInv(hasCallback);
      InvRun(Initial(hasCallback), init);
      if NothingOffered(init) {
        NoFirstOffer(init);
      }
      NothingOfferedLast(events);
      OfferTrackedStep(Run(Initial(hasCallback), init).value, e, hasCallback, NothingOffered(init), FirstOffer(init));
    }
  }

  lemma InitialInv(hasCallback: bool)
    ensures Inv(Initial(hasCallback))
  {
  }

  /** The receiver is idle exactly while nothing but unanswerable too large offers came; and the
      offer that it decides on, or works on, is the first one within the limit. */
  lemma {:induction false} OneOfferOnly(hasCallback: bool, events: seq<Event>)
    requires Run(Initial(hasCallback), events).Some?
    ensures var r := Run(Initial(hasCallback), events).value;
      && (r.state.Idle? <==> NothingOffered(events))
      && (r.undecided.Some? ==> r.undecided == FirstOffer(events))
      && (r.currentFileId.Some? ==>
            && r.expectedSha256.Some?
            && FirstOffer(events) == Some(Offer(r.currentFileId.value, r.expectedSize, r.expectedSha256.value)))
  {
    OfferTrackedRun(hasCallback, events);
  }

  // ── What each message brings about, in every run ─────────────────────────

  /** The first offer that counts is refused for its size, refused for want of a callback, or put to
      the callback. */
  lemma OfferAnswered(hasCallback: bool, events: seq<Event>, offer: Control, ok: bool)
    requires Run(Initial(hasCallback), events).Some? && NothingOffered(events) && offer.Offer?
    ensures var end := Run(Initial(hasCallback), events + [OfferArrives(offer, ok)]);
      var refusal := if offer.size > SIZE_LIMIT then Some("file_too_large") else if !hasCallback then Some("auto_rejected") else None;
      && end.Some? && end.value.undecided == (if refusal.None? then Some(offer) else None)
      && end.value.control == (if refusal.Some? && ok then [Reject(offer.fileId, refusal.value)] else [])
      && (end.value.state.Failed? <==> refusal.Some? && ok)
      && (end.value.state.Failed? ==> end.value.failReason == refusal)
  {
    OfferTrackedRun(hasCallback, events);
    RunSnoc(Initial(hasCallback), events, OfferArrives(offer, ok));
    hide Run, Initial, NothingOffered;
  }

  /** The callback's decision is told to the peer; only a told acceptance starts receiving. */
  lemma DecisionAnswered(hasCallback: bool, events: seq<Event>, d: Decision, ok: bool)
    requires Run(Initial(hasCallback), events).Some? && Run(Initial(hasCallback), events).value.undecided.Some?
    ensures FirstOffer(events).Some? && FirstOffer(events).value.Offer?
    ensures var end := Run(Initial(hasCallback), events + [Decided(d, ok)]);
      var id := FirstOffer(events).value.fileId;
      && end.Some? && end.value.state == (if d.Accepts? && ok then Receiving else Failed)
      && end.value.control
         == (if !ok || d.Throws? then [] else if d.Accepts? then [Accept(id)] else [Reject(id, d.reason)])
      && (d.Accepts? ==> end.value.currentFileId == Some(id) && end.value.part == Some([]))
  {
    InitialInv(hasCallback);
    InvRun(Initial(hasCallback), events);
    OfferTrackedRun(hasCallback, events);
    RunSnoc(Initial(hasCallback), events, Decided(d, ok));
    hide Run, Initial, FirstOffer, ContentInv;
  }

  /** An abort of the current file is obeyed in every state. */
  lemma AbortObeyed(hasCallback: bool, events: seq<Event>, fileId: string, reason: string)
    requires Run(Initial(hasCallback), events).Some?
    requires Run(Initial(hasCallback), events).value.currentFileId == Some(fileId)
    ensures var end := Run(Initial(hasCallback), events + [AbortArrives(fileId, reason)]);
      && end.Some? && end.value.state.Failed? && end.value.failReason == Some("peer_aborted: " + reason)
      && end.value.hash.None? && !end.value.streamOpen && end.value.unlinking
  {
    RunSnoc(Initial(hasCallback), events, AbortArrives(fileId, reason));
    hide Run, Initial;
  }

  /** A gap fails the transfer, deletes the part file and aborts the peer. */
  lemma GapFails(hasCallback: bool, events: seq<Event>, c: Chunk, ok: bool)
    requires Run(Initial(hasCallback), events).Some? && StillReceiving(events, Some(c.fileId))
    requires Run(Initial(hasCallback), events).value.currentFileId == Some(c.fileId)
    requires c.seqNum != |ChunksIn(Accepted(events).value.since, c.fileId)|
    ensures var before := Run(Initial(hasCallback), events).value;
      var end := Run(Initial(hasCallback), events + [ChunkArrives(c, ok)]);
      && end.Some? && end.value.state.Failed? && end.value.failReason == Some("chunk_gap")
      && !end.value.streamOpen && end.value.unlinking && end.value.part == before.part
      && end.value.control == before.control + if ok then [Abort(c.fileId, "chunk_gap")] else []
  {
    InitialInv(hasCallback);
    InvRun(Initial(hasCallback), events);
    ReceivingIff(hasCallback, events);
    ReceivingHas(Run(Initial(hasCallback), events).value);
    RunSnoc(Initial(hasCallback), events, ChunkArrives(c, ok));
    hide Run, Initial, StillReceiving, Inv;
  }

  /** With a file_done and the end of the stream, what was received is renamed exactly when its
      digest is the offered one; otherwise the transfer fails and the peer is aborted. */
  lemma DigestDecides(hasCallback: bool, events: seq<Event>, fileId: string, ok: bool)
    requires Run(Initial(hasCallback), events).Some? && StillReceiving(events, Some(fileId))
    requires Run(Initial(hasCallback), events).value.currentFileId == Some(fileId)
    requires Accepted(events).value.savePath != ""
    ensures FirstOffer(events).Some? && FirstOffer(events).value.Offer?
    ensures var before := Run(Initial(hasCallback), events).value;
      var end := Run(Initial(hasCallback), events + [DoneArrives(fileId)] + [StreamEnds(ok)]);
      var content := Concat(ChunksIn(Accepted(events).value.since, fileId));
      && end.Some? && end.value.part == Some(content)
      && (if FirstOffer(events).value.sha256 == Sha256(content) then
            end.value.state.Verifying? && end.value.stage.Renaming? && end.value.control == before.control
          else
            && end.value.state.Failed? && end.value.failReason == Some("sha256_mismatch") && end.value.unlinking
            && end.value.control == before.control + if ok then [Abort(fileId, "sha256_mismatch")] else [])
  {
    InitialInv(hasCallback);
    InvRun(Initial(hasCallback), events);
    ReceivingIff(hasCallback, events);
    OfferTrackedRun(hasCallback, events);
    TrackedRun(hasCallback, events);
    var r := Run(Initial(hasCallback), events).value;
    ReceivingHas(r);
    assert r.part == Some(Concat(r.taken));
    hide Run, Initial, StillReceiving, Inv, ChunksIn, Concat, Undisturbed, FirstOffer, Accepted;
    var r1 := r.(state := Verifying, stage := Ending);
    assert Next(r, DoneArrives(fileId)) == r1;
    RunSnoc(Initial(hasCallback), events, DoneArrives(fileId));
    RunSnoc(Initial(hasCallback), events + [DoneArrives(fileId)], StreamEnds(ok));
  }

  /** When the write stream fails at the end, nothing is ever put in place, and only an abort of the
      file ends the verifying. */
  lemma {:induction false} StreamFailureHangs(r: Transfer, more: seq<Event>)
    requires Inv(r) && r.stage.Ending? && r.state.Verifying? && Run(Next(r, StreamFails), more).Some?
    ensures var d := Run(Next(r, StreamFails), more).value;
      d.final.None? && d.stage.NoStage? && (d.state.Verifying? || d.state.Failed?) && d.currentFileId.Some? && d.undecided.None?
    decreases |more|
  {
    hide ContentInv;
    if more == [] {
      assert r.final.None? by {
        EndingHasNoFile(r);
      }
    } else {
      StreamFailureHangs(r, more[..|more| - 1]);
    }
  }

  lemma EndingHasNoFile(r: Transfer)
    requires Inv(r) && r.stage.Ending?
    ensures r.final.None?
  {
  }

  /** `failed` is left only by a rename that was already under way and still finds the part file. */
  lemma FailedLeftIff(r: Transfer, e: Event)
    requires Inv(r) && r.state.Failed? && Possible(r, e)
    ensures Next(r, e).state != Failed <==> e.RenameRuns? && r.part.Some?
  {
    hide ContentInv;
  }

  // ── An abort during the rename ───────────────────────────────────────────

  predicate NoUnlink(events: seq<Event>) {
    forall i :: 0 <= i < |events| ==> !events[i].UnlinkRuns?
  }

  /** Some rename runs before every deletion. */
  predicate RenameFirst(events: seq<Event>) {
    exists i :: 0 <= i < |events| && events[i].RenameRuns? && NoUnlink(events[..i])
  }

  lemma RaceLast(events: seq<Event>)
    requires events != []
    ensures var init, e := events[..|events| - 1], events[|events| - 1];
      && (NoUnlink(events) <==> NoUnlink(init) && !e.UnlinkRuns?)
      && (RenameFirst(events) <==> RenameFirst(init) || (e.RenameRuns? && NoUnlink(init)))
  {
    hide NoUnlink;
    var init, e := events[..|events| - 1], events[|events| - 1];
    assert NoUnlink(events) <==> NoUnlink(init) && !e.UnlinkRuns? by {
      NoUnlinkLast(events);
    }
    if RenameFirst(init) {
      var i :| 0 <= i < |init| && init[i].RenameRuns? && NoUnlink(init[..i]);
      assert events[i] == init[i] && events[..i] == init[..i];
    }
    if RenameFirst(events) {
      var i :| 0 <= i < |events| && events[i].RenameRuns? && NoUnlink(events[..i]);
      assert i < |init| ==> init[i] == events[i] && init[..i] == events[..i];
    }
    if e.RenameRuns? && NoUnlink(init) {
      assert events[|init|].RenameRuns? && NoUnlink(events[..|init|]);
    }
  }

  lemma NoUnlinkLast(events: seq<Event>)
    requires events != []
    ensures NoUnlink(events) <==> NoUnlink(events[..|events| - 1]) && !events[|events| - 1].UnlinkRuns?
  {
  }

  /** After the abort: the rename ran first and the file is in place, or the part file still
      awaits it, or the deletion was faster. */
  ghost predicate RaceInv(r: Transfer, d: Transfer, renamed: bool, noUnlink: bool) {
    && d.undecided.None? && d.currentFileId == r.currentFileId && (d.state.Failed? || d.state.Done?)
    && (if renamed then d.final == r.part && d.part.None? && d.stage.NoStage?
        else d.final.None? && (d.stage.Renaming? || d.stage.NoStage?)
             && (if noUnlink then d.part == r.part && d.stage.Renaming? else d.part.None?))
  }

  lemma RaceStep(r: Transfer, d: Transfer, e: Event, renamed: bool, noUnlink: bool)
    requires r.part.Some? && RaceInv(r, d, renamed, noUnlink) && Possible(d, e)
    ensures RaceInv(r, Next(d, e), renamed || (e.RenameRuns? && noUnlink), noUnlink && !e.UnlinkRuns?)
  {
  }

  lemma {:induction false} RaceRun(r: Transfer, d: Transfer, more: seq<Event>)
    requires r.part.Some? && RaceInv(r, d, false, true) && Run(d, more).Some?
    ensures RaceInv(r, Run(d, more).value, RenameFirst(more), NoUnlink(more))
    decreases |more|
  {
    if more == [] {
    } else {
      hide RaceInv, RenameFirst, NoUnlink, Next, Possible;
      var init, e := more[..|more| - 1], more[|more| - 1];
      RaceRun(r, d, init);
      RaceLast(more);
      RaceStep(r, Run(d, init).value, e, RenameFirst(init), NoUnlink(init));
    }
  }

  /** An abort during the rename races with it. In every continuation the file gets into place
      exactly when the rename runs before the deletion that the abort started. */
  lemma {:induction false} AbortRaceIff(r: Transfer, reason: string, more: seq<Event>)
    requires Inv(r) && r.stage.Renaming? && r.part.Some? && r.currentFileId.Some?
    requires Run(Next(r, AbortArrives(r.currentFileId.value, reason)), more).Some?
    ensures var d := Run(Next(r, AbortArrives(r.currentFileId.value, reason)), more).value;
      && (d.final.Some? <==> RenameFirst(more))
      && (d.final.Some? ==> d.final == r.part)
  {
    var d := Next(r, AbortArrives(r.currentFileId.value, reason));
    assert RaceInv(r, d, false, true);
    hide Inv, Next;
    RaceRun(r, d, more);
  }

  // ── Runs that show it ────────────────────────────────────────────────────

  lemma RunNothing(r: Transfer)
    ensures Run(r, []) == Some(r)
  {
  }

  function AfterAccept(fileId: string, size: int, data: seq<byte>): (r: Transfer)
    requires size <= SIZE_LIMIT
    ensures r.state.Receiving? && r.currentFileId == Some(fileId) && r.expectedSha256 == Some(Sha256(data))
    ensures r.expectedSize == size && r.expectedSeq == 0 && r.streamOpen && r.savePath == "f"
    ensures r.hash == Some([]) && r.part == Some([]) && r.final.None?
  {
    Next(Next(Initial(true), OfferArrives(Offer(fileId, size, Sha256(data)), true)), Decided(Accepts("f"), true))
  }

  lemma OneChunkSuffices(r: Transfer, fileId: string, data: seq<byte>)
    requires r.state.Receiving? && r.currentFileId == Some(fileId) && r.expectedSha256 == Some(Sha256(data))
    requires r.expectedSeq == 0 && r.streamOpen && r.savePath == "f" && r.hash == Some([]) && r.part == Some([])
    requires r.final.None?
    ensures var r1 := Next(r, ChunkArrives(Chunk(fileId, 0, data), true));
      var r2 := Next(r1, DoneArrives(fileId));
      Possible(r2, StreamEnds(true))
      && var r3 := Next(r2, StreamEnds(true));
         r3.stage.Renaming? && r3.part == Some(data) && r3.final.None?
         && r3.currentFileId == Some(fileId) && r3.expectedSize == r.expectedSize
  {
    assert [] + data == data;
  }

  /** One chunk under an offer of any size within the limit, up to the rename. */
  function UntilRenaming(fileId: string, size: int, data: seq<byte>): seq<Event> {
    [] + [OfferArrives(Offer(fileId, size, Sha256(data)), true)] + [Decided(Accepts("f"), true)]
    + [ChunkArrives(Chunk(fileId, 0, data), true)] + [DoneArrives(fileId)] + [StreamEnds(true)]
  }

  lemma RenamingReached(fileId: string, size: int, data: seq<byte>)
    requires size <= SIZE_LIMIT
    ensures var end := Run(Initial(true), UntilRenaming(fileId, size, data));
      end.Some? && end.value.stage.Renaming? && end.value.part == Some(data) && end.value.final.None?
      && end.value.currentFileId == Some(fileId) && end.value.expectedSize == size
  {
    var offer := OfferArrives(Offer(fileId, size, Sha256(data)), true);
    var accept := Decided(Accepts("f"), true);
    var chunk := ChunkArrives(Chunk(fileId, 0, data), true);
    var r := Initial(true);
    assert Possible(Next(r, offer), accept) && Next(Next(r, offer), accept) == AfterAccept(fileId, size, data);
    OneChunkSuffices(AfterAccept(fileId, size, data), fileId, data);
    hide Run, Next, Initial, AfterAccept;
    RunNothing(r);
    RunSnoc(r, [], offer);
    var run := [] + [offer];
    RunSnoc(r, run, accept);
    run := run + [accept];
    RunSnoc(r, run, chunk);
    run := run + [chunk];
    RunSnoc(r, run, DoneArrives(fileId));
    run := run + [DoneArrives(fileId)];
    RunSnoc(r, run, StreamEnds(true));
  }

  /** The limit binds the offer's claim only: data of any length is received under an offer of any
      size within it. */
  lemma SizeNotEnforced(fileId: string, size: int, data: seq<byte>)
    requires size <= SIZE_LIMIT
    ensures var end := Run(Initial(true), UntilRenaming(fileId, size, data) + [RenameRuns]);
      end.Some? && end.value.state.Done? && end.value.final == Some(data) && end.value.expectedSize == size
  {
    RenamingReached(fileId, size, data);
    hide Run, UntilRenaming, Initial;
    RunSnoc(Initial(true), UntilRenaming(fileId, size, data), RenameRuns);
  }

  lemma RaceSteps(r: Transfer, reason: string)
    requires r.stage.Renaming? && r.part.Some? && r.currentFileId.Some? && r.final.None?
    ensures var r1 := Next(r, AbortArrives(r.currentFileId.value, reason));
      && Possible(r1, RenameRuns) && Next(r1, RenameRuns).state.Done? && Next(r1, RenameRuns).final == r.part
      && Possible(r1, UnlinkRuns) && Possible(Next(r1, UnlinkRuns), RenameRuns)
      && Next(Next(r1, UnlinkRuns), RenameRuns).state.Failed?
      && Next(Next(r1, UnlinkRuns), RenameRuns).final.None?
  {
  }

  /** Both outcomes occur in runs from the start, for every content. */
  lemma AbortRacesRename(fileId: string, size: int, data: seq<byte>, reason: string)
    requires size <= SIZE_LIMIT
    ensures var renamed := Run(Initial(true), UntilRenaming(fileId, size, data) + [AbortArrives(fileId, reason)]
                                              + [RenameRuns]);
      renamed.Some? && renamed.value.state.Done? && renamed.value.final == Some(data)
    ensures var deleted := Run(Initial(true), UntilRenaming(fileId, size, data) + [AbortArrives(fileId, reason)]
                                              + [UnlinkRuns] + [RenameRuns]);
      deleted.Some? && deleted.value.state.Failed? && deleted.value.final.None?
  {
    var before, abort := UntilRenaming(fileId, size, data), AbortArrives(fileId, reason);
    RenamingReached(fileId, size, data);
    RaceSteps(Run(Initial(true), before).value, reason);
    hide Run, UntilRenaming, Initial, Next;
    RunSnoc(Initial(true), before, abort);
    RunSnoc(Initial(true), before + [abort], RenameRuns);
    RunSnoc(Initial(true), before + [abort], UnlinkRuns);
    RunSnoc(Initial(true), before + [abort] + [UnlinkRuns], RenameRuns);
  }
}
