/** Sender and receiver together: two control directions and the bulk channel, each first in first
    out and reliable, with no order between them. */
module FileTransfer {
  import opened Prelude
  import opened FileMessages
  import S = FileSender
  import R = FileReceiver

  /** How many messages of each direction were delivered; `doneAt`: how many chunks had arrived when
      `file_done` ended the receiving. */
  datatype Net = Net(
    sender: S.Transfer,
    receiver: R.Transfer,
    toReceiver: nat,
    toSender: nat,
    bulk: nat,
    doneAt: Option<nat>)

  datatype Event =
    | AtSender(s: S.Event)
    | AtReceiver(r: R.Event)
    | ControlToReceiver(ok: bool)
    | ControlToSender
    | BulkToReceiver(ok: bool)

  function Initial(cfg: S.Config, hasCallback: bool): Net {
    Net(S.Initial(cfg), R.Initial(hasCallback), 0, 0, 0, None)
  }

  predicate Local(e: R.Event) {
    e.Decided? || e.StreamEnds? || e.StreamFails? || e.RenameRuns? || e.UnlinkRuns?
  }

  predicate Possible(n: Net, e: Event) {
    match e
    case AtSender(s) => !s.Message? && S.Possible(n.sender, s)
    case AtReceiver(r) => Local(r) && R.Possible(n.receiver, r)
    case ControlToReceiver(_) => n.toReceiver < |n.sender.control|
    case ControlToSender => n.toSender < |n.receiver.control|
    case BulkToReceiver(_) => n.bulk < |n.sender.chunks|
  }

  /** How the receiver handles a control message. */
  function Handled(r: R.Transfer, m: Control, ok: bool): R.Transfer {
    match m
    case Offer(_, _, _) => R.OnOffer(r, m, ok)
    case FileDone(id) => R.OnDone(r, id)
    case Abort(id, reason) => R.OnAbort(r, id, reason)
    case _ => r
  }

  function Next(n: Net, e: Event): Net
    requires Possible(n, e)
  {
    match e
    case AtSender(s) => n.(sender := S.Next(n.sender, s))
    case AtReceiver(r) => n.(receiver := R.Next(n.receiver, r))
    case ControlToReceiver(ok) =>
      var r := Handled(n.receiver, n.sender.control[n.toReceiver], ok);
      n.(receiver := r, toReceiver := n.toReceiver + 1,
         doneAt := if n.receiver.state.Receiving? && r.state.Verifying? then Some(n.bulk) else n.doneAt)
    case ControlToSender =>
      n.(sender := S.Next(n.sender, S.Message(n.receiver.control[n.toSender])), toSender := n.toSender + 1)
    case BulkToReceiver(ok) =>
      n.(receiver := R.OnChunk(n.receiver, n.sender.chunks[n.bulk], ok), bulk := n.bulk + 1)
  }

  function Run(n: Net, events: seq<Event>): Option<Net> {
    if events == [] then Some(n)
    else
      var init := Run(n, events[..|events| - 1]);
      var e := events[|events| - 1];
      if init.None? || !Possible(init.value, e) then None else Some(Next(init.value, e))
  }

  // ── The invariant ────────────────────────────────────────────────────────

  /** The receiver knows no other transfer than the sender's. */
  ghost predicate OfferInv(cfg: S.Config, r: R.Transfer, toReceiver: nat) {
    && (r.undecided.Some? ==> r.undecided.value == S.TheOffer(cfg))
    && (r.currentFileId.Some? ==> r.currentFileId.value == cfg.fileId && r.expectedSize == |cfg.file|
                                    && r.expectedSha256 == Some(Sha256(cfg.file)))
    && (toReceiver == 0 ==> r.state.Idle? && r.currentFileId.None?)
  }

  /** Chunks are taken as they were sent; while receiving, none was passed over. */
  ghost predicate ChunkInv(sent: seq<Chunk>, taken: seq<Chunk>, receiving: bool, bulk: nat) {
    && |taken| <= bulk <= |sent| && taken == sent[..|taken|]
    && (receiving ==> |taken| == bulk)
  }

  predicate Entered(s: S.Transfer) {
    s.chunks != [] || S.Chunking(s.at) || s.at.Crashed? || |s.control| >= 2
  }

  /** The loop starts only after an acceptance; the receiver aborts only after `file_done`. */
  ghost predicate TalkInv(s: S.Transfer, r: R.Transfer, doneAt: Option<nat>) {
    && (Entered(s) ==> r.currentFileId.Some?)
    && (forall i :: 0 <= i < |r.control| && r.control[i].Accept? ==> r.currentFileId.Some?)
    && (forall i :: 0 <= i < |r.control| && r.control[i].Abort? ==> doneAt.Some?)
    && !s.aborted
  }

  /** After `file_done` ended the receiving with `k` chunks, the outcome depends on `k` alone. */
  ghost predicate DoneInv(s: S.Transfer, r: R.Transfer, toReceiver: nat, doneAt: Option<nat>) {
    match doneAt
    case None => !r.state.Verifying? && !r.state.Done? && r.stage.NoStage?
    case Some(k) =>
      && s.state.Done? && toReceiver == 2 && |r.taken| == k <= |s.chunks| && r.currentFileId.Some?
      && (r.stage.Ending? ==> r.hash.Some? && r.part.Some? && r.state.Verifying?)
      && (r.stage.Renaming? ==> r.state.Verifying? && r.part.Some? && Concat(r.taken) == s.cfg.file)
      && (r.state.Verifying? || r.state.Done? || r.state.Failed?)
      && (r.state.Done? ==> Concat(r.taken) == s.cfg.file && r.stage.NoStage?)
      && (r.state.Failed? ==> r.failReason == Some("sha256_mismatch") && Concat(r.taken) != s.cfg.file && r.stage.NoStage?)
      && (r.unlinking ==> r.state.Failed?)
  }

  ghost predicate NetInv(n: Net) {
    && S.Inv(n.sender) && R.Inv(n.receiver)
    && n.toReceiver <= |n.sender.control|
    && OfferInv(n.sender.cfg, n.receiver, n.toReceiver)
    && ChunkInv(n.sender.chunks, n.receiver.taken, n.receiver.state.Receiving?, n.bulk)
    && TalkInv(n.sender, n.receiver, n.doneAt)
    && DoneInv(n.sender, n.receiver, n.toReceiver, n.doneAt)
  }

  // ── Every step keeps it ──────────────────────────────────────────────────

  /** What a step of the sender does to what the receiver depends on. */
  lemma SenderGrows(s: S.Transfer, e: S.Event)
    requires S.Inv(s) && S.Possible(s, e) && !e.Message?
    ensures var d := S.Next(s, e);
      && d.cfg == s.cfg && d.aborted == s.aborted && s.chunks <= d.chunks && s.control <= d.control
      && (Entered(d) ==> Entered(s))
      && (s.state.Done? ==> d == s)
  {
    hide S.DataInv;
  }

  lemma SenderStep(n: Net, e: S.Event)
    requires NetInv(n) && Possible(n, AtSender(e))
    ensures NetInv(Next(n, AtSender(e)))
  {
    S.InvStep(n.sender, e);
    SenderGrows(n.sender, e);
    // Hidden in the goal only, here and below: the steps before need the definitions.
    hide S.Inv, R.Inv, S.Possible, S.Next, Entered;
  }

  /** A message to the sender: an acceptance starts the loop, and an abort comes too late. */
  lemma SenderHears(s: S.Transfer, m: Control)
    requires S.Inv(s) && !s.aborted && (m.Abort? ==> s.state.Done?)
    ensures var d := S.Next(s, S.Message(m));
      && d.cfg == s.cfg && !d.aborted && s.chunks == d.chunks && s.control == d.control
      && (Entered(d) ==> Entered(s) || m.Accept?)
      && (s.state.Done? ==> d == s)
  {
    hide S.DataInv;
  }

  lemma ControlToSenderStep(n: Net)
    requires NetInv(n) && Possible(n, ControlToSender)
    ensures NetInv(Next(n, ControlToSender))
  {
    var m := n.receiver.control[n.toSender];
    S.MessageKeeps(n.sender, m);
    SenderHears(n.sender, m);
    hide S.Inv, R.Inv, S.Next, Entered;
  }

  /** A step of the receiver that leaves the accepted transfer, its chunks and its words alone. */
  predicate Quiet(r: R.Transfer, d: R.Transfer) {
    && d.undecided == r.undecided && d.currentFileId == r.currentFileId && d.expectedSha256 == r.expectedSha256
    && d.taken == r.taken && d.control == r.control
  }

  lemma DecidedStep(n: Net, d: R.Decision, ok: bool)
    requires NetInv(n) && Possible(n, AtReceiver(R.Decided(d, ok)))
    ensures NetInv(Next(n, AtReceiver(R.Decided(d, ok))))
  {
    var r, after := n.receiver, R.OnDecision(n.receiver, d, ok);
    R.InvStep(r, R.Decided(d, ok));
    assert r.currentFileId.None? && n.bulk == 0;
    hide S.Inv, R.Inv, Entered;
  }

  lemma StreamEndsStep(n: Net, ok: bool)
    requires NetInv(n) && Possible(n, AtReceiver(R.StreamEnds(ok)))
    ensures NetInv(Next(n, AtReceiver(R.StreamEnds(ok))))
  {
    R.InvStep(n.receiver, R.StreamEnds(ok));
    hide S.Inv, R.Inv, Entered;
  }

  lemma DiskStep(n: Net, e: R.Event)
    requires NetInv(n) && Possible(n, AtReceiver(e)) && (e.StreamFails? || e.RenameRuns? || e.UnlinkRuns?)
    ensures NetInv(Next(n, AtReceiver(e)))
  {
    R.InvStep(n.receiver, e);
    hide S.Inv, R.Inv, Entered;
  }

  lemma BulkStep(n: Net, ok: bool)
    requires NetInv(n) && Possible(n, BulkToReceiver(ok))
    ensures NetInv(Next(n, BulkToReceiver(ok)))
    ensures Next(n, BulkToReceiver(ok)).receiver == n.receiver || Next(n, BulkToReceiver(ok)).receiver == R.Take(n.receiver, n.sender.chunks[n.bulk])
  {
    R.InvStep(n.receiver, R.ChunkArrives(n.sender.chunks[n.bulk], ok));
    if n.receiver.state.Receiving? {
      NextChunkFits(n);
    }
    hide S.Inv, R.Inv, Entered;
  }

  lemma NextChunkFits(n: Net)
    requires NetInv(n) && n.bulk < |n.sender.chunks| && n.receiver.state.Receiving?
    ensures n.receiver.currentFileId == Some(n.sender.chunks[n.bulk].fileId)
    ensures n.sender.chunks[n.bulk].seqNum == n.receiver.expectedSeq
  {
  }

  lemma ControlShape(s: S.Transfer)
    requires S.Inv(s)
    ensures |s.control| <= 2
    ensures |s.control| >= 1 ==> s.control[0] == S.TheOffer(s.cfg)
    ensures |s.control| == 2 ==>
              || (s.control[1] == FileDone(s.cfg.fileId) && s.state.Done?)
              || (s.control[1] == Abort(s.cfg.fileId, "backpressure_timeout") && s.state.Failed?)
  {
    hide S.DataInv;
  }

  lemma OfferStep(n: Net, ok: bool)
    requires NetInv(n) && Possible(n, ControlToReceiver(ok)) && n.toReceiver == 0
    ensures NetInv(Next(n, ControlToReceiver(ok)))
  {
    ControlShape(n.sender);
    R.InvStep(n.receiver, R.OfferArrives(n.sender.control[0], ok));
    hide S.Inv, R.Inv, Entered;
  }

  lemma EndStep(n: Net, ok: bool)
    requires NetInv(n) && Possible(n, ControlToReceiver(ok)) && n.toReceiver > 0
    ensures NetInv(Next(n, ControlToReceiver(ok)))
  {
    ControlShape(n.sender);
    if n.sender.control[1].FileDone? {
      DoneStep(n, ok);
    } else {
      AbortStep(n, ok);
    }
    hide NetInv, Next;
  }

  lemma DoneStep(n: Net, ok: bool)
    requires NetInv(n) && Possible(n, ControlToReceiver(ok)) && n.toReceiver == 1 && n.sender.control[1].FileDone?
    ensures NetInv(Next(n, ControlToReceiver(ok)))
  {
    ControlShape(n.sender);
    R.InvStep(n.receiver, R.DoneArrives(n.sender.control[1].fileId));
    ReceivingIs(n.receiver);
    hide S.Inv, R.Inv, Entered;
  }

  lemma AbortStep(n: Net, ok: bool)
    requires NetInv(n) && Possible(n, ControlToReceiver(ok)) && n.toReceiver == 1 && n.sender.control[1].Abort?
    ensures NetInv(Next(n, ControlToReceiver(ok)))
  {
    ControlShape(n.sender);
    R.InvStep(n.receiver, R.AbortArrives(n.sender.control[1].fileId, n.sender.control[1].reason));
    hide S.Inv, R.Inv, Entered;
  }

  lemma ReceivingIs(r: R.Transfer)
    requires R.Inv(r)
    ensures r.state.Receiving? ==> r.hash.Some? && r.part.Some? && r.stage.NoStage? && !r.unlinking && r.currentFileId.Some?
  {
  }

  lemma NetInvStep(n: Net, e: Event)
    requires NetInv(n) && Possible(n, e)
    ensures NetInv(Next(n, e))
  {
    match e {
      case AtSender(s) => SenderStep(n, s);
      case AtReceiver(r) =>
        match r {
          case Decided(d, ok) => DecidedStep(n, d, ok);
          case StreamEnds(ok) => StreamEndsStep(n, ok);
          case _ => DiskStep(n, r);
        }
      case ControlToReceiver(ok) =>
        if n.toReceiver == 0 {
          OfferStep(n, ok);
        } else {
          EndStep(n, ok);
        }
      case ControlToSender => ControlToSenderStep(n);
      case BulkToReceiver(ok) => BulkStep(n, ok);
    }
    hide NetInv, Next;
  }

  lemma {:induction false} NetInvRun(n: Net, events: seq<Event>)
    requires NetInv(n) && Run(n, events).Some?
    ensures NetInv(Run(n, events).value)
    decreases |events|
  {
    if events == [] {
    } else {
      NetInvRun(n, events[..|events| - 1]);
      NetInvStep(Run(n, events[..|events| - 1]).value, events[|events| - 1]);
      hide NetInv, Next, Possible;
    }
  }

  lemma InitialInv(cfg: S.Config, hasCallback: bool)
    ensures NetInv(Initial(cfg, hasCallback))
  {
  }

  // ── Main results ─────────────────────────────────────────────────────────

  lemma {:induction false} ConfigKept(n: Net, events: seq<Event>)
    requires NetInv(n) && Run(n, events).Some?
    ensures Run(n, events).value.sender.cfg == n.sender.cfg
    decreases |events|
  {
    if events == [] {
    } else {
      var init, e := events[..|events| - 1], events[|events| - 1];
      ConfigKept(n, init);
      NetInvRun(n, init);
      var m := Run(n, init).value;
      if e.AtSender? {
        SenderGrows(m.sender, e.s);
      } else if e.ControlToSender? {
        SenderHears(m.sender, m.receiver.control[m.toSender]);
      }
      hide NetInv, S.Next, S.Inv, R.Inv;
    }
  }

  /** Every interleaving: what the receiver has written is a prefix of the file, a file at the save
      path is the whole file, and `done` is entered only with it in place. */
  lemma {:induction false} WrittenIsPrefix(cfg: S.Config, hasCallback: bool, events: seq<Event>)
    requires Run(Initial(cfg, hasCallback), events).Some?
    ensures var r := Run(Initial(cfg, hasCallback), events).value.receiver;
      && (r.part.Some? ==> r.part.value <= cfg.file)
      && (r.final.Some? ==> r.final.value == cfg.file)
      && (r.state.Done? ==> r.final == Some(cfg.file))
  {
    InitialInv(cfg, hasCallback);
    NetInvRun(Initial(cfg, hasCallback), events);
    ConfigKept(Initial(cfg, hasCallback), events);
    var n := Run(Initial(cfg, hasCallback), events).value;
    ConcatPrefix(n.sender.chunks, |n.receiver.taken|);
    TakenIsPrefix(n);
    hide S.Inv, NetInv, Run;
  }

  lemma TakenIsPrefix(n: Net)
    requires NetInv(n)
    ensures n.receiver.taken <= n.sender.chunks
    ensures Concat(n.sender.chunks) <= n.sender.cfg.file
    ensures n.receiver.part.Some? ==> n.receiver.part.value == Concat(n.receiver.taken)
    ensures n.receiver.final.Some? ==> n.receiver.final.value == n.sender.cfg.file
    ensures n.receiver.state.Done? ==> n.receiver.final.Some?
  {
  }

  /** With an honest sender no delivered chunk is ever out of sequence: it is written, or the
      receiver has stopped receiving and ignores it. */
  lemma {:induction false} GapUnreachable(cfg: S.Config, hasCallback: bool, events: seq<Event>, ok: bool)
    requires Run(Initial(cfg, hasCallback), events + [BulkToReceiver(ok)]).Some?
    ensures Run(Initial(cfg, hasCallback), events).Some?
    ensures var n := Run(Initial(cfg, hasCallback), events).value;
      var r := Run(Initial(cfg, hasCallback), events + [BulkToReceiver(ok)]).value.receiver;
      && n.bulk < |n.sender.chunks|
      && r == if n.receiver.state.Receiving? then R.Take(n.receiver, n.sender.chunks[n.bulk]) else n.receiver
  {
    var all := events + [BulkToReceiver(ok)];
    assert all[..|events|] == events;
    InitialInv(cfg, hasCallback);
    NetInvRun(Initial(cfg, hasCallback), events);
    var n := Run(Initial(cfg, hasCallback), events).value;
    if n.receiver.state.Receiving? {
      NextChunkFits(n);
      ReceivingIs(n.receiver);
    }
    hide NetInv, Run;
  }

  /** `file_done` may overtake chunks. Once it ended the receiving after `k` of them, the receiver
      finishes in `done` if those were all chunks of the whole file and in `sha256_mismatch`
      otherwise, never with a truncated file in place. */
  lemma OutcomeFollowsArrivals(cfg: S.Config, hasCallback: bool, events: seq<Event>)
    requires Run(Initial(cfg, hasCallback), events).Some?
    requires Run(Initial(cfg, hasCallback), events).value.doneAt.Some?
    ensures var n := Run(Initial(cfg, hasCallback), events).value;
      var complete := n.doneAt.value == |n.sender.chunks| && (cfg.chunkSize > 0 || cfg.file == []);
      && (n.receiver.state.Done? || n.receiver.state.Failed? || n.receiver.state.Verifying?)
      && (n.receiver.state.Done? ==> complete && n.receiver.final == Some(cfg.file))
      && (n.receiver.state.Failed? ==>
            !complete && n.receiver.final.None? && n.receiver.failReason == Some("sha256_mismatch"))
  {
    InitialInv(cfg, hasCallback);
    NetInvRun(Initial(cfg, hasCallback), events);
    ConfigKept(Initial(cfg, hasCallback), events);
    OutcomeAt(Run(Initial(cfg, hasCallback), events).value);
    hide NetInv, Run;
  }

  lemma OutcomeAt(n: Net)
    requires NetInv(n) && n.doneAt.Some?
    ensures var complete := n.doneAt.value == |n.sender.chunks| && (n.sender.cfg.chunkSize > 0 || n.sender.cfg.file == []);
      && (n.receiver.state.Done? || n.receiver.state.Failed? || n.receiver.state.Verifying?)
      && (n.receiver.state.Done? ==> complete && n.receiver.final == Some(n.sender.cfg.file))
      && (n.receiver.state.Failed? ==>
            !complete && n.receiver.final.None? && n.receiver.failReason == Some("sha256_mismatch"))
  {
    CompleteIff(n);
    TakenIsPrefix(n);
    FailedHasNoFile(n);
    hide S.Inv, R.Inv, ChunkInv, TalkInv, OfferInv;
  }

  lemma CompleteIff(n: Net)
    requires NetInv(n) && n.doneAt.Some?
    ensures Concat(n.receiver.taken) == n.sender.cfg.file
       <==> n.doneAt.value == |n.sender.chunks| && (n.sender.cfg.chunkSize > 0 || n.sender.cfg.file == [])
  {
    var chunks, k := n.sender.chunks, n.doneAt.value;
    S.WholeIff(n.sender);
    TakenIsPrefix(n);
    if k < |chunks| {
      ConcatShorter(chunks, k);
    } else {
      assert n.receiver.taken == chunks;
    }
  }

  lemma FailedHasNoFile(n: Net)
    requires NetInv(n) && n.doneAt.Some?
    ensures n.receiver.state.Failed? ==> n.receiver.final.None?
  {
    TakenIsPrefix(n);
    assert n.receiver.final.Some? ==> n.receiver.final.value == Concat(n.receiver.taken);
  }

  /** Against an honest receiver the sender's abort race never shows: the only abort it can be sent
      arrives after `file_done`, so its listener is restored unless the hash failed. */
  lemma SenderNeverAborted(cfg: S.Config, hasCallback: bool, events: seq<Event>)
    requires Run(Initial(cfg, hasCallback), events).Some?
    ensures var s := Run(Initial(cfg, hasCallback), events).value.sender;
      && !s.aborted
      && (s.at.Finished? ==> (s.room == S.AppHandler <==> s.settles != [S.Rejects(S.HashError)]))
  {
    InitialInv(cfg, hasCallback);
    NetInvRun(Initial(cfg, hasCallback), events);
    hide R.Inv, Run;
  }

  lemma RunSnoc(n: Net, events: seq<Event>, e: Event)
    requires Run(n, events).Some? && Possible(Run(n, events).value, e)
    ensures Run(n, events + [e]) == Some(Next(Run(n, events).value, e))
  {
    assert (events + [e])[..|events|] == events;
  }

  /** The end of receiving: the hash is that of what was taken, and decides. */
  lemma EndOfReceiving(n: Net, ok: bool)
    requires NetInv(n) && n.receiver.state.Receiving? && n.receiver.savePath != ""
    requires n.sender.state.Done? && n.toReceiver == 1
    ensures Possible(n, ControlToReceiver(ok))
    ensures var m := Next(n, ControlToReceiver(ok));
      && NetInv(m) && m.doneAt == Some(n.bulk) && m.sender == n.sender && m.receiver.stage.Ending?
      && Possible(m, AtReceiver(R.StreamEnds(ok)))
  {
    ControlShape(n.sender);
    SenderDone(n.sender);
    ReceivingIs(n.receiver);
    NetInvStep(n, ControlToReceiver(ok));
    assert n.receiver.streamOpen && n.receiver.expectedSha256.Some?;
    hide S.Inv, NetInv, TalkInv, ChunkInv, DoneInv;
  }

  lemma SenderDone(s: S.Transfer)
    requires S.Inv(s) && s.state.Done?
    ensures s.control == [S.TheOffer(s.cfg), FileDone(s.cfg.fileId)]
  {
    hide S.DataInv;
  }

  lemma StreamEndDecides(n: Net, ok: bool)
    requires NetInv(n) && n.receiver.stage.Ending? && n.doneAt.Some?
    ensures var m := Next(n, AtReceiver(R.StreamEnds(ok)));
      && NetInv(m) && m.sender == n.sender && m.doneAt == n.doneAt
      && (m.receiver.stage.Renaming? <==>
            n.doneAt.value == |n.sender.chunks| && (n.sender.cfg.chunkSize > 0 || n.sender.cfg.file == []))
      && (!m.receiver.stage.Renaming? ==> m.receiver.failReason == Some("sha256_mismatch"))
  {
    NetInvStep(n, AtReceiver(R.StreamEnds(ok)));
    CompleteIff(n);
    HashedIsTaken(n);
    hide S.Inv, R.Inv, NetInv, DoneInv, ChunkInv, TalkInv;
  }

  lemma HashedIsTaken(n: Net)
    requires NetInv(n) && n.receiver.stage.Ending?
    ensures n.receiver.hash == Some(Concat(n.receiver.taken)) && n.receiver.currentFileId.Some?
    ensures n.receiver.expectedSha256 == Some(Sha256(n.sender.cfg.file))
  {
  }

  /** `file_done` before the last chunk: the transfer is lost, although the sender is `done`. */
  lemma OvertakenLoses(n: Net, ok: bool)
    requires NetInv(n) && n.sender.state.Done? && n.toReceiver == 1
    requires n.receiver.state.Receiving? && n.receiver.savePath != "" && n.bulk < |n.sender.chunks|
    ensures var m := Run(n, [] + [ControlToReceiver(ok)] + [AtReceiver(R.StreamEnds(ok))]);
      m.Some? && m.value.receiver.failReason == Some("sha256_mismatch")
  {
    EndOfReceiving(n, ok);
    StreamEndDecides(Next(n, ControlToReceiver(ok)), ok);
    hide Next, Possible, NetInv;
    assert Run(n, []) == Some(n);
    RunSnoc(n, [], ControlToReceiver(ok));
    RunSnoc(n, [] + [ControlToReceiver(ok)], AtReceiver(R.StreamEnds(ok)));
  }

  /** The same messages with the chunks first: the transfer completes. */
  lemma InOrderCompletes(n: Net, ok: bool)
    requires NetInv(n) && n.sender.state.Done? && n.toReceiver == 1 && n.sender.cfg.chunkSize > 0
    requires n.receiver.state.Receiving? && n.receiver.savePath != "" && n.bulk == |n.sender.chunks|
    ensures var m := Run(n, [] + [ControlToReceiver(ok)] + [AtReceiver(R.StreamEnds(ok))] + [AtReceiver(R.RenameRuns)]);
      m.Some? && m.value.receiver.state.Done? && m.value.receiver.final == Some(n.sender.cfg.file)
  {
    EndOfReceiving(n, ok);
    var n1 := Next(n, ControlToReceiver(ok));
    StreamEndDecides(n1, ok);
    var n2 := Next(n1, AtReceiver(R.StreamEnds(ok)));
    RenameCompletes(n2);
    hide Next, Possible, NetInv;
    assert Run(n, []) == Some(n);
    RunSnoc(n, [], ControlToReceiver(ok));
    RunSnoc(n, [] + [ControlToReceiver(ok)], AtReceiver(R.StreamEnds(ok)));
    RunSnoc(n, [] + [ControlToReceiver(ok)] + [AtReceiver(R.StreamEnds(ok))], AtReceiver(R.RenameRuns));
  }

  lemma RenameCompletes(n: Net)
    requires NetInv(n) && n.receiver.stage.Renaming? && n.doneAt.Some?
    ensures Possible(n, AtReceiver(R.RenameRuns))
    ensures var m := Next(n, AtReceiver(R.RenameRuns));
      m.receiver.state.Done? && m.receiver.final == Some(n.sender.cfg.file)
  {
    NetInvStep(n, AtReceiver(R.RenameRuns));
    TakenIsPrefix(Next(n, AtReceiver(R.RenameRuns)));
    hide NetInv, S.Inv, R.Inv;
  }

  /** With an honest sender the size that the receiver never checks is right. */
  lemma {:induction false} HonestLength(cfg: S.Config, hasCallback: bool, events: seq<Event>)
    requires Run(Initial(cfg, hasCallback), events).Some?
    requires Run(Initial(cfg, hasCallback), events).value.receiver.final.Some?
    ensures var r := Run(Initial(cfg, hasCallback), events).value.receiver;
      |r.final.value| == r.expectedSize <= R.SIZE_LIMIT
  {
    InitialInv(cfg, hasCallback);
    NetInvRun(Initial(cfg, hasCallback), events);
    TakenIsPrefix(Run(Initial(cfg, hasCallback), events).value);
    StartedSize(Run(Initial(cfg, hasCallback), events).value);
    hide NetInv, Run;
  }

  lemma StartedSize(n: Net)
    requires NetInv(n) && n.receiver.final.Some?
    ensures n.receiver.expectedSize == |n.sender.cfg.file| <= R.SIZE_LIMIT
  {
    hide S.Inv, ChunkInv, TalkInv, DoneInv;
  }

  // ── Overtaking, from the start ───────────────────────────────────────────

  /** Offer, acceptance and a file that fits one chunk; nothing of the bulk channel delivered. */
  function UntilSent(cfg: S.Config): seq<Event> {
    [] + [AtSender(S.CallSend(true))] + [AtSender(S.HashDone(true))] + [ControlToReceiver(true)]
    + [AtReceiver(R.Decided(R.Accepts("f"), true))] + [ControlToSender] + [AtSender(S.OpenDone(true))]
    + [AtSender(S.ReadDone(|cfg.file|, true))] + [AtSender(S.Transmitted(true))]
  }

  lemma OfferTaken(cfg: S.Config)
    requires |cfg.file| <= R.SIZE_LIMIT
    ensures var r := R.OnDecision(R.OnOffer(R.Initial(true), S.TheOffer(cfg), true), R.Accepts("f"), true);
      r.state.Receiving? && r.savePath == "f" && r.control == [Accept(cfg.fileId)]
    ensures R.OnOffer(R.Initial(true), S.TheOffer(cfg), true).undecided == Some(S.TheOffer(cfg))
    ensures !R.OnOffer(R.Initial(true), S.TheOffer(cfg), true).state.Verifying?
  {
  }

  /** The sender's side of it, event by event. */
  lemma AcceptSide(cfg: S.Config)
    ensures var s1 := S.Next(S.Initial(cfg), S.CallSend(true));
      S.Possible(s1, S.HashDone(true))
      && var s2 := S.Next(s1, S.HashDone(true));
         s2.control == [S.TheOffer(cfg)] && s2.cfg == cfg
         && S.Next(s2, S.Message(Accept(cfg.fileId))) == S.Accepted(cfg)
  {
    assert [] + [S.TheOffer(cfg)] == [S.TheOffer(cfg)];
  }

  lemma SenderSide(cfg: S.Config)
    requires 0 < |cfg.file| <= cfg.chunkSize
    ensures var s4 := S.Accepted(cfg).(at := S.Reading);
      && S.Next(S.Accepted(cfg), S.OpenDone(true)) == s4 && S.Possible(s4, S.ReadDone(|cfg.file|, true))
      && var s5 := S.Next(s4, S.ReadDone(|cfg.file|, true));
         S.Possible(s5, S.Transmitted(true))
         && var s6 := S.Next(s5, S.Transmitted(true));
            s6.state.Done? && |s6.chunks| == 1 && |s6.control| == 2 && s6.settles == [S.Resolves] && s6.cfg == cfg
  {
    assert [] + [S.Resolves] == [S.Resolves];
    assert cfg.file[0..|cfg.file|] == cfg.file;
  }

  lemma {:induction false} RunConcat(n: Net, before: seq<Event>, more: seq<Event>)
    requires Run(n, before).Some? && Run(Run(n, before).value, more).Some?
    ensures Run(n, before + more) == Run(Run(n, before).value, more)
    decreases |more|
  {
    if more == [] {
      assert before + more == before;
    } else {
      hide Next, Possible;
      var init := more[..|more| - 1];
      assert (before + more)[..|before + more| - 1] == before + init;
      RunConcat(n, before, init);
    }
  }

  lemma SentReached(cfg: S.Config)
    requires 0 < |cfg.file| <= cfg.chunkSize && |cfg.file| <= R.SIZE_LIMIT
    ensures var n := Run(Initial(cfg, true), UntilSent(cfg));
      && n.Some? && n.value.sender.state.Done? && n.value.sender.settles == [S.Resolves] && n.value.sender.cfg == cfg
      && |n.value.sender.chunks| == 1 && n.value.bulk == 0 && n.value.toReceiver == 1
      && n.value.receiver.state.Receiving? && n.value.receiver.savePath == "f"
  {
    var n := Initial(cfg, true);
    AcceptSide(cfg);
    SenderSide(cfg);
    OfferTaken(cfg);
    var s1 := S.Next(S.Initial(cfg), S.CallSend(true));
    var s2 := S.Next(s1, S.HashDone(true));
    var s4 := S.Accepted(cfg).(at := S.Reading);
    var s5 := S.Next(s4, S.ReadDone(|cfg.file|, true));
    var s6 := S.Next(s5, S.Transmitted(true));
    var r1 := R.OnOffer(R.Initial(true), S.TheOffer(cfg), true);
    var r2 := R.OnDecision(r1, R.Accepts("f"), true);
    assert S.Possible(S.Accepted(cfg), S.OpenDone(true)) && R.Initial(true).state.Idle?;
    hide S.Next, S.Possible, R.OnOffer, R.OnDecision, S.Accepted, R.Initial, S.Initial, Run;
    assert Run(n, []) == Some(n) by {
      RunNothing(n);
    }
    RunSnoc(n, [], AtSender(S.CallSend(true)));
    var run := [] + [AtSender(S.CallSend(true))];
    RunSnoc(n, run, AtSender(S.HashDone(true)));
    run := run + [AtSender(S.HashDone(true))];
    RunSnoc(n, run, ControlToReceiver(true));
    run := run + [ControlToReceiver(true)];
    RunSnoc(n, run, AtReceiver(R.Decided(R.Accepts("f"), true)));
    run := run + [AtReceiver(R.Decided(R.Accepts("f"), true))];
    RunSnoc(n, run, ControlToSender);
    run := run + [ControlToSender];
    RunSnoc(n, run, AtSender(S.OpenDone(true)));
    run := run + [AtSender(S.OpenDone(true))];
    RunSnoc(n, run, AtSender(S.ReadDone(|cfg.file|, true)));
    run := run + [AtSender(S.ReadDone(|cfg.file|, true))];
    RunSnoc(n, run, AtSender(S.Transmitted(true)));
  }

  lemma RunNothing(n: Net)
    ensures Run(n, []) == Some(n)
  {
  }

  /** From the start, for every file that fits one chunk: the same transfer, its promise resolved,
      is lost when `file_done` arrives first and completes when the chunk does. */
  lemma OvertakingIsReachable(cfg: S.Config, ok: bool)
    requires 0 < |cfg.file| <= cfg.chunkSize && |cfg.file| <= R.SIZE_LIMIT
    ensures var lost := Run(Initial(cfg, true),
                            UntilSent(cfg) + ([] + [ControlToReceiver(ok)] + [AtReceiver(R.StreamEnds(ok))]));
      lost.Some? && lost.value.receiver.failReason == Some("sha256_mismatch")
    ensures var kept := Run(Initial(cfg, true),
                            UntilSent(cfg) + [BulkToReceiver(ok)]
                            + ([] + [ControlToReceiver(ok)] + [AtReceiver(R.StreamEnds(ok))] + [AtReceiver(R.RenameRuns)]));
      kept.Some? && kept.value.receiver.state.Done? && kept.value.receiver.final == Some(cfg.file)
  {
    var start, before := Initial(cfg, true), UntilSent(cfg);
    SentReached(cfg);
    InitialInv(cfg, true);
    NetInvRun(start, before);
    var n := Run(start, before).value;
    OvertakenLoses(n, ok);
    ChunkArrives(n, ok);
    InOrderCompletes(Next(n, BulkToReceiver(ok)), ok);
    hide Run, UntilSent, Next, NetInv, Initial;
    RunConcat(start, before, [] + [ControlToReceiver(ok)] + [AtReceiver(R.StreamEnds(ok))]);
    RunSnoc(start, before, BulkToReceiver(ok));
    RunConcat(start, before + [BulkToReceiver(ok)],
              [] + [ControlToReceiver(ok)] + [AtReceiver(R.StreamEnds(ok))] + [AtReceiver(R.RenameRuns)]);
  }

  lemma ChunkArrives(n: Net, ok: bool)
    requires NetInv(n) && n.bulk < |n.sender.chunks| && n.receiver.state.Receiving?
    ensures Possible(n, BulkToReceiver(ok))
    ensures var m := Next(n, BulkToReceiver(ok));
      && NetInv(m) && m.sender == n.sender && m.toReceiver == n.toReceiver && m.bulk == n.bulk + 1
      && m.receiver.state.Receiving? && m.receiver.savePath == n.receiver.savePath
  {
    NetInvStep(n, BulkToReceiver(ok));
    NextChunkFits(n);
    hide NetInv;
  }

  // ── The sender's timeout ─────────────────────────────────────────────────

  /** In every run the sender's timeout abort, once delivered, stops the receiver: it fails with that
      reason, drops its hash and deletes what it has written. */
  lemma {:induction false} TimeoutStopsReceiver(cfg: S.Config, hasCallback: bool, events: seq<Event>, ok: bool)
    requires Run(Initial(cfg, hasCallback), events).Some?
    requires var n := Run(Initial(cfg, hasCallback), events).value;
      n.toReceiver == 1 && |n.sender.control| == 2 && n.sender.control[1].Abort?
    ensures var end := Run(Initial(cfg, hasCallback), events + [ControlToReceiver(ok)]);
      && end.Some? && end.value.receiver.state.Failed?
      && end.value.receiver.failReason == Some("peer_aborted: " + "backpressure_timeout")
      && end.value.receiver.hash.None? && !end.value.receiver.streamOpen && end.value.receiver.unlinking
  {
    InitialInv(cfg, hasCallback);
    NetInvRun(Initial(cfg, hasCallback), events);
    var n := Run(Initial(cfg, hasCallback), events).value;
    ControlShape(n.sender);
    RunSnoc(Initial(cfg, hasCallback), events, ControlToReceiver(ok));
    hide Run, Initial, S.Inv, R.Inv, ChunkInv, DoneInv;
  }

  /** From the start, for every non-empty file within the limits: a timeout in the first chunk. */
  function UntilTimeout(cfg: S.Config): seq<Event> {
    [] + [AtSender(S.CallSend(true))] + [AtSender(S.HashDone(true))] + [ControlToReceiver(true)]
    + [AtReceiver(R.Decided(R.Accepts("f"), true))] + [ControlToSender] + [AtSender(S.OpenDone(true))]
    + [AtSender(S.ReadDone(1, true))] + [AtSender(S.TransmitTimesOut(true))]
  }

  lemma TimeoutSide(cfg: S.Config)
    requires 0 < |cfg.file| && 0 < cfg.chunkSize
    ensures S.Possible(S.Accepted(cfg), S.OpenDone(true))
    ensures var s4 := S.Next(S.Accepted(cfg), S.OpenDone(true));
      S.Possible(s4, S.ReadDone(1, true))
      && var s5 := S.Next(s4, S.ReadDone(1, true));
         S.Possible(s5, S.TransmitTimesOut(true))
         && var s6 := S.Next(s5, S.TransmitTimesOut(true));
            s6.control == [S.TheOffer(cfg), Abort(cfg.fileId, "backpressure_timeout")] && s6.settles == [S.Rejects(S.TimedOut)]
  {
    assert [S.TheOffer(cfg)] + [Abort(cfg.fileId, "backpressure_timeout")]
        == [S.TheOffer(cfg), Abort(cfg.fileId, "backpressure_timeout")];
    assert [] + [S.Rejects(S.TimedOut)] == [S.Rejects(S.TimedOut)];
  }

  lemma TimeoutReachable(cfg: S.Config, ok: bool)
    requires 0 < |cfg.file| <= R.SIZE_LIMIT && 0 < cfg.chunkSize
    ensures var sent := Run(Initial(cfg, true), UntilTimeout(cfg));
      && sent.Some? && sent.value.receiver.state.Receiving? && sent.value.sender.settles == [S.Rejects(S.TimedOut)]
    ensures var end := Run(Initial(cfg, true), UntilTimeout(cfg) + [ControlToReceiver(ok)]);
      end.Some? && end.value.receiver.state.Failed? && end.value.receiver.unlinking
  {
    var n := Initial(cfg, true);
    AcceptSide(cfg);
    TimeoutSide(cfg);
    OfferTaken(cfg);
    assert R.Initial(true).state.Idle?;
    var before := UntilTimeout(cfg);
    assert Run(n, before).Some? && Run(n, before).value.receiver.state.Receiving?
        && Run(n, before).value.sender.settles == [S.Rejects(S.TimedOut)] && Run(n, before).value.toReceiver == 1
        && |Run(n, before).value.sender.control| == 2 && Run(n, before).value.sender.control[1].Abort? by {
      hide S.Next, S.Possible, R.OnOffer, R.OnDecision, S.Accepted, R.Initial, S.Initial, Run;
      RunNothing(n);
      var run: seq<Event> := [];
      RunSnoc(n, run, AtSender(S.CallSend(true)));
      run := run + [AtSender(S.CallSend(true))];
      RunSnoc(n, run, AtSender(S.HashDone(true)));
      run := run + [AtSender(S.HashDone(true))];
      RunSnoc(n, run, ControlToReceiver(true));
      run := run + [ControlToReceiver(true)];
      RunSnoc(n, run, AtReceiver(R.Decided(R.Accepts("f"), true)));
      run := run + [AtReceiver(R.Decided(R.Accepts("f"), true))];
      RunSnoc(n, run, ControlToSender);
      run := run + [ControlToSender];
      RunSnoc(n, run, AtSender(S.OpenDone(true)));
      run := run + [AtSender(S.OpenDone(true))];
      RunSnoc(n, run, AtSender(S.ReadDone(1, true)));
      run := run + [AtSender(S.ReadDone(1, true))];
      RunSnoc(n, run, AtSender(S.TransmitTimesOut(true)));
    }
    TimeoutStopsReceiver(cfg, true, before, ok);
  }
}
