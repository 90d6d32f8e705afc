/** The sending side of a file transfer: offer, chunk loop, abort flag and listener swapping. */
module FileSender {
  import opened Prelude
  import opened FileMessages

  datatype Phase = Idle | AwaitingAccept | Sending | Done | Failed

  /** Whose function `roomSession.onRoomMessage` is. */
  datatype Handler = NoHandler | AppHandler | SenderHandler

  /** Where an async routine is suspended; `Crashed`: the open failed outside the `try`. */
  datatype Suspended =
    | Nowhere
    | Hashing
    | Opening
    | Reading
    | Transmitting(data: seq<byte>)
    | Finished
    | Crashed

  datatype Why = HashError | OfferError | RejectedByPeer | AbortedByPeer | AbortNoticed | IoError | TimedOut

  datatype Settle = Resolves | Rejects(why: Why)

  datatype Config = Config(fileId: string, file: seq<byte>, chunkSize: nat)

  datatype Transfer = Transfer(
    cfg: Config,
    state: Phase,
    aborted: bool,
    bytesSent: nat,
    totalBytes: nat,
    position: nat,
    seqNum: nat,
    at: Suspended,
    room: Handler,
    original: Handler,
    control: seq<Control>,
    chunks: seq<Chunk>,
    settles: seq<Settle>)

  function Initial(cfg: Config): Transfer {
    Transfer(cfg, Idle, false, 0, 0, 0, 0, Nowhere, AppHandler, NoHandler, [], [], [])
  }

  /** `ok`: whether the control message the step may send goes out. */
  datatype Event =
    | CallSend(hasBulk: bool)
    | HashDone(ok: bool)
    | HashFails
    | Message(msg: Control)
    | OpenDone(ok: bool)
    | OpenFails
    | ReadDone(n: nat, ok: bool)
    | ReadFails
    | Transmitted(ok: bool)
    | TransmitFails
    | TransmitTimesOut(ok: bool)

  // ── Steps ────────────────────────────────────────────────────────────────

  /** What a suspended routine can resume with. The file does not change, so a read of a position
      inside it returns at least one byte unless it asks for none. */
  predicate Possible(t: Transfer, e: Event) {
    match e
    case HashDone(_) => t.at.Hashing?
    case HashFails => t.at.Hashing?
    case OpenDone(_) => t.at.Opening?
    case OpenFails => t.at.Opening?
    case ReadDone(n, _) =>
      && t.at.Reading?
      && n <= t.cfg.chunkSize && t.position + n <= |t.cfg.file|
      && (n == 0 ==> t.cfg.chunkSize == 0)
    case ReadFails => t.at.Reading?
    case Transmitted(_) => t.at.Transmitting?
    case TransmitFails => t.at.Transmitting?
    case TransmitTimesOut(_) => t.at.Transmitting?
    case _ => true
  }

  function Cleanup(t: Transfer): Transfer {
    t.(room := t.original, original := NoHandler)
  }

  function Settled(t: Transfer, s: Settle): Transfer {
    t.(settles := t.settles + [s])
  }

  function Fail(t: Transfer, why: Why): Transfer {
    Settled(Cleanup(t.(state := Failed, at := Finished)), Rejects(why))
  }

  function Finish(t: Transfer, ok: bool): Transfer {
    if !ok then Fail(t, IoError)
    else
      Settled(Cleanup(t.(control := t.control + [FileDone(t.cfg.fileId)], state := Done, at := Finished)), Resolves)
  }

  function LoopTop(t: Transfer, ok: bool): Transfer {
    if t.position >= t.totalBytes then Finish(t, ok)
    else if t.aborted then Fail(t, AbortNoticed)
    else t.(at := Reading)
  }

  function OnMessage(t: Transfer, msg: Control): Transfer {
    if msg.Abort? && msg.fileId == t.cfg.fileId then
      Settled(Cleanup(t.(aborted := true, state := Failed)), Rejects(AbortedByPeer))
    else if t.state != AwaitingAccept then t
    else if msg == Accept(t.cfg.fileId) then t.(state := Sending, at := Opening)
    else if msg.Reject? && msg.fileId == t.cfg.fileId then
      Settled(Cleanup(t.(state := Failed)), Rejects(RejectedByPeer))
    else t
  }

  function Next(t: Transfer, e: Event): Transfer
    requires Possible(t, e)
  {
    match e
    case CallSend(hasBulk) =>
      if t.state != Idle || !hasBulk then t else t.(state := AwaitingAccept, at := Hashing)
    case HashDone(ok) =>
      var t1 := t.(totalBytes := |t.cfg.file|, original := t.room, room := SenderHandler);
      if ok then t1.(control := t.control + [Offer(t.cfg.fileId, |t.cfg.file|, Sha256(t.cfg.file))], at := Nowhere)
      else Fail(t1, OfferError)
    case HashFails => Fail(t, HashError)
    case Message(msg) => if t.room == SenderHandler then OnMessage(t, msg) else t
    case OpenDone(ok) => LoopTop(t, ok)
    case OpenFails => t.(at := Crashed)
    case ReadDone(n, ok) =>
      if n == 0 then Finish(t, ok)
      else t.(at := Transmitting(t.cfg.file[t.position..t.position + n]))
    case ReadFails => Fail(t, IoError)
    case Transmitted(ok) =>
      var data := t.at.data;
      var t1 := t.(chunks := t.chunks + [Chunk(t.cfg.fileId, t.seqNum, data)],
                   bytesSent := t.bytesSent + |data|, seqNum := t.seqNum + 1, position := t.position + |data|);
      LoopTop(t1, ok)
    case TransmitFails => Fail(t, IoError)
    case TransmitTimesOut(ok) =>
      var t1 := Fail(t, TimedOut);
      if ok then t1.(control := t.control + [Abort(t.cfg.fileId, "backpressure_timeout")]) else t1
  }

  /** The state after `events`, unless one of them could not happen. */
  function Run(t: Transfer, events: seq<Event>): Option<Transfer> {
    if events == [] then Some(t)
    else
      var init := Run(t, events[..|events| - 1]);
      var e := events[|events| - 1];
      if init.None? || !Possible(init.value, e) then None else Some(Next(init.value, e))
  }

  // ── The sender object ────────────────────────────────────────────────────

  class Sender {
    const cfg: Config
    var state: Phase
    var aborted: bool
    var bytesSent: nat
    var totalBytes: nat
    var position: nat
    var seqNum: nat
    var at: Suspended
    var onRoomMessage: Handler
    var originalOnRoomMessage: Handler
    var control: seq<Control>
    var chunks: seq<Chunk>
    var settles: seq<Settle>

    function Contents(): Transfer
      reads this
    {
      Transfer(cfg, state, aborted, bytesSent, totalBytes, position, seqNum, at,
               onRoomMessage, originalOnRoomMessage, control, chunks, settles)
    }

    constructor (cfg: Config)
      ensures Contents() == Initial(cfg) && this.cfg == cfg
    {
      this.cfg := cfg;
      state, aborted, bytesSent, totalBytes, position, seqNum, at := Idle, false, 0, 0, 0, 0, Nowhere;
      onRoomMessage, originalOnRoomMessage, control, chunks, settles := AppHandler, NoHandler, [], [], [];
    }

    method RestoreListener()
      modifies this`onRoomMessage, this`originalOnRoomMessage
      ensures Contents() == Cleanup(old(Contents()))
    {
      onRoomMessage := originalOnRoomMessage;
      originalOnRoomMessage := NoHandler;
    }

    method Settle(s: Settle)
      modifies this`settles
      ensures Contents() == Settled(old(Contents()), s)
    {
      settles := settles + [s];
    }

    /** The `catch` branch. */
    method GiveUp(why: Why)
      modifies this
      ensures Contents() == Fail(old(Contents()), why) && at == Finished
    {
      state := Failed;
      at := Finished;
      RestoreListener();
      Settle(Rejects(why));
    }

    method Send(hasBulk: bool) returns (started: bool)
      modifies this
      ensures Contents() == Next(old(Contents()), CallSend(hasBulk))
      ensures started == (old(state) == Idle && hasBulk)
    {
      if state != Idle {
        return false;
      }
      if !hasBulk {
        return false;
      }
      state := AwaitingAccept;
      at := Hashing;
      started := true;
    }

    method OnHashed(ok: bool)
      requires Possible(Contents(), HashDone(ok))
      modifies this
      ensures Contents() == Next(old(Contents()), HashDone(ok))
    {
      totalBytes := |cfg.file|;
      originalOnRoomMessage := onRoomMessage;
      onRoomMessage := SenderHandler;
      if ok {
        control := control + [Offer(cfg.fileId, totalBytes, Sha256(cfg.file))];
        at := Nowhere;
      } else {
        GiveUp(OfferError);
      }
    }

    method OnHashFailed()
      requires Possible(Contents(), HashFails)
      modifies this
      ensures Contents() == Next(old(Contents()), HashFails)
    {
      GiveUp(HashError);
    }

    method HandleMessage(msg: Control)
      modifies this
      ensures Contents() == Next(old(Contents()), Message(msg))
    {
      if onRoomMessage != SenderHandler {
        return;
      }
      if msg.Abort? && msg.fileId == cfg.fileId {
        aborted := true;
        state := Failed;
        RestoreListener();
        Settle(Rejects(AbortedByPeer));
        return;
      }
      if state != AwaitingAccept {
        return;
      }
      if msg.Accept? && msg.fileId == cfg.fileId {
        state := Sending;
        at := Opening;
      } else if msg.Reject? && msg.fileId == cfg.fileId {
        state := Failed;
        RestoreListener();
        Settle(Rejects(RejectedByPeer));
      }
    }

    /** The loop is suspended: messages are handled until the awaited operation ends. */
    method Await(ghost start: Transfer, script: seq<Event>, from: nat) returns (i: nat)
      requires from <= |script| && Chunking(at) && (state.Sending? || state.Failed?)
      requires Run(start, script).Some? && Run(start, script[..from]) == Some(Contents())
      modifies this
      ensures from <= i <= |script| && (i < |script| ==> !script[i].Message? && !script[i].CallSend?)
      ensures Run(start, script[..i]) == Some(Contents())
      ensures i < |script| ==> Possible(Contents(), script[i])
      ensures SameLoop(old(Contents()), Contents()) && (state.Sending? || state.Failed?)
    {
      hide Next, Possible;
      i := from;
      while i < |script| && (script[i].Message? || script[i].CallSend?)
        invariant from <= i <= |script|
        invariant Run(start, script[..i]) == Some(Contents())
        invariant SameLoop(old(Contents()), Contents()) && (state.Sending? || state.Failed?)
      {
        RunPrefix(start, script, i);
        StaysSuspended(Contents(), script[i]);
        if script[i].Message? {
          HandleMessage(script[i].msg);
        } else {
          var _ := Send(script[i].hasBulk);
        }
        i := i + 1;
      }
      if i < |script| {
        RunPrefix(start, script, i);
      }
    }

    /** `fd.read`: the first `n` places of the buffer are overwritten, the others keep old bytes. */
    method ReadInto(buffer: array<byte>, n: nat)
      requires n <= buffer.Length && position + n <= |cfg.file|
      modifies buffer
      ensures buffer[..n] == cfg.file[position..position + n]
      ensures buffer[n..] == old(buffer[n..])
    {
      for k := 0 to n
        invariant buffer[..k] == cfg.file[position..position + k]
        invariant buffer[n..] == old(buffer[n..])
      {
        buffer[k] := cfg.file[position + k];
      }
    }

    method SendFileDone(ok: bool)
      modifies this
      ensures Contents() == Finish(old(Contents()), ok) && at == Finished
    {
      if ok {
        control := control + [FileDone(cfg.fileId)];
        state := Done;
        at := Finished;
        RestoreListener();
        Settle(Resolves);
      } else {
        GiveUp(IoError);
      }
    }

    /** One turn of the loop: read, then send what was read. */
    method SendNextChunk(ghost start: Transfer, script: seq<Event>, from: nat, buffer: array<byte>)
      returns (used: nat, flow: Flow)
      requires from <= |script| && buffer.Length == cfg.chunkSize && at.Reading? && (state.Sending? || state.Failed?)
      requires Run(start, script).Some? && Run(start, script[..from]) == Some(Contents())
      modifies this, buffer
      ensures used <= |script| && TurnEnds(start, script, used, flow, Contents())
      ensures flow.Continue? ==> SameFile(old(Contents()), Contents()) && position > old(position)
      ensures flow.Return? && used < |script| ==> at.Finished?
    {
      hide Next, Possible, Run, LoopTop, Fail, Finish;
      used := Await(start, script, from);
      if used == |script| {
        return used, Return;
      }
      RunPrefix(start, script, used);
      ResumesRead(Contents(), script[used]);
      if script[used].ReadFails? {
        GiveUp(IoError);
        return used + 1, Return;
      }
      var bytesRead := script[used].n;
      if bytesRead == 0 {
        return used + 1, Break(script[used].ok);
      }
      ReadInto(buffer, bytesRead);
      used, flow := SendChunk(start, script, used + 1, buffer[..bytesRead]);
    }

    method SendChunk(ghost start: Transfer, script: seq<Event>, from: nat, data: seq<byte>)
      returns (used: nat, flow: Flow)
      requires from <= |script| && at.Reading? && (state.Sending? || state.Failed?) && data != []
      requires Run(start, script).Some? && Run(start, script[..from]) == Some(Contents().(at := Transmitting(data)))
      modifies this
      ensures used <= |script| && TurnEnds(start, script, used, flow, Contents())
      ensures flow.Continue? ==> SameFile(old(Contents()), Contents()) && position > old(position)
      ensures flow.Return? && used < |script| ==> at.Finished?
    {
      hide Next, Possible, Run, LoopTop, Fail, Finish;
      at := Transmitting(data);
      used := Await(start, script, from);
      if used == |script| {
        return used, Return;
      }
      RunPrefix(start, script, used);
      ResumesTransmit(Contents(), script[used]);
      if !script[used].Transmitted? {
        GiveUp(if script[used].TransmitFails? then IoError else TimedOut);
        if script[used].TransmitTimesOut? && script[used].ok {
          control := control + [Abort(cfg.fileId, "backpressure_timeout")];
        }
        return used + 1, Return;
      }
      chunks := chunks + [Chunk(cfg.fileId, seqNum, data)];
      bytesSent := bytesSent + |data|;
      seqNum := seqNum + 1;
      position := position + |data|;
      return used + 1, Continue(script[used].ok);
    }

    /** The loop up to the end of the transfer or of the script of events, whichever is first. */
    method StartChunking(script: seq<Event>) returns (used: nat)
      requires at.Opening? && totalBytes == |cfg.file| && (state.Sending? || state.Failed?)
      requires Run(Contents(), script).Some?
      modifies this
      ensures used <= |script| && Run(old(Contents()), script[..used]) == Some(Contents())
      ensures used < |script| ==> at.Finished? || at.Crashed?
    {
      hide Next, Possible, Run, LoopTop, Fail, Finish;
      ghost var start := Contents();
      assert script[..0] == [] && Run(start, []) == Some(start) by {
        RunNothing(start);
      }
      used := Await(start, script, 0);
      if used == |script| {
        return;
      }
      RunPrefix(start, script, used);
      ResumesOpen(Contents(), script[used]);
      if script[used].OpenFails? {
        at := Crashed;
        return used + 1;
      }
      var ok := script[used].ok;
      used := used + 1;
      var buffer := new byte[cfg.chunkSize];
      while position < totalBytes
        invariant used <= |script|
        invariant Run(start, script[..used]) == Some(LoopTop(Contents(), ok))
        invariant totalBytes == |cfg.file| && (state.Sending? || state.Failed?)
        decreases totalBytes - position
      {
        LoopTopIs(Contents(), ok);
        if aborted {
          GiveUp(AbortNoticed);
          return;
        }
        at := Reading;
        var flow: Flow;
        used, flow := SendNextChunk(start, script, used, buffer);
        match flow {
          case Return => return;
          case Break(fine) =>
            SendFileDone(fine);
            return;
          case Continue(fine) => ok := fine;
        }
      }
      LoopTopIs(Contents(), ok);
      SendFileDone(ok);
    }
  }

  /** How a turn of the loop ends: go on, leave the loop, or leave the routine. */
  datatype Flow = Continue(ok: bool) | Break(ok: bool) | Return

  ghost predicate TurnEnds(start: Transfer, script: seq<Event>, used: nat, flow: Flow, t: Transfer)
    requires used <= |script|
  {
    Run(start, script[..used]) ==
    match flow
    case Continue(ok) => Some(LoopTop(t, ok))
    case Break(ok) => Some(Finish(t, ok))
    case Return => Some(t)
  }

  predicate SameFile(t: Transfer, d: Transfer) {
    d.cfg == t.cfg && d.totalBytes == t.totalBytes && (d.state.Sending? || d.state.Failed?)
  }

  /** What messages leave alone while the loop is suspended. */
  predicate SameLoop(t: Transfer, d: Transfer) {
    && d.cfg == t.cfg && d.at == t.at && d.totalBytes == t.totalBytes && d.position == t.position
    && d.seqNum == t.seqNum && d.bytesSent == t.bytesSent && d.chunks == t.chunks && d.control == t.control
  }

  lemma RunNothing(t: Transfer)
    ensures Run(t, []) == Some(t)
  {
  }

  lemma LoopTopIs(t: Transfer, ok: bool)
    ensures LoopTop(t, ok)
         == if t.position >= t.totalBytes then Finish(t, ok) else if t.aborted then Fail(t, AbortNoticed) else t.(at := Reading)
  {
  }

  /** How the suspended loop resumes. */
  lemma ResumesOpen(t: Transfer, e: Event)
    requires t.at.Opening? && Possible(t, e) && !e.Message? && !e.CallSend?
    ensures e.OpenFails? ==> Next(t, e) == t.(at := Crashed)
    ensures !e.OpenFails? ==> e.OpenDone? && Next(t, e) == LoopTop(t, e.ok)
  {
  }

  lemma ResumesRead(t: Transfer, e: Event)
    requires t.at.Reading? && Possible(t, e) && !e.Message? && !e.CallSend?
    ensures e.ReadFails? ==> Next(t, e) == Fail(t, IoError)
    ensures !e.ReadFails? ==>
              && e.ReadDone? && e.n <= t.cfg.chunkSize && t.position + e.n <= |t.cfg.file|
              && Next(t, e) == if e.n == 0 then Finish(t, e.ok)
                               else t.(at := Transmitting(t.cfg.file[t.position..t.position + e.n]))
  {
  }

  lemma ResumesTransmit(t: Transfer, e: Event)
    requires t.at.Transmitting? && Possible(t, e) && !e.Message? && !e.CallSend?
    ensures e.TransmitFails? ==> Next(t, e) == Fail(t, IoError)
    ensures e.TransmitTimesOut? ==>
              var f := Fail(t, TimedOut);
              Next(t, e) == if e.ok then f.(control := f.control + [Abort(t.cfg.fileId, "backpressure_timeout")]) else f
    ensures !e.TransmitFails? && !e.TransmitTimesOut? ==>
              && e.Transmitted?
              && Next(t, e) == LoopTop(t.(chunks := t.chunks + [Chunk(t.cfg.fileId, t.seqNum, t.at.data)],
                                          bytesSent := t.bytesSent + |t.at.data|, seqNum := t.seqNum + 1,
                                          position := t.position + |t.at.data|), e.ok)
  {
    hide LoopTop;
  }

  lemma RunPrefix(t: Transfer, events: seq<Event>, i: nat)
    requires i < |events| && Run(t, events).Some?
    ensures Run(t, events[..i]).Some? && Possible(Run(t, events[..i]).value, events[i])
    ensures Run(t, events[..i + 1]) == Some(Next(Run(t, events[..i]).value, events[i]))
    decreases |events|
  {
    hide Next, Possible;
    assert events[..i + 1][..i] == events[..i];
    if i == |events| - 1 {
      assert events[..i + 1] == events;
    } else {
      var init := events[..|events| - 1];
      assert init[..i] == events[..i] && init[..i + 1] == events[..i + 1];
      RunPrefix(t, init, i);
    }
  }

  /** A message or a second `send()` leaves the suspended loop where it is. */
  lemma StaysSuspended(t: Transfer, e: Event)
    requires Chunking(t.at) && (e.Message? || e.CallSend?) && Possible(t, e)
    requires t.state.Sending? || t.state.Failed?
    ensures SameLoop(t, Next(t, e)) && (Next(t, e).state.Sending? || Next(t, e).state.Failed?)
  {
  }

  // ── The invariant ────────────────────────────────────────────────────────

  predicate SizedUpTo(chunks: seq<Chunk>, size: nat) {
    forall i :: 0 <= i < |chunks| ==> |chunks[i].data| <= size
  }

  /** Chunks 0, 1, 2, ... are consecutive non-empty pieces of the file from its start. */
  ghost predicate DataInv(cfg: Config, chunks: seq<Chunk>, position: nat, bytesSent: nat, seqNum: nat) {
    && Numbered(chunks, cfg.fileId) && NonEmpty(chunks) && SizedUpTo(chunks, cfg.chunkSize)
    && position <= |cfg.file| && Concat(chunks) == cfg.file[..position]
    && bytesSent == position && seqNum == |chunks|
  }

  function TheOffer(cfg: Config): Control {
    Offer(cfg.fileId, |cfg.file|, Sha256(cfg.file))
  }

  predicate Chunking(at: Suspended) {
    at.Opening? || at.Reading? || at.Transmitting?
  }

  /** What is suspended agrees with where the loop stands. */
  ghost predicate AtInv(cfg: Config, at: Suspended, position: nat) {
    match at
    case Reading => position < |cfg.file|
    case Transmitting(data) =>
      && data != [] && |data| <= cfg.chunkSize && position + |data| <= |cfg.file|
      && data == cfg.file[position..position + |data|]
    case Finished => true
    case _ => position == 0
  }

  /** The rest of the state while the chunk loop is under way: an abort has restored the listener
      and rejected the promise, but the loop goes on. */
  ghost predicate LoopInv(t: Transfer) {
    && t.totalBytes == |t.cfg.file| && t.control == [TheOffer(t.cfg)]
    && (if t.aborted then t.state.Failed? && t.room.AppHandler? && t.original.NoHandler? && t.settles == [Rejects(AbortedByPeer)]
        else t.state.Sending? && t.room.SenderHandler? && t.original.AppHandler? && t.settles == [])
  }

  ghost predicate BeforeInv(t: Transfer) {
    match t.state
    case Idle => t.at.Nowhere? && !t.aborted && t.room.AppHandler? && t.original.NoHandler? && t.control == [] && t.settles == []
    case AwaitingAccept =>
      && !t.aborted && t.settles == []
      && (if t.at.Hashing? then t.room.AppHandler? && t.original.NoHandler? && t.control == []
          else t.room.SenderHandler? && t.original.AppHandler? && t.control == [TheOffer(t.cfg)]
               && t.totalBytes == |t.cfg.file|)
    case Failed =>
      && t.at.Nowhere? && t.room.AppHandler? && t.original.NoHandler? && t.control == [TheOffer(t.cfg)]
      && t.settles == [Rejects(if t.aborted then AbortedByPeer else RejectedByPeer)]
    case _ => false
  }

  /** After the loop, or after a hash or offer that failed. */
  ghost predicate AfterInv(t: Transfer) {
    && t.original.NoHandler?
    && (t.room.AppHandler? <==> !t.aborted && t.settles != [Rejects(HashError)])
    && (t.room.AppHandler? || t.room.NoHandler?)
    && (match t.state
        case Done =>
          && t.control == [TheOffer(t.cfg), FileDone(t.cfg.fileId)]
          && (t.position == |t.cfg.file| || t.cfg.chunkSize == 0)
          && t.settles == if t.aborted then [Rejects(AbortedByPeer), Resolves] else [Resolves]
        case Failed =>
          && t.control in {[], [TheOffer(t.cfg)], [TheOffer(t.cfg), Abort(t.cfg.fileId, "backpressure_timeout")]}
          && (if t.aborted then |t.settles| == 2 && t.settles[0] == Rejects(AbortedByPeer) && t.settles[1].Rejects?
              else |t.settles| == 1 && t.settles[0].Rejects?)
        case _ => false)
  }

  ghost predicate Inv(t: Transfer) {
    && DataInv(t.cfg, t.chunks, t.position, t.bytesSent, t.seqNum)
    && AtInv(t.cfg, t.at, t.position)
    && (match t.at
        case Nowhere => BeforeInv(t)
        case Hashing => BeforeInv(t) && t.state.AwaitingAccept?
        case Finished => AfterInv(t)
        case _ => LoopInv(t))
  }

  lemma DataAppend(cfg: Config, chunks: seq<Chunk>, position: nat, seqNum: nat, data: seq<byte>)
    requires DataInv(cfg, chunks, position, position, seqNum)
    requires data != [] && |data| <= cfg.chunkSize && position + |data| <= |cfg.file|
    requires data == cfg.file[position..position + |data|]
    ensures DataInv(cfg, chunks + [Chunk(cfg.fileId, seqNum, data)], position + |data|, position + |data|, seqNum + 1)
  {
    ConcatSnoc(chunks, Chunk(cfg.fileId, seqNum, data));
    assert cfg.file[..position] + data == cfg.file[..position + |data|];
  }

  lemma FinishKeeps(t: Transfer, ok: bool)
    requires DataInv(t.cfg, t.chunks, t.position, t.bytesSent, t.seqNum)
    requires LoopInv(t) && (t.position == |t.cfg.file| || t.cfg.chunkSize == 0)
    ensures Inv(Finish(t, ok))
  {
    hide DataInv;
    if !ok {
      FailKeeps(t, IoError);
    } else {
      assert t.control + [FileDone(t.cfg.fileId)] == [TheOffer(t.cfg), FileDone(t.cfg.fileId)];
      assert t.settles + [Resolves] == if t.aborted then [Rejects(AbortedByPeer), Resolves] else [Resolves];
    }
  }

  lemma FailKeeps(t: Transfer, why: Why)
    requires DataInv(t.cfg, t.chunks, t.position, t.bytesSent, t.seqNum)
    requires LoopInv(t) && !why.HashError?
    ensures Inv(Fail(t, why))
  {
    hide DataInv;
    assert (t.settles + [Rejects(why)])[0] != Rejects(HashError);
  }

  lemma LoopTopKeeps(t: Transfer, ok: bool)
    requires DataInv(t.cfg, t.chunks, t.position, t.bytesSent, t.seqNum) && LoopInv(t)
    ensures Inv(LoopTop(t, ok))
  {
    if t.position >= t.totalBytes {
      assert t.position == |t.cfg.file|;
      FinishKeeps(t, ok);
    } else if t.aborted {
      FailKeeps(t, AbortNoticed);
    }
  }

  lemma TransmittedKeeps(t: Transfer, ok: bool)
    requires Inv(t) && t.at.Transmitting?
    ensures Inv(Next(t, Transmitted(ok)))
  {
    var data := t.at.data;
    DataAppend(t.cfg, t.chunks, t.position, t.seqNum, data);
    hide DataInv;
    LoopTopKeeps(t.(chunks := t.chunks + [Chunk(t.cfg.fileId, t.seqNum, data)],
                    bytesSent := t.bytesSent + |data|, seqNum := t.seqNum + 1, position := t.position + |data|), ok);
  }

  lemma TimeoutKeeps(t: Transfer, ok: bool)
    requires Inv(t) && t.at.Transmitting?
    ensures Inv(Next(t, TransmitTimesOut(ok)))
  {
    hide DataInv;
    FailKeeps(t, TimedOut);
    var abort := Abort(t.cfg.fileId, "backpressure_timeout");
    assert t.control + [abort] == [TheOffer(t.cfg), abort];
  }

  lemma MessageBeforeLoop(t: Transfer, msg: Control)
    requires BeforeInv(t) && t.at.Nowhere? && t.room.SenderHandler?
    ensures var d := OnMessage(t, msg);
      && d == t.(state := d.state, at := d.at, aborted := d.aborted, room := d.room, original := d.original, settles := d.settles)
      && ((d.at == t.at && BeforeInv(d)) || (d.at.Opening? && LoopInv(d)))
  {
    assert t.settles == [];
  }

  lemma MessageInLoop(t: Transfer, msg: Control)
    requires LoopInv(t) && t.room.SenderHandler?
    ensures var d := OnMessage(t, msg);
      && d == t.(state := d.state, aborted := d.aborted, room := d.room, original := d.original, settles := d.settles)
      && LoopInv(d)
  {
    assert t.settles == [];
  }

  lemma MessageKeeps(t: Transfer, msg: Control)
    requires Inv(t)
    ensures Inv(Next(t, Message(msg)))
  {
    hide DataInv;
    if t.room.SenderHandler? {
      if t.at.Nowhere? {
        MessageBeforeLoop(t, msg);
      } else {
        MessageInLoop(t, msg);
      }
    }
  }

  lemma InvStep(t: Transfer, e: Event)
    requires Inv(t) && Possible(t, e)
    ensures Inv(Next(t, e))
  {
    match e {
      case Message(msg) => MessageKeeps(t, msg);
      case OpenDone(ok) => LoopTopKeeps(t, ok);
      case ReadDone(n, ok) => FinishOrTransmit(t, n, ok);
      case ReadFails => FailKeeps(t, IoError);
      case Transmitted(ok) => TransmittedKeeps(t, ok);
      case TransmitFails => FailKeeps(t, IoError);
      case TransmitTimesOut(ok) => TimeoutKeeps(t, ok);
      case _ => StartKeeps(t, e);
    }
    // Hidden in the goal only, here and below: the steps before need the definitions.
    hide Inv, LoopTop, Fail;
  }

  lemma StartKeeps(t: Transfer, e: Event)
    requires Inv(t) && Possible(t, e) && (e.CallSend? || e.HashDone? || e.HashFails? || e.OpenFails?)
    ensures Inv(Next(t, e))
  {
    hide DataInv;
    if e.HashDone? {
      assert t.control + [TheOffer(t.cfg)] == [TheOffer(t.cfg)];
      assert (t.settles + [Rejects(OfferError)])[0] != Rejects(HashError);
    } else if e.HashFails? {
      assert t.settles + [Rejects(HashError)] == [Rejects(HashError)];
    }
  }

  lemma FinishOrTransmit(t: Transfer, n: nat, ok: bool)
    requires Inv(t) && Possible(t, ReadDone(n, ok))
    ensures Inv(Next(t, ReadDone(n, ok)))
  {
    hide DataInv;
    if n == 0 {
      FinishKeeps(t, ok);
    } else {
      assert |t.cfg.file[t.position..t.position + n]| == n;
    }
  }

  // ── Whole runs ───────────────────────────────────────────────────────────

  lemma {:induction false} InvRun(t: Transfer, events: seq<Event>)
    requires Inv(t) && Run(t, events).Some?
    ensures Inv(Run(t, events).value) && Run(t, events).value.cfg == t.cfg
    decreases |events|
  {
    if events == [] {
    } else {
      InvRun(t, events[..|events| - 1]);
      InvStep(Run(t, events[..|events| - 1]).value, events[|events| - 1]);
      CfgKept(Run(t, events[..|events| - 1]).value, events[|events| - 1]);
      hide Inv, Next, Possible;
    }
  }

  lemma CfgKept(t: Transfer, e: Event)
    requires Possible(t, e)
    ensures Next(t, e).cfg == t.cfg
  {
  }

  /** For any read sizes: the chunks that left are numbered from 0 and are the file up to
      `bytesSent`. `file_done` leaves exactly in the state `done`, after the whole file unless
      chunks of size 0 were asked for; it and an abort message exclude each other. */
  lemma ChunksFollowFile(cfg: Config, events: seq<Event>)
    requires Run(Initial(cfg), events).Some?
    ensures var t := Run(Initial(cfg), events).value;
      && Numbered(t.chunks, cfg.fileId) && NonEmpty(t.chunks) && SizedUpTo(t.chunks, cfg.chunkSize)
      && t.bytesSent <= |cfg.file| && Concat(t.chunks) == cfg.file[..t.bytesSent]
      && (FileDone(cfg.fileId) in t.control <==> t.state.Done?)
      && (t.state.Done? ==> (Concat(t.chunks) == cfg.file <==> cfg.chunkSize > 0 || cfg.file == []))
      && (t.state.Done? ==> forall m :: m in t.control ==> !m.Abort?)
  {
    assert Inv(Initial(cfg));
    InvRun(Initial(cfg), events);
    if Run(Initial(cfg), events).value.state.Done? {
      WholeIff(Run(Initial(cfg), events).value);
    }
    hide Run;
  }

  lemma WholeIff(t: Transfer)
    requires Inv(t) && t.state.Done?
    ensures Concat(t.chunks) == t.cfg.file <==> t.cfg.chunkSize > 0 || t.cfg.file == []
  {
    if t.chunks != [] {
      assert t.chunks[0].data != [] && |t.chunks[0].data| <= t.cfg.chunkSize;
    }
  }

  // ── Aborts ───────────────────────────────────────────────────────────────

  /** Where a transfer can be after an abort was handled in state `s` of the chunk loop: the read
      or send under way completes, and the next loop head, if there is one, ends the transfer. */
  ghost predicate AbortTail(s: Transfer, d: Transfer) {
    && d.cfg == s.cfg && d.aborted && d.totalBytes == s.totalBytes
    && (if d.at.Finished? then
          && (d.chunks == s.chunks || (|d.chunks| == |s.chunks| + 1 && d.chunks[..|s.chunks|] == s.chunks))
          && (d.state.Done? ==> RunsOut(s))
        else
          && d.chunks == s.chunks && d.position == s.position
          && (d.at == s.at || (s.at.Reading? && d.at.Transmitting?) || d.at.Crashed?))
  }

  /** No loop head with bytes left lies ahead of the suspended step, or need not. */
  predicate RunsOut(s: Transfer) {
    match s.at
    case Opening => s.cfg.file == []
    case Reading => |s.cfg.file| - s.position <= s.cfg.chunkSize || s.cfg.chunkSize == 0
    case Transmitting(data) => s.position + |data| == |s.cfg.file|
    case _ => false
  }

  lemma AbortTailStep(s: Transfer, d: Transfer, e: Event)
    requires Inv(d) && Chunking(s.at) && s.aborted && AbortTail(s, d) && Possible(d, e)
    ensures AbortTail(s, Next(d, e))
  {
    hide DataInv;
  }

  lemma {:induction false} AbortTailRun(s: Transfer, more: seq<Event>)
    requires Inv(s) && Chunking(s.at) && s.aborted && Run(s, more).Some?
    ensures AbortTail(s, Run(s, more).value)
    decreases |more|
  {
    if more == [] {
    } else {
      var init, e := more[..|more| - 1], more[|more| - 1];
      AbortTailRun(s, init);
      InvRun(s, init);
      AbortTailStep(s, Run(s, init).value, e);
    }
  }

  /** Once an abort was handled, at most one more chunk leaves, whatever happens. */
  lemma AtMostOneMoreChunk(s: Transfer, more: seq<Event>)
    requires Inv(s) && Chunking(s.at) && s.aborted && Run(s, more).Some?
    ensures s.chunks <= Run(s, more).value.chunks
    ensures |Run(s, more).value.chunks| <= |s.chunks| + 1
  {
    AbortTailRun(s, more);
  }

  /** `failed` is not final: an aborted transfer can still send `file_done` and end in `done`
      exactly when no loop head with bytes left need come before the end of the file. */
  lemma AbortOverriddenIff(s: Transfer)
    requires Inv(s) && Chunking(s.at) && s.aborted
    ensures (exists more :: Run(s, more).Some? && Run(s, more).value.state.Done?) <==> RunsOut(s)
  {
    forall more | Run(s, more).Some? && Run(s, more).value.state.Done?
      ensures RunsOut(s)
    {
      AbortTailRun(s, more);
      InvRun(s, more);
    }
    if RunsOut(s) {
      CompletesAnyway(s);
    }
  }

  lemma RunOne(t: Transfer, e: Event)
    requires Possible(t, e)
    ensures Run(t, [e]) == Some(Next(t, e))
  {
    assert [e][..0] == [];
    assert Run(t, []) == Some(t);
  }

  lemma RunTwo(t: Transfer, e: Event, f: Event)
    requires Possible(t, e) && Possible(Next(t, e), f)
    ensures Run(t, [e, f]) == Some(Next(Next(t, e), f))
  {
    RunOne(t, e);
    assert [e, f][..1] == [e];
  }

  lemma CompletesAnyway(s: Transfer)
    requires Inv(s) && Chunking(s.at) && RunsOut(s)
    ensures exists more :: Run(s, more).Some? && Run(s, more).value.state.Done?
  {
    hide DataInv;
    match s.at {
      case Opening =>
        RunOne(s, OpenDone(true));
      case Reading =>
        if s.cfg.chunkSize == 0 {
          RunOne(s, ReadDone(0, true));
        } else {
          RunTwo(s, ReadDone(|s.cfg.file| - s.position, true), Transmitted(true));
        }
      case Transmitting(data) =>
        RunOne(s, Transmitted(true));
    }
  }

  lemma RunSnoc(t: Transfer, events: seq<Event>, e: Event)
    requires Run(t, events).Some? && Possible(Run(t, events).value, e)
    ensures Run(t, events + [e]) == Some(Next(Run(t, events).value, e))
  {
    assert (events + [e])[..|events|] == events;
  }

  /** The state of an accepted transfer whose file is about to be opened. */
  function Accepted(cfg: Config): Transfer {
    Transfer(cfg, Sending, false, 0, |cfg.file|, 0, 0, Opening, SenderHandler, AppHandler, [TheOffer(cfg)], [], [])
  }

  function UntilAccepted(cfg: Config): seq<Event> {
    [] + [CallSend(true)] + [HashDone(true)] + [Message(Accept(cfg.fileId))]
  }

  lemma AcceptedReached(cfg: Config)
    ensures Run(Initial(cfg), UntilAccepted(cfg)) == Some(Accepted(cfg))
  {
    var t, accept := Initial(cfg), Message(Accept(cfg.fileId));
    RunNothing(t);
    var t1 := Next(t, CallSend(true));
    var t2 := Next(t1, HashDone(true));
    assert [] + [TheOffer(cfg)] == [TheOffer(cfg)];
    assert Next(t2, accept) == Accepted(cfg);
    hide Run, Next;
    RunSnoc(t, [], CallSend(true));
    RunSnoc(t, [] + [CallSend(true)], HashDone(true));
    RunSnoc(t, [] + [CallSend(true)] + [HashDone(true)], accept);
  }

  /** With the whole file in one chunk: an abort heard while that chunk is being sent. */
  function LateAbort(cfg: Config): seq<Event> {
    UntilAccepted(cfg) + [OpenDone(true)] + [ReadDone(|cfg.file|, true)] + [Message(Abort(cfg.fileId, "stop"))]
  }

  lemma LateAbortReached(cfg: Config)
    requires 0 < |cfg.file| <= cfg.chunkSize
    ensures var s := Accepted(cfg).(at := Transmitting(cfg.file), aborted := true, state := Failed,
                                    room := AppHandler, original := NoHandler, settles := [Rejects(AbortedByPeer)]);
      Run(Initial(cfg), LateAbort(cfg)) == Some(s)
  {
    var t, before := Initial(cfg), UntilAccepted(cfg);
    var abort := Message(Abort(cfg.fileId, "stop"));
    AcceptedReached(cfg);
    var t1 := Accepted(cfg);
    var t2 := t1.(at := Reading);
    var t3 := t1.(at := Transmitting(cfg.file));
    assert cfg.file[0..|cfg.file|] == cfg.file;
    assert Next(t1, OpenDone(true)) == t2 && Next(t2, ReadDone(|cfg.file|, true)) == t3;
    assert [] + [Rejects(AbortedByPeer)] == [Rejects(AbortedByPeer)];
    assert Next(t3, abort).settles == [Rejects(AbortedByPeer)];
    hide Run, UntilAccepted;
    RunSnoc(t, before, OpenDone(true));
    RunSnoc(t, before + [OpenDone(true)], ReadDone(|cfg.file|, true));
    RunSnoc(t, before + [OpenDone(true)] + [ReadDone(|cfg.file|, true)], abort);
  }

  /** From the start: an abort was handled, the promise rejected, and yet the transfer is `done`. */
  lemma AbortOverriddenReachable(cfg: Config)
    requires 0 < |cfg.file| <= cfg.chunkSize
    ensures var end := Run(Initial(cfg), LateAbort(cfg) + [Transmitted(true)]);
      end.Some? && end.value.aborted && end.value.state.Done? && end.value.settles[0] == Rejects(AbortedByPeer)
  {
    LateAbortReached(cfg);
    hide Run, LateAbort;
    RunSnoc(Initial(cfg), LateAbort(cfg), Transmitted(true));
  }

  /** From the start: the open fails, the sender's listener stays and nothing settles the promise. */
  lemma OpenFailureReachable(cfg: Config)
    ensures var end := Run(Initial(cfg), UntilAccepted(cfg) + [OpenFails]);
      end.Some? && end.value.at.Crashed? && end.value.room == SenderHandler && end.value.settles == []
  {
    AcceptedReached(cfg);
    hide Run, UntilAccepted;
    RunSnoc(Initial(cfg), UntilAccepted(cfg), OpenFails);
  }

  // ── The listener and the promise ─────────────────────────────────────────

  predicate HashFailed(events: seq<Event>) {
    exists k :: 0 <= k < |events| && events[k].HashFails?
  }

  predicate OpenFailed(events: seq<Event>) {
    exists k :: 0 <= k < |events| && events[k].OpenFails?
  }

  /** Event `k` is an abort that the sender hears after it was accepted. */
  predicate AbortsLoop(cfg: Config, events: seq<Event>, k: nat)
    requires k < |events|
  {
    && events[k].Message? && events[k].msg.Abort? && events[k].msg.fileId == cfg.fileId
    && Run(Initial(cfg), events[..k]).Some?
    && var t := Run(Initial(cfg), events[..k]).value;
       t.state.Sending? && t.room == SenderHandler
  }

  predicate LoopAborted(cfg: Config, events: seq<Event>) {
    exists k: nat :: k < |events| && AbortsLoop(cfg, events, k)
  }

  lemma LoopAbortedStep(cfg: Config, events: seq<Event>)
    requires events != []
    ensures LoopAborted(cfg, events)
       <==> LoopAborted(cfg, events[..|events| - 1]) || AbortsLoop(cfg, events, |events| - 1)
  {
    hide AbortsLoop;
    var init := events[..|events| - 1];
    forall k: nat | k < |init|
      ensures AbortsLoop(cfg, init, k) == AbortsLoop(cfg, events, k)
    {
      AbortsInPrefix(cfg, events, k);
    }
    if LoopAborted(cfg, init) {
      var k: nat :| k < |init| && AbortsLoop(cfg, init, k);
      assert AbortsLoop(cfg, events, k);
    }
    if LoopAborted(cfg, events) {
      var k: nat :| k < |events| && AbortsLoop(cfg, events, k);
      assert k < |init| ==> AbortsLoop(cfg, init, k);
    }
  }

  lemma AbortsInPrefix(cfg: Config, events: seq<Event>, k: nat)
    requires k < |events| - 1
    ensures AbortsLoop(cfg, events[..|events| - 1], k) == AbortsLoop(cfg, events, k)
  {
    hide Run;
    assert events[..|events| - 1][..k] == events[..k];
  }

  lemma FailuresStep(events: seq<Event>)
    requires events != []
    ensures var init, e := events[..|events| - 1], events[|events| - 1];
      && (HashFailed(events) <==> HashFailed(init) || e.HashFails?)
      && (OpenFailed(events) <==> OpenFailed(init) || e.OpenFails?)
  {
    var init, e := events[..|events| - 1], events[|events| - 1];
    assert forall k :: 0 <= k < |init| ==> init[k] == events[k];
    assert events[|init|] == e;
  }

  /** What the fields remember of the events. */
  ghost predicate Remembers(t: Transfer, hashFailed: bool, openFailed: bool, loopAborted: bool) {
    && (hashFailed <==> t.at.Finished? && t.settles == [Rejects(HashError)])
    && (openFailed <==> t.at.Crashed?)
    && (loopAborted <==> t.aborted && !t.at.Nowhere?)
  }

  lemma RemembersStep(t: Transfer, e: Event, hashFailed: bool, openFailed: bool, loopAborted: bool)
    requires Inv(t) && Possible(t, e) && Remembers(t, hashFailed, openFailed, loopAborted)
    ensures var hears := e.Message? && e.msg.Abort? && e.msg.fileId == t.cfg.fileId
                         && t.state.Sending? && t.room == SenderHandler;
      Remembers(Next(t, e), hashFailed || e.HashFails?, openFailed || e.OpenFails?, loopAborted || hears)
  {
    hide DataInv;
    var d := Next(t, e);
    SettlesGrow(t, e);
  }

  lemma SettlesGrow(t: Transfer, e: Event)
    requires Inv(t) && Possible(t, e)
    ensures var d := Next(t, e);
      && t.settles <= d.settles
      && (t.settles == [] && d.settles == [Rejects(HashError)] ==> e.HashFails?)
      && (e.HashFails? ==> d.settles == [Rejects(HashError)])
      && (t.settles != [] && !t.at.Finished? ==> t.settles[0] != Rejects(HashError))
      && (t.at.Finished? ==> d == t)
  {
    hide DataInv;
    assert Next(t, e).settles == [Rejects(HashError)] ==> Next(t, e).settles[0] == Rejects(HashError);
  }

  lemma {:induction false} RemembersRun(cfg: Config, events: seq<Event>)
    requires Run(Initial(cfg), events).Some?
    ensures Remembers(Run(Initial(cfg), events).value, HashFailed(events), OpenFailed(events), LoopAborted(cfg, events))
  {
    if events == [] {
    } else {
      hide Inv, Next, Possible, Remembers, HashFailed, OpenFailed, LoopAborted;
      var init, e := events[..|events| - 1], events[|events| - 1];
      RemembersRun(cfg, init);
      InitialInv(cfg);
      InvRun(Initial(cfg), init);
      RemembersStep(Run(Initial(cfg), init).value, e, HashFailed(init), OpenFailed(init), LoopAborted(cfg, init));
      LoopAbortedStep(cfg, events);
      FailuresStep(events);
    }
  }

  lemma InitialInv(cfg: Config)
    ensures Inv(Initial(cfg))
  {
  }

  /** Nothing goes on any more: over, never to resume, or ended before the loop. */
  predicate Ended(t: Transfer) {
    t.at.Finished? || t.at.Crashed? || (t.at.Nowhere? && t.state.Failed?)
  }

  /** However a transfer ends, the application's listener is back exactly when the hash could be
      computed and no abort was heard in the loop; after an open that failed it is the other way
      round, because only an abort takes the sender's listener away. Otherwise `null` is
      installed, or the sender's listener stays. */
  lemma {:induction false} ListenerRestoredIff(cfg: Config, events: seq<Event>)
    requires Run(Initial(cfg), events).Some? && Ended(Run(Initial(cfg), events).value)
    ensures var t := Run(Initial(cfg), events).value;
      && (t.room == AppHandler
          <==> if OpenFailed(events) then LoopAborted(cfg, events) else !HashFailed(events) && !LoopAborted(cfg, events))
      && (t.room != AppHandler ==> t.room == if OpenFailed(events) then SenderHandler else NoHandler)
  {
    InitialInv(cfg);
    InvRun(Initial(cfg), events);
    RemembersRun(cfg, events);
    hide DataInv, OpenFailed, HashFailed, LoopAborted;
  }

  /** The caller's promise follows its first settlement: it resolves exactly when `file_done` left
      with no abort handled before, so after an overridden abort the states disagree. */
  lemma PromiseResolvesIff(cfg: Config, events: seq<Event>)
    requires Run(Initial(cfg), events).Some? && Run(Initial(cfg), events).value.settles != []
    ensures var t := Run(Initial(cfg), events).value;
      t.settles[0] == Resolves <==> t.state.Done? && !t.aborted
  {
    assert Inv(Initial(cfg));
    InvRun(Initial(cfg), events);
  }

  /** When the file cannot be opened for chunking, only an abort by the peer settles the promise. */
  lemma {:induction false} OpenFailureHangs(t: Transfer, more: seq<Event>)
    requires Inv(t) && t.at.Crashed? && !t.aborted && Run(t, more).Some?
    ensures var d := Run(t, more).value;
      d.at.Crashed? && d.settles == if d.aborted then [Rejects(AbortedByPeer)] else []
    decreases |more|
  {
    if more == [] {
    } else {
      OpenFailureHangs(t, more[..|more| - 1]);
      InvRun(t, more[..|more| - 1]);
      InvRun(t, more);
      hide DataInv;
    }
  }

  // ── The peer's answer, by the events alone ───────────────────────────────

  predicate Offered(events: seq<Event>) {
    exists k :: 0 <= k < |events| && events[k] == HashDone(true)
  }

  predicate IsAnswer(m: Control, fileId: string) {
    (m.Accept? || m.Reject? || m.Abort?) && m.fileId == fileId
  }

  /** The first answer to the offer after it went out. */
  function FirstAnswer(events: seq<Event>, fileId: string): Option<Control> {
    if events == [] then None
    else
      var init, e := events[..|events| - 1], events[|events| - 1];
      var before := FirstAnswer(init, fileId);
      if before.None? && Offered(init) && e.Message? && IsAnswer(e.msg, fileId) then Some(e.msg) else before
  }

  ghost predicate Answered(t: Transfer, offered: bool, answer: Option<Control>) {
    if !offered then answer.None? && (t.at.Hashing? || t.at.Finished? || (t.at.Nowhere? && t.state.Idle?))
    else match answer
      case None => t.at.Nowhere? && t.state.AwaitingAccept?
      case Some(Accept(_)) => !t.at.Nowhere? && !t.at.Hashing?
      case Some(Reject(_, _)) => t.at.Nowhere? && t.state.Failed? && !t.aborted
      case Some(Abort(_, _)) => t.at.Nowhere? && t.state.Failed? && t.aborted
      case _ => false
  }

  lemma AnsweredStep(t: Transfer, e: Event, offered: bool, answer: Option<Control>)
    requires Inv(t) && Possible(t, e) && Answered(t, offered, answer)
    ensures Answered(Next(t, e), offered || e == HashDone(true),
                     if answer.None? && offered && e.Message? && IsAnswer(e.msg, t.cfg.fileId) then Some(e.msg) else answer)
  {
    hide DataInv;
  }

  lemma OfferedLast(events: seq<Event>)
    requires events != []
    ensures Offered(events) <==> Offered(events[..|events| - 1]) || events[|events| - 1] == HashDone(true)
  {
    var init := events[..|events| - 1];
    assert forall k :: 0 <= k < |init| ==> init[k] == events[k];
    assert events[|init|] == events[|events| - 1];
  }

  lemma {:induction false} AnsweredRun(cfg: Config, events: seq<Event>)
    requires Run(Initial(cfg), events).Some?
    ensures Answered(Run(Initial(cfg), events).value, Offered(events), FirstAnswer(events, cfg.fileId))
  {
    if events == [] {
    } else {
      hide Inv, Next, Possible, Answered, Offered;
      var init, e := events[..|events| - 1], events[|events| - 1];
      AnsweredRun(cfg, init);
      InitialInv(cfg);
      InvRun(Initial(cfg), init);
      OfferedLast(events);
      AnsweredStep(Run(Initial(cfg), init).value, e, Offered(init), FirstAnswer(init, cfg.fileId));
    }
  }

  /** In every run the first answer to the offer decides: without one the sender listens and waits;
      an acceptance, and nothing else, starts the loop; a rejection or an abort ends the transfer
      with that error and the application's listener back. */
  lemma {:induction false} FirstAnswerDecides(cfg: Config, events: seq<Event>)
    requires Run(Initial(cfg), events).Some? && Offered(events)
    ensures var t, answer := Run(Initial(cfg), events).value, FirstAnswer(events, cfg.fileId);
      && (answer.None? <==> t.at.Nowhere? && t.state.AwaitingAccept? && t.room == SenderHandler && t.settles == [])
      && (answer == Some(Accept(cfg.fileId)) <==> !t.at.Nowhere?)
      && (answer.Some? && answer.value.Reject? <==>
            t.at.Nowhere? && t.room == AppHandler && t.settles == [Rejects(RejectedByPeer)])
      && (answer.Some? && answer.value.Abort? <==>
            t.at.Nowhere? && t.room == AppHandler && t.settles == [Rejects(AbortedByPeer)])
  {
    InitialInv(cfg);
    InvRun(Initial(cfg), events);
    AnsweredRun(cfg, events);
    AnswerIsForFile(events, cfg.fileId);
    hide DataInv, Run, Offered;
  }

  lemma {:induction false} AnswerIsForFile(events: seq<Event>, fileId: string)
    ensures FirstAnswer(events, fileId).Some? ==> IsAnswer(FirstAnswer(events, fileId).value, fileId)
  {
    if events != [] {
      AnswerIsForFile(events[..|events| - 1], fileId);
    }
  }

  /** A transfer starts with the first `send()` on a session with a bulk channel, and only with that. */
  lemma {:induction false} StartsIff(cfg: Config, events: seq<Event>)
    requires Run(Initial(cfg), events).Some?
    ensures Run(Initial(cfg), events).value.state.Idle? <==> CallSend(true) !in events
    ensures CallSend(true) !in events ==> Run(Initial(cfg), events).value == Initial(cfg)
  {
    if events == [] {
    } else {
      var init, e := events[..|events| - 1], events[|events| - 1];
      assert events == init + [e];
      StartsIff(cfg, init);
      InitialInv(cfg);
      InvRun(Initial(cfg), init);
      InvRun(Initial(cfg), events);
      StartedStays(Run(Initial(cfg), init).value, e);
      hide DataInv, Next;
    }
  }

  lemma StartedStays(t: Transfer, e: Event)
    requires Inv(t) && Possible(t, e)
    ensures !t.state.Idle? ==> !Next(t, e).state.Idle?
    ensures t == Initial(t.cfg) ==> Next(t, e).state.Idle? == (e != CallSend(true))
    ensures t == Initial(t.cfg) && e != CallSend(true) ==> Next(t, e) == t
  {
    hide DataInv;
  }

  // ── Failures ─────────────────────────────────────────────────────────────

  function Failure(e: Event): Option<Why> {
    match e
    case HashFails => Some(HashError)
    case HashDone(false) => Some(OfferError)
    case ReadFails => Some(IoError)
    case TransmitFails => Some(IoError)
    case TransmitTimesOut(_) => Some(TimedOut)
    case _ => None
  }

  /** Every failure ends the transfer with its own error; a timeout, and only that, aborts the peer. */
  lemma FailureEnds(cfg: Config, events: seq<Event>, e: Event)
    requires Run(Initial(cfg), events + [e]).Some? && Failure(e).Some?
    ensures Run(Initial(cfg), events).Some?
    ensures var before, end := Run(Initial(cfg), events).value, Run(Initial(cfg), events + [e]).value;
      && end.at.Finished? && end.state.Failed? && end.chunks == before.chunks
      && end.settles == before.settles + [Rejects(Failure(e).value)]
      && end.control == before.control
                        + if e.TransmitTimesOut? && e.ok then [Abort(cfg.fileId, "backpressure_timeout")] else []
  {
    assert (events + [e])[..|events|] == events;
    InitialInv(cfg);
    InvRun(Initial(cfg), events);
    hide Inv, Run;
  }

  // ── Undisturbed transfers ────────────────────────────────────────────────

  function Sum(sizes: seq<nat>): nat {
    if sizes == [] then 0 else Sum(sizes[..|sizes| - 1]) + sizes[|sizes| - 1]
  }

  /** One read and one send for each size. */
  function Turns(sizes: seq<nat>): seq<Event> {
    if sizes == [] then [] else Turns(sizes[..|sizes| - 1]) + [ReadDone(sizes[|sizes| - 1], true)] + [Transmitted(true)]
  }

  predicate Lengths(chunks: seq<Chunk>, sizes: seq<nat>) {
    |chunks| == |sizes| && forall i :: 0 <= i < |sizes| ==> |chunks[i].data| == sizes[i]
  }

  ghost predicate AfterTurns(t: Transfer, cfg: Config, sizes: seq<nat>) {
    && t.cfg == cfg && t.totalBytes == |cfg.file| && !t.aborted && t.position == Sum(sizes) && Lengths(t.chunks, sizes)
    && (if Sum(sizes) == |cfg.file| then t.state.Done? && t.settles == [Resolves] && t.room == AppHandler
        else t.at.Reading? && t.settles == [] && t.original == AppHandler)
  }

  lemma OneTurn(t: Transfer, cfg: Config, sizes: seq<nat>, n: nat)
    requires AfterTurns(t, cfg, sizes) && 0 < n <= cfg.chunkSize && Sum(sizes) + n <= |cfg.file|
    ensures Possible(t, ReadDone(n, true)) && Possible(Next(t, ReadDone(n, true)), Transmitted(true))
    ensures AfterTurns(Next(Next(t, ReadDone(n, true)), Transmitted(true)), cfg, sizes + [n])
  {
    assert (sizes + [n])[..|sizes|] == sizes;
    assert [] + [Resolves] == [Resolves];
  }

  lemma {:induction false} AllTurns(cfg: Config, sizes: seq<nat>)
    requires forall i :: 0 <= i < |sizes| ==> 0 < sizes[i] <= cfg.chunkSize
    requires Sum(sizes) <= |cfg.file|
    ensures var end := Run(Initial(cfg), UntilAccepted(cfg) + [OpenDone(true)] + Turns(sizes));
      end.Some? && AfterTurns(end.value, cfg, sizes)
    decreases |sizes|
  {
    var start, before := Initial(cfg), UntilAccepted(cfg) + [OpenDone(true)];
    if sizes == [] {
      AcceptedReached(cfg);
      assert [] + [Resolves] == [Resolves];
      assert before + Turns(sizes) == before;
      hide Run;
      RunSnoc(start, UntilAccepted(cfg), OpenDone(true));
    } else {
      var init, n := sizes[..|sizes| - 1], sizes[|sizes| - 1];
      assert sizes == init + [n];
      AllTurns(cfg, init);
      hide Run, Next, AfterTurns;
      OneTurn(Run(start, before + Turns(init)).value, cfg, init, n);
      RunSnoc(start, before + Turns(init), ReadDone(n, true));
      RunSnoc(start, before + Turns(init) + [ReadDone(n, true)], Transmitted(true));
      assert before + Turns(sizes) == before + Turns(init) + [ReadDone(n, true)] + [Transmitted(true)];
    }
  }

  /** Whatever sizes the reads have, an accepted transfer that nothing disturbs sends one chunk of
      each size, which make up the file, and resolves with the listener restored. */
  lemma AnyReadSizesComplete(cfg: Config, sizes: seq<nat>)
    requires forall i :: 0 <= i < |sizes| ==> 0 < sizes[i] <= cfg.chunkSize
    requires Sum(sizes) == |cfg.file|
    ensures var end := Run(Initial(cfg), UntilAccepted(cfg) + [OpenDone(true)] + Turns(sizes));
      && end.Some? && end.value.state.Done? && end.value.settles == [Resolves] && end.value.room == AppHandler
      && Lengths(end.value.chunks, sizes) && Concat(end.value.chunks) == cfg.file
  {
    AllTurns(cfg, sizes);
    var events := UntilAccepted(cfg) + [OpenDone(true)] + Turns(sizes);
    InitialInv(cfg);
    InvRun(Initial(cfg), events);
    var t := Run(Initial(cfg), events).value;
    assert t.bytesSent == |cfg.file| && cfg.file[..|cfg.file|] == cfg.file;
    hide Run;
  }
}
