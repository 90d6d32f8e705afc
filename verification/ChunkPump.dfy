/** The chunk loop on top of `sendBulkWithBackpressure`: the serial caller the latter counts on. */
module ChunkPump {
  import opened Prelude
  import opened FileMessages
  import S = FileSender
  import B = BulkBackpressure

  datatype Pump = Pump(sender: S.Transfer, channel: B.Channel)

  /** `Low` and `Timeout` carry the sender's continuation with them: promise callbacks run before
      the next event. `size` is that of the encoded frame. */
  datatype Event =
    | AtSender(e: S.Event)
    | ReadCompletes(n: nat, size: nat, sendOk: bool, ok: bool)
    | Low(sendOk: bool, ok: bool)
    | Timeout(call: nat, ok: bool)
    | Drains(left: nat)

  function Initial(cfg: S.Config): Pump {
    Pump(S.Initial(cfg), B.IDLE)
  }

  predicate OfSendCall(e: S.Event) {
    e.ReadDone? || e.Transmitted? || e.TransmitFails? || e.TransmitTimesOut?
  }

  predicate Possible(p: Pump, e: Event) {
    match e
    case AtSender(s) => !OfSendCall(s) && S.Possible(p.sender, s)
    case ReadCompletes(n, _, _, ok) => S.Possible(p.sender, S.ReadDone(n, ok))
    case Timeout(call, _) => call in p.channel.waiting
    case Drains(left) => left <= p.channel.buffered
    case Low(_, _) => true
  }

  /** The message of the call in which the loop is suspended. */
  function ChunkUnderWay(t: S.Transfer): Chunk
    requires t.at.Transmitting?
  {
    Chunk(t.cfg.fileId, t.seqNum, t.at.data)
  }

  /** The sender goes on when its call has settled. */
  function Resume(t: S.Transfer, before: B.Channel, after: B.Channel, ok: bool): S.Transfer {
    if !t.at.Transmitting? || |after.settled| == |before.settled| || after.settled == [] then t
    else
      match after.settled[|after.settled| - 1].1
      case Resolved => S.Next(t, S.Transmitted(ok))
      case SendThrew => S.Next(t, S.TransmitFails)
      case TimedOut => S.Next(t, S.TransmitTimesOut(ok))
  }

  function Next(p: Pump, e: Event, threshold: nat): Pump
    requires Possible(p, e)
  {
    var c := p.channel;
    match e
    case AtSender(s) => p.(sender := S.Next(p.sender, s))
    case ReadCompletes(n, size, sendOk, ok) =>
      var t := S.Next(p.sender, S.ReadDone(n, ok));
      if n == 0 then p.(sender := t)
      else
        var d := B.Next(c, B.Call(ChunkUnderWay(t), size, sendOk), threshold);
        Pump(Resume(t, c, d, ok), d)
    case Low(sendOk, ok) =>
      var d := B.Next(c, B.LowFires(sendOk), threshold);
      Pump(Resume(p.sender, c, d, ok), d)
    case Timeout(call, ok) =>
      var d := B.Next(c, B.TimerFires(call), threshold);
      Pump(Resume(p.sender, c, d, ok), d)
    case Drains(left) => p.(channel := B.Next(c, B.Drains(left), threshold))
  }

  function Run(p: Pump, events: seq<Event>, threshold: nat): Option<Pump> {
    if events == [] then Some(p)
    else
      var init := Run(p, events[..|events| - 1], threshold);
      var e := events[|events| - 1];
      if init.None? || !Possible(init.value, e) then None else Some(Next(init.value, e, threshold))
  }

  /** One call per chunk, in chunk order, with the chunk as its message; a call waits exactly while
      the loop is suspended in it, and then the low-event listener is its own. */
  ghost predicate PumpInv(t: S.Transfer, c: B.Channel) {
    && SentAre(c.sent, t.chunks)
    && (if t.at.Transmitting? then
          && c.waiting == {|t.chunks|} && c.calls == |t.chunks| + 1 && c.listener.Some?
          && c.listener.value.call == |t.chunks| && c.listener.value.msg == ChunkUnderWay(t)
        else c.waiting == {} && c.listener.None? && (S.Chunking(t.at) ==> c.calls == |t.chunks|))
    && (t.at.Nowhere? || t.at.Hashing? ==> c.calls == 0 && |t.chunks| == 0)
  }

  /** Frame `i` is that of call `i` and carries chunk `i`. */
  predicate SentAre(sent: seq<B.Frame>, chunks: seq<Chunk>) {
    && |sent| == |chunks|
    && forall i :: 0 <= i < |sent| ==> sent[i].call == i && sent[i].msg == chunks[i]
  }

  lemma SenderSide(t: S.Transfer, e: S.Event, c: B.Channel)
    requires S.Inv(t) && S.Possible(t, e) && !OfSendCall(e) && PumpInv(t, c)
    ensures PumpInv(S.Next(t, e), c)
  {
    hide S.DataInv, SentAre;
  }

  lemma ReadSide(p: Pump, n: nat, size: nat, sendOk: bool, ok: bool, threshold: nat)
    requires S.Inv(p.sender) && PumpInv(p.sender, p.channel)
    requires Possible(p, ReadCompletes(n, size, sendOk, ok))
    ensures var d := Next(p, ReadCompletes(n, size, sendOk, ok), threshold); PumpInv(d.sender, d.channel)
  {
    hide S.DataInv, SentAre;
    if n > 0 {
      CallSide(p.sender, p.channel, n, size, sendOk, ok, threshold);
      // Hidden in the goal only, here and below: the steps before need the definitions.
      hide Resume, B.Next;
    }
  }

  lemma CallSide(t: S.Transfer, c: B.Channel, n: nat, size: nat, sendOk: bool, ok: bool, threshold: nat)
    requires t.at.Reading? && S.Possible(t, S.ReadDone(n, ok)) && n > 0 && PumpInv(t, c)
    ensures var t0 := S.Next(t, S.ReadDone(n, ok));
      var d := B.Next(c, B.Call(ChunkUnderWay(t0), size, sendOk), threshold);
      PumpInv(Resume(t0, c, d, ok), d)
  {
  }

  lemma WakeSide(p: Pump, e: Event, threshold: nat)
    requires S.Inv(p.sender) && PumpInv(p.sender, p.channel)
    requires Possible(p, e) && (e.Low? || e.Timeout? || e.Drains?)
    ensures var d := Next(p, e, threshold); PumpInv(d.sender, d.channel)
  {
    hide S.DataInv;
  }

  lemma SenderInvKept(p: Pump, e: Event, threshold: nat)
    requires S.Inv(p.sender) && Possible(p, e)
    ensures S.Inv(Next(p, e, threshold).sender)
  {
    match e {
      case AtSender(s) => S.InvStep(p.sender, s);
      case ReadCompletes(n, size, sendOk, ok) =>
        var t := S.Next(p.sender, S.ReadDone(n, ok));
        S.InvStep(p.sender, S.ReadDone(n, ok));
        if n > 0 {
          ResumeKeeps(t, p.channel, B.Next(p.channel, B.Call(ChunkUnderWay(t), size, sendOk), threshold), ok);
        }
      case Low(sendOk, ok) => ResumeKeeps(p.sender, p.channel, B.Next(p.channel, B.LowFires(sendOk), threshold), ok);
      case Timeout(call, ok) => ResumeKeeps(p.sender, p.channel, B.Next(p.channel, B.TimerFires(call), threshold), ok);
      case Drains(left) =>
    }
    hide S.Inv, S.Next, B.Next, Resume;
  }

  lemma ResumeKeeps(t: S.Transfer, before: B.Channel, after: B.Channel, ok: bool)
    requires S.Inv(t)
    ensures S.Inv(Resume(t, before, after, ok))
  {
    if t.at.Transmitting? {
      S.InvStep(t, S.Transmitted(ok));
      S.InvStep(t, S.TransmitFails);
      S.InvStep(t, S.TransmitTimesOut(ok));
    }
    hide S.Inv, S.Next;
  }

  lemma {:induction false} PumpRun(cfg: S.Config, events: seq<Event>, threshold: nat)
    requires Run(Initial(cfg), events, threshold).Some?
    ensures var p := Run(Initial(cfg), events, threshold).value;
      S.Inv(p.sender) && PumpInv(p.sender, p.channel)
  {
    if events == [] {
    } else {
      var init, e := events[..|events| - 1], events[|events| - 1];
      PumpRun(cfg, init, threshold);
      var p := Run(Initial(cfg), init, threshold).value;
      SenderInvKept(p, e, threshold);
      match e {
        case AtSender(s) => SenderSide(p.sender, s, p.channel);
        case ReadCompletes(n, size, sendOk, ok) => ReadSide(p, n, size, sendOk, ok, threshold);
        case _ => WakeSide(p, e, threshold);
      }
      hide S.Inv, PumpInv, Next, Possible;
    }
  }

  /** Whatever the buffer does: chunk `i` was the message of call `i` and was put on the bulk
      channel exactly once, nothing else was, and while a call waits the low event is wired to it,
      so the listener that concurrent callers lose is never lost here. */
  lemma {:induction false} EachChunkSentOnce(cfg: S.Config, events: seq<Event>, threshold: nat)
    requires Run(Initial(cfg), events, threshold).Some?
    ensures var p := Run(Initial(cfg), events, threshold).value;
      && SentAre(p.channel.sent, p.sender.chunks)
      && (forall id :: id in p.channel.waiting ==>
            && p.sender.at.Transmitting? && p.channel.listener.Some?
            && p.channel.listener.value.call == id && p.channel.listener.value.msg == ChunkUnderWay(p.sender))
      && (p.sender.at.Transmitting? ==> p.channel.waiting != {})
  {
    PumpRun(cfg, events, threshold);
    hide S.Inv, Run, SentAre;
  }

  lemma WaitsInSend(p: Pump, n: nat, size: nat, sendOk: bool, ok: bool, threshold: nat)
    requires S.Inv(p.sender) && PumpInv(p.sender, p.channel) && n > 0
    requires Possible(p, ReadCompletes(n, size, sendOk, ok))
    ensures var end := Next(p, ReadCompletes(n, size, sendOk, ok), threshold);
      && (end.sender.at.Transmitting? <==> p.channel.buffered > threshold)
      && (sendOk && p.channel.buffered <= threshold ==>
            && |end.sender.chunks| == |p.sender.chunks| + 1
            && end.sender.chunks[|p.sender.chunks|].data == p.sender.cfg.file[p.sender.position..p.sender.position + n])
  {
    hide S.DataInv, SentAre;
  }

  /** In every run the loop is left waiting in its send exactly when the buffer was above the
      threshold; otherwise the bytes just read leave at once, unless the send throws. */
  lemma {:induction false} LoopWaitsIff(cfg: S.Config, events: seq<Event>, n: nat, size: nat, sendOk: bool, ok: bool, threshold: nat)
    requires Run(Initial(cfg), events, threshold).Some? && n > 0
    requires Possible(Run(Initial(cfg), events, threshold).value, ReadCompletes(n, size, sendOk, ok))
    ensures var p, end := Run(Initial(cfg), events, threshold).value,
                          Run(Initial(cfg), events + [ReadCompletes(n, size, sendOk, ok)], threshold);
      && end.Some? && (end.value.sender.at.Transmitting? <==> p.channel.buffered > threshold)
      && (sendOk && p.channel.buffered <= threshold ==>
            && |end.value.sender.chunks| == |p.sender.chunks| + 1
            && end.value.sender.chunks[|p.sender.chunks|].data == p.sender.cfg.file[p.sender.position..p.sender.position + n])
  {
    PumpRun(cfg, events, threshold);
    var all := events + [ReadCompletes(n, size, sendOk, ok)];
    assert all[..|events|] == events;
    WaitsInSend(Run(Initial(cfg), events, threshold).value, n, size, sendOk, ok, threshold);
    hide S.Inv, PumpInv, Next, Possible;
  }
}
