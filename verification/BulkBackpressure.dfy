/** `sendBulkWithBackpressure`: a frame waits until the bulk channel's buffer is low, or times out.

    Each call owns a timer and a `resolved` flag, but all calls share one low-event listener. */
module BulkBackpressure {
  import opened Prelude
  import opened FileMessages

  const DEFAULT_THRESHOLD: nat := 256 * 1024
  const DEFAULT_TIMEOUT_MS: nat := 5000

  /** `msg` is what the caller passed, `size` the length of its encoding. */
  datatype Frame = Frame(call: nat, msg: Chunk, size: nat)

  datatype Outcome = Resolved | SendThrew | TimedOut

  /** `waiting`: calls whose timer is armed, which are the ones with `resolved` still false.
      `listener`: the frame that the installed low-event closure would send. */
  datatype Channel = Channel(
    buffered: nat,
    listener: Option<Frame>,
    waiting: set<nat>,
    calls: nat,
    sent: seq<Frame>,
    settled: seq<(nat, Outcome)>)

  const IDLE := Channel(0, None, {}, 0, [], [])

  /** `ok`: whether the send under the call throws. `Drains`: the network takes some bytes. */
  datatype Event =
    | Call(msg: Chunk, size: nat, ok: bool)
    | LowFires(ok: bool)
    | TimerFires(call: nat)
    | Drains(left: nat)

  function DoSend(c: Channel, f: Frame, ok: bool): Channel {
    if ok then c.(buffered := c.buffered + f.size, sent := c.sent + [f], settled := c.settled + [(f.call, Resolved)])
    else c.(settled := c.settled + [(f.call, SendThrew)])
  }

  /** A timer can fire while it is armed; the buffer only shrinks by itself. */
  predicate Possible(c: Channel, e: Event) {
    match e
    case TimerFires(id) => id in c.waiting
    case Drains(left) => left <= c.buffered
    case _ => true
  }

  function Next(c: Channel, e: Event, threshold: nat): Channel {
    match e
    case Call(msg, size, ok) =>
      var f := Frame(c.calls, msg, size);
      var c1 := c.(calls := c.calls + 1);
      if c.buffered <= threshold then DoSend(c1, f, ok)
      else c1.(waiting := c.waiting + {f.call}, listener := Some(f))
    case LowFires(ok) =>
      if c.listener.None? || c.listener.value.call !in c.waiting then c
      else DoSend(c.(waiting := c.waiting - {c.listener.value.call}, listener := None), c.listener.value, ok)
    case TimerFires(id) =>
      if id !in c.waiting then c
      else c.(waiting := c.waiting - {id}, listener := None, settled := c.settled + [(id, TimedOut)])
    case Drains(left) => c.(buffered := left)
  }

  function Run(events: seq<Event>, threshold: nat): Option<Channel> {
    if events == [] then Some(IDLE)
    else
      var c := Run(events[..|events| - 1], threshold);
      var e := events[|events| - 1];
      if c.None? || !Possible(c.value, e) then None else Some(Next(c.value, e, threshold))
  }

  // ── The session's bulk side ──────────────────────────────────────────────

  class BulkSide {
    const threshold: nat
    var buffered: nat
    var onBulkBufferedAmountLow: Option<Frame>
    var unresolved: set<nat>
    var calls: nat
    var sent: seq<Frame>
    var settled: seq<(nat, Outcome)>

    function Contents(): Channel
      reads this
    {
      Channel(buffered, onBulkBufferedAmountLow, unresolved, calls, sent, settled)
    }

    constructor (threshold: nat)
      ensures Contents() == IDLE && this.threshold == threshold
    {
      this.threshold := threshold;
      buffered, onBulkBufferedAmountLow, unresolved, calls, sent, settled := 0, None, {}, 0, [], [];
    }

    method SendNow(f: Frame, ok: bool)
      modifies this`buffered, this`sent, this`settled
      ensures Contents() == DoSend(old(Contents()), f, ok)
    {
      if ok {
        buffered := buffered + f.size;
        sent := sent + [f];
        settled := settled + [(f.call, Resolved)];
      } else {
        settled := settled + [(f.call, SendThrew)];
      }
    }

    method SendBulkWithBackpressure(msg: Chunk, size: nat, ok: bool)
      modifies this
      ensures Contents() == Next(old(Contents()), Call(msg, size, ok), threshold)
    {
      var f := Frame(calls, msg, size);
      calls := calls + 1;
      if buffered <= threshold {
        SendNow(f, ok);
        return;
      }
      unresolved := unresolved + {f.call};
      onBulkBufferedAmountLow := Some(f);
    }

    method OnBufferedAmountLow(ok: bool)
      modifies this
      ensures Contents() == Next(old(Contents()), LowFires(ok), threshold)
    {
      if onBulkBufferedAmountLow.Some? {
        var f := onBulkBufferedAmountLow.value;
        if f.call in unresolved {
          unresolved := unresolved - {f.call};
          onBulkBufferedAmountLow := None;
          SendNow(f, ok);
        }
      }
    }

    /** Clears the listener even when another call has installed it. */
    method OnTimeout(call: nat)
      modifies this
      ensures Contents() == Next(old(Contents()), TimerFires(call), threshold)
    {
      if call in unresolved {
        unresolved := unresolved - {call};
        onBulkBufferedAmountLow := None;
        settled := settled + [(call, TimedOut)];
      }
    }
  }

  // ── Every call sends at most once and settles at most once ───────────────

  predicate Settled(settled: seq<(nat, Outcome)>, id: nat) {
    exists i :: 0 <= i < |settled| && settled[i].0 == id
  }

  predicate Distinct(ids: seq<nat>) {
    forall i, j :: 0 <= i < j < |ids| ==> ids[i] != ids[j]
  }

  function Ids(settled: seq<(nat, Outcome)>): (ids: seq<nat>)
    ensures |ids| == |settled| && forall i :: 0 <= i < |ids| ==> ids[i] == settled[i].0
  {
    seq(|settled|, i requires 0 <= i < |settled| => settled[i].0)
  }

  function CallsOf(frames: seq<Frame>): (ids: seq<nat>)
    ensures |ids| == |frames| && forall i :: 0 <= i < |ids| ==> ids[i] == frames[i].call
  {
    seq(|frames|, i requires 0 <= i < |frames| => frames[i].call)
  }

  /** The calls whose promise resolved, in that order. */
  function ResolvedCalls(settled: seq<(nat, Outcome)>): (ids: seq<nat>)
    ensures forall i :: 0 <= i < |ids| ==> Settled(settled, ids[i])
  {
    if settled == [] then []
    else
      var init, last := settled[..|settled| - 1], settled[|settled| - 1];
      assert forall id :: Settled(init, id) ==> Settled(settled, id);
      ResolvedCalls(init) + if last.1.Resolved? then [last.0] else []
  }

  /** A call is settled or waits, never both; the listener belongs to a waiting call, so the
      `resolved` tests of the closures never fail. */
  ghost predicate WaitingInv(settled: seq<(nat, Outcome)>, waiting: set<nat>, calls: nat) {
    && (forall id: nat :: id < calls <==> id in waiting || Settled(settled, id))
    && (forall id :: id in waiting ==> !Settled(settled, id))
    && Distinct(Ids(settled))
  }

  ghost predicate Inv(c: Channel) {
    && WaitingInv(c.settled, c.waiting, c.calls)
    && (c.listener.Some? ==> c.listener.value.call in c.waiting)
    && CallsOf(c.sent) == ResolvedCalls(c.settled)
  }

  lemma SettledSnoc(settled: seq<(nat, Outcome)>, id: nat, o: Outcome)
    ensures forall k :: Settled(settled + [(id, o)], k) == (Settled(settled, k) || k == id)
    ensures ResolvedCalls(settled + [(id, o)]) == ResolvedCalls(settled) + if o.Resolved? then [id] else []
  {
    var all := settled + [(id, o)];
    assert all[..|settled|] == settled;
    assert all[|settled|].0 == id;
    forall k ensures Settled(all, k) == (Settled(settled, k) || k == id) {
      if Settled(settled, k) {
        var i :| 0 <= i < |settled| && settled[i].0 == k;
        assert all[i].0 == k;
      }
    }
  }

  lemma SettleKeeps(settled: seq<(nat, Outcome)>, waiting: set<nat>, calls: nat, id: nat, o: Outcome)
    requires WaitingInv(settled, waiting, calls) && id in waiting
    ensures WaitingInv(settled + [(id, o)], waiting - {id}, calls)
  {
    SettledSnoc(settled, id, o);
    if exists i :: 0 <= i < |settled| && Ids(settled)[i] == id {
      var i :| 0 <= i < |settled| && Ids(settled)[i] == id;
      assert settled[i].0 == id;
    }
  }

  lemma EnterKeeps(settled: seq<(nat, Outcome)>, waiting: set<nat>, calls: nat)
    requires WaitingInv(settled, waiting, calls)
    ensures WaitingInv(settled, waiting + {calls}, calls + 1)
  {
    assert calls !in waiting && !Settled(settled, calls);
  }

  lemma InvStep(c: Channel, e: Event, threshold: nat)
    requires Inv(c) && Possible(c, e)
    ensures Inv(Next(c, e, threshold))
  {
    hide WaitingInv, ResolvedCalls;
    match e {
      case Call(_, size, ok) =>
        var o := if ok then Resolved else SendThrew;
        EnterKeeps(c.settled, c.waiting, c.calls);
        SettleKeeps(c.settled, c.waiting + {c.calls}, c.calls + 1, c.calls, o);
        SettledSnoc(c.settled, c.calls, o);
        EntersFresh(c);
      case LowFires(ok) =>
        if c.listener.Some? {
          var o := if ok then Resolved else SendThrew;
          SettleKeeps(c.settled, c.waiting, c.calls, c.listener.value.call, o);
          SettledSnoc(c.settled, c.listener.value.call, o);
        }
      case TimerFires(id) =>
        SettleKeeps(c.settled, c.waiting, c.calls, id, TimedOut);
        SettledSnoc(c.settled, id, TimedOut);
      case Drains(left) =>
    }
  }

  lemma EntersFresh(c: Channel)
    requires Inv(c)
    ensures c.waiting + {c.calls} - {c.calls} == c.waiting
  {
  }

  lemma {:induction false} InvRun(events: seq<Event>, threshold: nat)
    requires Run(events, threshold).Some?
    ensures Inv(Run(events, threshold).value)
  {
    if events == [] {
    } else {
      InvRun(events[..|events| - 1], threshold);
      InvStep(Run(events[..|events| - 1], threshold).value, events[|events| - 1], threshold);
    }
  }

  /** Any number of concurrent calls, any interleaving of events: each call settles at most once,
      a call that did not settle still waits, and the frames sent are exactly those of the calls
      that resolved, each once. */
  lemma SendsOnceSettlesOnce(events: seq<Event>, threshold: nat)
    requires Run(events, threshold).Some?
    ensures var c := Run(events, threshold).value;
      && Distinct(Ids(c.settled)) && Distinct(CallsOf(c.sent))
      && (forall id: nat :: id < c.calls <==> id in c.waiting || Settled(c.settled, id))
      && (forall id :: id in c.waiting ==> !Settled(c.settled, id))
      && CallsOf(c.sent) == ResolvedCalls(c.settled)
  {
    InvRun(events, threshold);
    ResolvedDistinct(Run(events, threshold).value.settled);
  }

  lemma {:induction false} ResolvedDistinct(settled: seq<(nat, Outcome)>)
    requires Distinct(Ids(settled))
    ensures Distinct(ResolvedCalls(settled))
  {
    if settled == [] {
    } else {
      var init, last := settled[..|settled| - 1], settled[|settled| - 1];
      assert forall i :: 0 <= i < |init| ==> Ids(init)[i] == Ids(settled)[i];
      ResolvedDistinct(init);
      forall i | 0 <= i < |init|
        ensures init[i].0 != last.0
      {
        assert Ids(settled)[i] != Ids(settled)[|init|];
      }
    }
  }

  // ── When frames leave ────────────────────────────────────────────────────

  lemma RunSnoc(events: seq<Event>, e: Event, threshold: nat)
    requires Run(events, threshold).Some? && Possible(Run(events, threshold).value, e)
    ensures Run(events + [e], threshold) == Some(Next(Run(events, threshold).value, e, threshold))
  {
    assert (events + [e])[..|events|] == events;
  }

  /** In every run a new call waits exactly when the buffer is above the threshold. Otherwise it
      settles at once, and its frame is the last one sent unless the send threw. */
  lemma WaitsIff(events: seq<Event>, msg: Chunk, size: nat, ok: bool, threshold: nat)
    requires Run(events, threshold).Some?
    ensures var c, end := Run(events, threshold).value, Run(events + [Call(msg, size, ok)], threshold);
      && end.Some? && (c.calls in end.value.waiting <==> c.buffered > threshold)
      && (if c.buffered > threshold then
            end.value.sent == c.sent && end.value.settled == c.settled && end.value.listener == Some(Frame(c.calls, msg, size))
          else
            && end.value.settled == c.settled + [(c.calls, if ok then Resolved else SendThrew)]
            && end.value.sent == c.sent + (if ok then [Frame(c.calls, msg, size)] else [])
            && end.value.buffered == c.buffered + (if ok then size else 0) && end.value.listener == c.listener)
  {
    InvRun(events, threshold);
    assert Run(events, threshold).value.calls !in Run(events, threshold).value.waiting;
    RunSnoc(events, Call(msg, size, ok), threshold);
    // Hidden in the goal only, here and below: the steps before need the definitions.
    hide Run;
  }

  /** In every run the low event sends the frame of the installed listener and settles its call; a
      timeout settles its own call and sends nothing. Either way the listener is gone. */
  lemma WakesAndTimeouts(events: seq<Event>, ok: bool, id: nat, threshold: nat)
    requires Run(events, threshold).Some?
    ensures var c, low := Run(events, threshold).value, Run(events + [LowFires(ok)], threshold);
      && low.Some? && low.value.listener.None?
      && (match c.listener
          case None => low.value == c
          case Some(f) =>
            && f.call !in low.value.waiting
            && low.value.sent == c.sent + (if ok then [f] else [])
            && low.value.settled == c.settled + [(f.call, if ok then Resolved else SendThrew)])
    ensures var c, late := Run(events, threshold).value, Run(events + [TimerFires(id)], threshold);
      id in c.waiting ==>
        && late.Some? && late.value.listener.None? && id !in late.value.waiting
        && late.value.sent == c.sent && late.value.settled == c.settled + [(id, TimedOut)]
  {
    InvRun(events, threshold);
    RunSnoc(events, LowFires(ok), threshold);
    if id in Run(events, threshold).value.waiting {
      RunSnoc(events, TimerFires(id), threshold);
    }
    hide Run, WaitingInv;
  }

  // ── The buffer bound ─────────────────────────────────────────────────────

  /** The platform fires the low event only when the buffer is at or below the threshold. */
  predicate LowWhenLow(events: seq<Event>, threshold: nat) {
    forall i :: 0 <= i < |events| && events[i].LowFires? && Run(events[..i], threshold).Some? ==>
      Run(events[..i], threshold).value.buffered <= threshold
  }

  predicate FramesUpTo(events: seq<Event>, largest: nat) {
    forall i :: 0 <= i < |events| && events[i].Call? ==> events[i].size <= largest
  }

  lemma {:induction false} BufferBound(events: seq<Event>, threshold: nat, largest: nat)
    requires Run(events, threshold).Some? && LowWhenLow(events, threshold) && FramesUpTo(events, largest)
    ensures var c := Run(events, threshold).value;
      c.buffered <= threshold + largest && (c.listener.Some? ==> c.listener.value.size <= largest)
  {
    if events == [] {
    } else {
      var init := events[..|events| - 1];
      assert forall i :: 0 <= i < |init| ==> init[i] == events[i] && init[..i] == events[..i];
      BufferBound(init, threshold, largest);
      assert events[|init|].LowFires? ==> Run(events[..|init|], threshold).value.buffered <= threshold;
    }
  }

  // ── Concurrent callers ───────────────────────────────────────────────────

  function Outcomes(settled: seq<(nat, Outcome)>, id: nat): set<Outcome> {
    set s | s in settled && s.0 == id :: s.1
  }

  /** A waiting call whose listener was overwritten, by a later call or by another call's timeout,
      can only time out: whatever happens next, its frame is never sent. */
  lemma {:induction false} OverwrittenOnlyTimesOut(events: seq<Event>, more: seq<Event>, threshold: nat, id: nat)
    requires Run(events, threshold).Some? && Run(events + more, threshold).Some?
    requires var c := Run(events, threshold).value;
      id in c.waiting && (c.listener.None? || c.listener.value.call != id)
    ensures var d := Run(events + more, threshold).value;
      && (d.listener.None? || d.listener.value.call != id)
      && (id in d.waiting || Outcomes(d.settled, id) == {TimedOut})
      && id !in CallsOf(d.sent)
    decreases |more|
  {
    InvRun(events, threshold);
    if more == [] {
      assert events + more == events;
      NotSentYet(Run(events, threshold).value, id);
    } else {
      var init, e := more[..|more| - 1], more[|more| - 1];
      assert (events + more)[..|events + more| - 1] == events + init;
      OverwrittenOnlyTimesOut(events, init, threshold, id);
      InvRun(events + init, threshold);
      OverwrittenStep(Run(events + init, threshold).value, e, threshold, id);
    }
  }

  lemma NotSentYet(c: Channel, id: nat)
    requires Inv(c) && id in c.waiting
    ensures id !in CallsOf(c.sent) && Outcomes(c.settled, id) == {}
  {
    forall s | s in c.settled
      ensures s.0 != id
    {
      var i :| 0 <= i < |c.settled| && c.settled[i] == s;
      assert s.0 == id ==> Settled(c.settled, id);
    }
  }

  lemma OverwrittenStep(c: Channel, e: Event, threshold: nat, id: nat)
    requires Inv(c) && Possible(c, e) && id < c.calls
    requires c.listener.None? || c.listener.value.call != id
    requires id in c.waiting || Outcomes(c.settled, id) == {TimedOut}
    requires id !in CallsOf(c.sent)
    ensures var d := Next(c, e, threshold);
      && (d.listener.None? || d.listener.value.call != id)
      && (id in d.waiting || Outcomes(d.settled, id) == {TimedOut})
      && id !in CallsOf(d.sent)
  {
    if id in c.waiting {
      NotSentYet(c, id);
    }
  }

  /** Exactly which waiting calls can still be sent, in some continuation: the one that the
      installed listener belongs to. */
  lemma {:induction false} SentLaterIff(events: seq<Event>, threshold: nat, id: nat)
    requires Run(events, threshold).Some? && id in Run(events, threshold).value.waiting
    ensures var c := Run(events, threshold).value;
      (exists more ::
         Run(events + more, threshold).Some? && id in CallsOf(Run(events + more, threshold).value.sent))
      <==> c.listener.Some? && c.listener.value.call == id
  {
    var c := Run(events, threshold).value;
    if c.listener.Some? && c.listener.value.call == id {
      WakeSends(c, threshold);
      var more := [LowFires(true)];
      assert (events + more)[..|events|] == events;
      assert Run(events + more, threshold) == Some(Next(c, LowFires(true), threshold));
    } else {
      forall more | Run(events + more, threshold).Some?
        ensures id !in CallsOf(Run(events + more, threshold).value.sent)
      {
        OverwrittenOnlyTimesOut(events, more, threshold, id);
      }
    }
  }

  lemma WakeSends(c: Channel, threshold: nat)
    requires c.listener.Some? && c.listener.value.call in c.waiting
    ensures c.listener.value.call in CallsOf(Next(c, LowFires(true), threshold).sent)
  {
    var sent := Next(c, LowFires(true), threshold).sent;
    assert CallsOf(sent)[|c.sent|] == c.listener.value.call;
  }

  /** Three calls in a row, the first of which fills the buffer: the third takes the listener that
      the second installed. */
  lemma OverwrittenReachable(a: Chunk, b: Chunk, c: Chunk, threshold: nat)
    ensures var end := Run([] + [Call(a, threshold + 1, true)] + [Call(b, 1, true)] + [Call(c, 1, true)], threshold);
      end.Some? && 1 in end.value.waiting && end.value.listener == Some(Frame(2, c, 1))
      && end.value.sent == [Frame(0, a, threshold + 1)]
  {
    var one := [] + [Call(a, threshold + 1, true)];
    var two := one + [Call(b, 1, true)];
    var c1 := Next(IDLE, Call(a, threshold + 1, true), threshold);
    var c2 := Next(c1, Call(b, 1, true), threshold);
    assert [] + [Frame(0, a, threshold + 1)] == [Frame(0, a, threshold + 1)];
    assert c1.buffered == threshold + 1 && c1.calls == 1 && c2.waiting == {1} && c2.calls == 2;
    assert Run([], threshold) == Some(IDLE);
    hide Run;
    RunSnoc([], Call(a, threshold + 1, true), threshold);
    RunSnoc(one, Call(b, 1, true), threshold);
    RunSnoc(two, Call(c, 1, true), threshold);
  }

  // ── One caller at a time ─────────────────────────────────────────────────

  /** A serial caller, like the chunk loop, calls again only after its last call settled. */
  predicate Serial(events: seq<Event>, threshold: nat) {
    forall i :: 0 <= i < |events| && events[i].Call? && Run(events[..i], threshold).Some? ==>
      Run(events[..i], threshold).value.waiting == {}
  }

  predicate Increasing(frames: seq<Frame>) {
    forall i, j :: 0 <= i < j < |frames| ==> frames[i].call < frames[j].call
  }

  ghost predicate SerialInv(c: Channel) {
    && c.waiting == (if c.listener.Some? then {c.calls - 1} else {})
    && (c.listener.Some? ==> c.listener.value.call == c.calls - 1)
    && Increasing(c.sent)
    && (forall i :: 0 <= i < |c.sent| ==> c.sent[i].call < c.calls && c.sent[i].call !in c.waiting)
  }

  /** For a serial caller the listener is never lost: whoever waits is the one the low event wakes,
      and frames leave in call order. */
  lemma {:induction false} SerialKeepsOrder(events: seq<Event>, threshold: nat)
    requires Run(events, threshold).Some? && Serial(events, threshold)
    ensures var c := Run(events, threshold).value;
      && Increasing(c.sent)
      && (forall id :: id in c.waiting ==> c.listener.Some? && c.listener.value.call == id)
      && SerialInv(c)
  {
    if events == [] {
    } else {
      var init, e := events[..|events| - 1], events[|events| - 1];
      assert forall i :: 0 <= i < |init| ==> init[i] == events[i] && init[..i] == events[..i];
      SerialKeepsOrder(init, threshold);
      assert events[|init|].Call? ==> Run(events[..|init|], threshold).value.waiting == {};
      SerialStep(Run(init, threshold).value, e, threshold);
    }
  }

  lemma SerialStep(c: Channel, e: Event, threshold: nat)
    requires SerialInv(c) && Possible(c, e) && (e.Call? ==> c.waiting == {})
    ensures SerialInv(Next(c, e, threshold))
  {
  }
}
