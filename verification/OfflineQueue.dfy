/** Notifications for absent peers: queued per peer, drained by the next register. */
module OfflineQueue {
  import opened Prelude

  datatype Notification = Notification(sealedBox: string, queuedAt: int)

  type Queues = map<string, seq<Notification>>

  function QueueOf(q: Queues, peer: string): seq<Notification> {
    if peer in q then q[peer] else []
  }

  function Enqueue(q: Queues, peer: string, n: Notification): Queues {
    q[peer := QueueOf(q, peer) + [n]]
  }

  /** The entries younger than `cutoff`, in queue order. */
  function Active(queue: seq<Notification>, cutoff: int): seq<Notification> {
    if queue == [] then []
    else (if queue[0].queuedAt > cutoff then [queue[0]] else []) + Active(queue[1..], cutoff)
  }

  function Expired(queue: seq<Notification>, cutoff: int): seq<Notification> {
    if queue == [] then []
    else (if queue[0].queuedAt > cutoff then [] else [queue[0]]) + Expired(queue[1..], cutoff)
  }

  // ── Runs ─────────────────────────────────────────────────────────────────

  /** `Accept` is a notification that passed validation; `live` says that the target was online
      and its socket took the frame. `Drain` is an admitted register. */
  datatype Event =
    | Accept(to: string, n: Notification, live: bool)
    | Drain(peer: string, now: int)

  function Time(e: Event): int {
    if e.Accept? then e.n.queuedAt else e.now
  }

  function Apply(q: Queues, e: Event): Queues {
    match e
    case Accept(to, n, live) => if live then q else Enqueue(q, to, n)
    case Drain(peer, _) => q - {peer}
  }

  function Replay(events: seq<Event>): Queues {
    if events == [] then map[] else Apply(Replay(events[..|events| - 1]), events[|events| - 1])
  }

  predicate Chronological(events: seq<Event>) {
    forall i, j :: 0 <= i < j < |events| ==> Time(events[i]) <= Time(events[j])
  }

  /** What `peer` was sent, dropped for age, and had accepted for it over a run. */
  datatype Ledger = Ledger(
    accepted: multiset<Notification>,
    handed: multiset<Notification>,
    expired: multiset<Notification>,
    drained: seq<Notification>,
    everQueued: seq<Notification>)

  const NOTHING := Ledger(multiset{}, multiset{}, multiset{}, [], [])

  function Account(l: Ledger, q: Queues, e: Event, peer: string, ttl: int): Ledger {
    match e
    case Accept(to, n, live) =>
      if to != peer then l
      else if live then l.(accepted := l.accepted + multiset{n}, handed := l.handed + multiset{n})
      else l.(accepted := l.accepted + multiset{n}, everQueued := l.everQueued + [n])
    case Drain(p, now) =>
      if p != peer then l
      else
        var queue := QueueOf(q, peer);
        l.(handed := l.handed + multiset(Active(queue, now - ttl)),
           expired := l.expired + multiset(Expired(queue, now - ttl)),
           drained := l.drained + queue)
  }

  function Books(events: seq<Event>, peer: string, ttl: int): Ledger {
    if events == [] then NOTHING
    else
      var init := events[..|events| - 1];
      Account(Books(init, peer, ttl), Replay(init), events[|events| - 1], peer, ttl)
  }

  // ── Conservation ─────────────────────────────────────────────────────────

  lemma {:induction false} SplitByAge(queue: seq<Notification>, cutoff: int)
    ensures multiset(queue) == multiset(Active(queue, cutoff)) + multiset(Expired(queue, cutoff))
  {
    if queue == [] {
    } else {
      SplitByAge(queue[1..], cutoff);
      assert queue == [queue[0]] + queue[1..];
    }
  }

  ghost predicate Balanced(l: Ledger, queue: seq<Notification>) {
    && l.accepted == l.handed + multiset(queue) + l.expired
    && l.everQueued == l.drained + queue
  }

  /** Every accepted notification was handed to a socket, or still waits, or expired at a drain:
      once, and in no two of these ways. The queue is what was queued and not yet drained, in
      order of arrival. */
  lemma {:induction false} Conservation(events: seq<Event>, peer: string, ttl: int)
    ensures Balanced(Books(events, peer, ttl), QueueOf(Replay(events), peer))
  {
    if events == [] {
    } else {
      var init, e := events[..|events| - 1], events[|events| - 1];
      var l, q := Books(init, peer, ttl), Replay(init);
      Conservation(init, peer, ttl);
      BalancedStep(l, q, e, peer, ttl);
    }
  }

  lemma BalancedStep(l: Ledger, q: Queues, e: Event, peer: string, ttl: int)
    requires Balanced(l, QueueOf(q, peer))
    ensures Balanced(Account(l, q, e, peer, ttl), QueueOf(Apply(q, e), peer))
  {
    hide Balanced, Active, Expired;
    match e {
      case Accept(to, n, live) =>
        if to == peer {
          BalancedAccept(l, QueueOf(q, peer), n);
        }
      case Drain(p, now) =>
        if p == peer {
          BalancedDrain(l, QueueOf(q, peer), now - ttl);
        }
    }
  }

  lemma BalancedAccept(l: Ledger, queue: seq<Notification>, n: Notification)
    requires Balanced(l, queue)
    ensures Balanced(l.(accepted := l.accepted + multiset{n}, handed := l.handed + multiset{n}), queue)
    ensures Balanced(l.(accepted := l.accepted + multiset{n}, everQueued := l.everQueued + [n]), queue + [n])
  {
    assert multiset(queue + [n]) == multiset(queue) + multiset{n};
  }

  lemma BalancedDrain(l: Ledger, queue: seq<Notification>, cutoff: int)
    requires Balanced(l, queue)
    ensures Balanced(
              l.(handed := l.handed + multiset(Active(queue, cutoff)),
                 expired := l.expired + multiset(Expired(queue, cutoff)),
                 drained := l.drained + queue), [])
  {
    SplitByAge(queue, cutoff);
    assert l.drained + queue + [] == l.drained + queue;
  }

  // ── Order and expiry ─────────────────────────────────────────────────────

  predicate Sorted(queue: seq<Notification>) {
    forall i, j :: 0 <= i < j < |queue| ==> queue[i].queuedAt <= queue[j].queuedAt
  }

  predicate EndsBy(queue: seq<Notification>, t: int) {
    forall i :: 0 <= i < |queue| ==> queue[i].queuedAt <= t
  }

  lemma {:induction false} QueuesSorted(events: seq<Event>, peer: string, now: int)
    requires Chronological(events) && forall i :: 0 <= i < |events| ==> Time(events[i]) <= now
    ensures Sorted(QueueOf(Replay(events), peer)) && EndsBy(QueueOf(Replay(events), peer), now)
  {
    if events == [] {
    } else {
      var init, e := events[..|events| - 1], events[|events| - 1];
      QueuesSorted(init, peer, Time(e));
      assert Time(e) <= now;
      if e.Accept? && e.to == peer && !e.live {
        SortedSnoc(QueueOf(Replay(init), peer), e.n);
      }
    }
  }

  lemma SortedSnoc(queue: seq<Notification>, n: Notification)
    requires Sorted(queue) && EndsBy(queue, n.queuedAt)
    ensures Sorted(queue + [n]) && EndsBy(queue + [n], n.queuedAt)
  {
  }

  /** In a sorted queue expiry removes a prefix and keeps a suffix. */
  lemma {:induction false} ActiveIsSuffix(queue: seq<Notification>, cutoff: int)
    requires Sorted(queue)
    ensures queue == Expired(queue, cutoff) + Active(queue, cutoff)
  {
    if queue == [] {
    } else if queue[0].queuedAt > cutoff {
      AllYounger(queue, cutoff);
    } else {
      ActiveIsSuffix(queue[1..], cutoff);
      assert queue == [queue[0]] + queue[1..];
    }
  }

  lemma {:induction false} AllYounger(queue: seq<Notification>, cutoff: int)
    requires forall i :: 0 <= i < |queue| ==> queue[i].queuedAt > cutoff
    ensures Active(queue, cutoff) == queue && Expired(queue, cutoff) == []
  {
    if queue == [] {
    } else {
      AllYounger(queue[1..], cutoff);
    }
  }

  lemma {:induction false} ActiveAges(queue: seq<Notification>, cutoff: int)
    ensures forall n :: n in Active(queue, cutoff) <==> n in queue && n.queuedAt > cutoff
    ensures forall n :: n in Expired(queue, cutoff) <==> n in queue && n.queuedAt <= cutoff
  {
    if queue == [] {
    } else {
      ActiveAges(queue[1..], cutoff);
      assert queue == [queue[0]] + queue[1..];
    }
  }

  /** What a drain hands over is the unexpired end of the arrivals since the drain before it, in
      the order they were accepted. */
  lemma DrainDeliversSuffix(events: seq<Event>, peer: string, now: int, ttl: int)
    requires Chronological(events) && forall i :: 0 <= i < |events| ==> Time(events[i]) <= now
    ensures var l := Books(events, peer, ttl); var queue := QueueOf(Replay(events), peer);
      l.everQueued == l.drained + (Expired(queue, now - ttl) + Active(queue, now - ttl))
    ensures forall n :: n in Active(QueueOf(Replay(events), peer), now - ttl) ==> now - n.queuedAt < ttl
    ensures forall n :: n in Expired(QueueOf(Replay(events), peer), now - ttl) ==> now - n.queuedAt >= ttl
  {
    hide Replay, Books, Active, Expired;
    var queue := QueueOf(Replay(events), peer);
    Conservation(events, peer, ttl);
    QueuesSorted(events, peer, now);
    ActiveIsSuffix(queue, now - ttl);
    ActiveAges(queue, now - ttl);
  }
}
