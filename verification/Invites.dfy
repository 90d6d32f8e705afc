/** Single-use invites: created with an expiry, redeemed once, swept when old. */
module Invites {
  import opened Prelude

  datatype Record = Record(pubkey: string, peerId: string, expiresAt: int)

  type Records = map<string, Record>

  datatype Creation =
    | Created(peerId: string, pubkey: string)
    | InvalidRequest

  // ── The three updates ────────────────────────────────────────────────────

  /** `expiresAt` is `None` when the date does not parse. */
  predicate Creatable(hash: string, pubkey: string, expiresAt: Option<int>, now: int) {
    hash != "" && pubkey != "" && expiresAt.Some? && expiresAt.value > now
  }

  predicate Redeemable(m: Records, hash: string, now: int) {
    hash in m && m[hash].expiresAt > now
  }

  function Redemption(m: Records, hash: string, now: int): Option<Record> {
    if hash != "" && Redeemable(m, hash, now) then Some(m[hash]) else None
  }

  function Swept(m: Records, now: int): Records {
    map h | h in m && m[h].expiresAt > now :: m[h]
  }

  // ── Runs ─────────────────────────────────────────────────────────────────

  datatype Event =
    | Create(hash: string, pubkey: string, peerId: string, expiresAt: Option<int>, now: int)
    | Redeem(hash: string, now: int)
    | Sweep(now: int)

  function Apply(m: Records, e: Event): Records {
    match e
    case Create(h, k, p, x, now) => if Creatable(h, k, x, now) then m[h := Record(k, p, x.value)] else m
    case Redeem(h, now) => if h == "" then m else m - {h}
    case Sweep(now) => Swept(m, now)
  }

  function Replay(events: seq<Event>): Records {
    if events == [] then map[] else Apply(Replay(events[..|events| - 1]), events[|events| - 1])
  }

  predicate Chronological(events: seq<Event>) {
    forall i, j :: 0 <= i < j < |events| ==> events[i].now <= events[j].now
  }

  /** The reply to the `i`-th event when it is a redeem. */
  function Reply(events: seq<Event>, i: nat): Option<Record>
    requires i < |events|
  {
    if events[i].Redeem? then Redemption(Replay(events[..i]), events[i].hash, events[i].now) else None
  }

  // ── What the history alone says ──────────────────────────────────────────

  /** The record of the last successful create of `hash`, unless a redeem of it came later. */
  function Outstanding(events: seq<Event>, hash: string): Option<Record> {
    if events == [] then None
    else
      var before := Outstanding(events[..|events| - 1], hash);
      match events[|events| - 1]
      case Create(h, k, p, x, now) =>
        if h == hash && Creatable(h, k, x, now) then Some(Record(k, p, x.value)) else before
      case Redeem(h, now) => if h == hash && h != "" then None else before
      case Sweep(now) => before
  }

  function Unexpired(r: Option<Record>, now: int): Option<Record> {
    if r.Some? && r.value.expiresAt > now then r else None
  }

  function Stored(m: Records, hash: string): Option<Record> {
    if hash in m then Some(m[hash]) else None
  }

  /** The store and the history differ at most in records that have expired. */
  lemma {:induction false} StoreFollowsHistory(events: seq<Event>, hash: string, now: int)
    requires Chronological(events) && forall i :: 0 <= i < |events| ==> events[i].now <= now
    ensures Unexpired(Stored(Replay(events), hash), now) == Unexpired(Outstanding(events, hash), now)
    ensures Stored(Replay(events), hash).Some? ==> Stored(Replay(events), hash) == Outstanding(events, hash)
  {
    if events == [] {
    } else {
      StoreFollowsHistory(events[..|events| - 1], hash, now);
    }
  }

  /** A redeem succeeds exactly when the last create of that hash has not been redeemed and has
      not expired, and returns that create's record. Sweeps play no part. */
  lemma RedeemFollowsHistory(events: seq<Event>, i: nat)
    requires Chronological(events) && i < |events| && events[i].Redeem?
    ensures Reply(events, i)
         == if events[i].hash == "" then None
            else Unexpired(Outstanding(events[..i], events[i].hash), events[i].now)
  {
    StoreFollowsHistory(events[..i], events[i].hash, events[i].now);
  }

  function WithoutSweeps(events: seq<Event>): seq<Event> {
    if events == [] then []
    else
      WithoutSweeps(events[..|events| - 1])
      + (if events[|events| - 1].Sweep? then [] else [events[|events| - 1]])
  }

  lemma {:induction false} OutstandingWithoutSweeps(events: seq<Event>, hash: string)
    ensures Outstanding(WithoutSweeps(events), hash) == Outstanding(events, hash)
  {
    if events == [] {
    } else {
      var init, e := events[..|events| - 1], events[|events| - 1];
      OutstandingWithoutSweeps(init, hash);
      if e.Sweep? {
        assert WithoutSweeps(events) == WithoutSweeps(init);
      } else {
        assert WithoutSweeps(events)[..|WithoutSweeps(events)| - 1] == WithoutSweeps(init);
      }
    }
  }

  /** Two histories that differ only in their sweeps answer the next redeem alike. */
  lemma {:induction false} SweepInvisible(a: seq<Event>, b: seq<Event>, hash: string, now: int)
    requires WithoutSweeps(a) == WithoutSweeps(b)
    requires Chronological(a + [Redeem(hash, now)]) && Chronological(b + [Redeem(hash, now)])
    ensures Reply(a + [Redeem(hash, now)], |a|) == Reply(b + [Redeem(hash, now)], |b|)
  {
    var ra, rb := a + [Redeem(hash, now)], b + [Redeem(hash, now)];
    assert ra[..|a|] == a && rb[..|b|] == b;
    RedeemFollowsHistory(ra, |a|);
    RedeemFollowsHistory(rb, |b|);
    OutstandingWithoutSweeps(a, hash);
    OutstandingWithoutSweeps(b, hash);
  }

  // ── Counting ─────────────────────────────────────────────────────────────

  function Creates(events: seq<Event>, hash: string): nat {
    if events == [] then 0
    else
      var e := events[|events| - 1];
      Creates(events[..|events| - 1], hash)
      + (if e.Create? && e.hash == hash && Creatable(e.hash, e.pubkey, e.expiresAt, e.now) then 1 else 0)
  }

  function Redeems(events: seq<Event>, hash: string): nat {
    if events == [] then 0
    else
      var n := |events| - 1;
      Redeems(events[..n], hash)
      + (if events[n].Redeem? && events[n].hash == hash && Reply(events, n).Some? then 1 else 0)
  }

  /** Successful redeems never outnumber successful creates, whatever the clock does; a stored
      record is one create in hand. */
  lemma {:induction false} RedeemedAtMostCreated(events: seq<Event>, hash: string)
    ensures Redeems(events, hash) + (if hash in Replay(events) then 1 else 0) <= Creates(events, hash)
  {
    if events == [] {
    } else {
      var n := |events| - 1;
      RedeemedAtMostCreated(events[..n], hash);
    }
  }

  /** Until the hash is created again, a second redeem finds nothing. */
  lemma {:induction false} SingleUse(events: seq<Event>, i: nat, j: nat)
    requires i < j < |events| && events[i].Redeem? && events[j].Redeem? && events[i].hash == events[j].hash
    requires forall k :: i < k < j ==> !(events[k].Create? && events[k].hash == events[i].hash)
    ensures Reply(events, j).None?
  {
    if events[i].hash != "" {
      AbsentUntilCreated(events[..j], i, events[i].hash);
    }
  }

  lemma {:induction false} AbsentUntilCreated(events: seq<Event>, i: nat, hash: string)
    requires i < |events| && events[i].Redeem? && events[i].hash == hash && hash != ""
    requires forall k :: i < k < |events| ==> !(events[k].Create? && events[k].hash == hash)
    ensures hash !in Replay(events)
  {
    var n := |events| - 1;
    if i < n {
      AbsentUntilCreated(events[..n], i, hash);
    }
  }
}
