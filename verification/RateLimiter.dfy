/** The invite_create rate limiter: one counter per address, in windows that start with the
    first request and are forgotten lazily. */
module RateLimiter {
  import opened Prelude

  const WINDOW_MS := 3_600_000

  datatype Entry = Entry(windowStart: int, count: nat)

  type Counters = map<string, Entry>

  // ── Specification of one call ────────────────────────────────────────────

  predicate StartsWindow(c: Counters, ip: string, now: int) {
    ip !in c || now - c[ip].windowStart >= WINDOW_MS
  }

  predicate Allowed(c: Counters, max: nat, ip: string, now: int) {
    StartsWindow(c, ip, now) || c[ip].count < max
  }

  function Cleaned(c: Counters, now: int): Counters {
    map ip | ip in c && c[ip].windowStart >= now - WINDOW_MS :: c[ip]
  }

  /** `sampled` is the outcome of the 1% draw that triggers a cleanup. */
  function After(c: Counters, max: nat, ip: string, now: int, sampled: bool): Counters {
    if StartsWindow(c, ip, now) then
      var started := c[ip := Entry(now, 1)];
      if sampled then Cleaned(started, now) else started
    else if c[ip].count >= max then c
    else c[ip := c[ip].(count := c[ip].count + 1)]
  }

  class Limiter {
    const maxRequests: nat
    var counters: Counters

    constructor (maxPerHour: nat)
      ensures maxRequests == maxPerHour && counters == map[]
    {
      maxRequests := maxPerHour;
      counters := map[];
    }

    method Check(ip: string, now: int, sampled: bool) returns (allowed: bool)
      modifies this
      ensures allowed == Allowed(old(counters), maxRequests, ip, now)
      ensures counters == After(old(counters), maxRequests, ip, now, sampled)
    {
      if ip !in counters || now - counters[ip].windowStart >= WINDOW_MS {
        counters := counters[ip := Entry(now, 1)];
        if sampled {
          Cleanup(now);
        }
        return true;
      }
      var entry := counters[ip];
      if entry.count >= maxRequests {
        return false;
      }
      counters := counters[ip := entry.(count := entry.count + 1)];
      return true;
    }

    method Cleanup(now: int)
      modifies this
      ensures counters == Cleaned(old(counters), now)
    {
      var cutoff := now - WINDOW_MS;
      var pending := counters.Keys;
      while pending != {}
        invariant pending <= old(counters).Keys && counters.Keys <= old(counters).Keys
        invariant forall ip :: ip in counters ==> counters[ip] == old(counters)[ip]
        invariant forall ip :: ip in old(counters) ==>
                    (ip in counters <==> ip in pending || old(counters)[ip].windowStart >= cutoff)
        decreases pending
      {
        var ip :| ip in pending;
        pending := pending - {ip};
        if counters[ip].windowStart < cutoff {
          counters := counters - {ip};
        }
      }
    }
  }

  // ── Runs ─────────────────────────────────────────────────────────────────

  datatype Request = Request(ip: string, now: int, sampled: bool)

  predicate Chronological(reqs: seq<Request>) {
    forall i, j :: 0 <= i < j < |reqs| ==> reqs[i].now <= reqs[j].now
  }

  function State(max: nat, reqs: seq<Request>): Counters {
    if reqs == [] then map[]
    else
      var r := reqs[|reqs| - 1];
      After(State(max, reqs[..|reqs| - 1]), max, r.ip, r.now, r.sampled)
  }

  predicate Answer(max: nat, reqs: seq<Request>, i: nat)
    requires i < |reqs|
  {
    Allowed(State(max, reqs[..i]), max, reqs[i].ip, reqs[i].now)
  }

  // ── Cleanup is invisible ─────────────────────────────────────────────────

  /** No `check` at `now` or later can tell `c` and `d` apart. */
  ghost predicate Alike(c: Counters, d: Counters, now: int) {
    forall ip :: StartsWindow(c, ip, now) == StartsWindow(d, ip, now)
              && (!StartsWindow(c, ip, now) ==> c[ip] == d[ip])
  }

  lemma AlikeLater(c: Counters, d: Counters, now: int, later: int)
    requires Alike(c, d, now) && now <= later
    ensures Alike(c, d, later)
  {
    forall ip
      ensures StartsWindow(c, ip, later) == StartsWindow(d, ip, later)
      ensures !StartsWindow(c, ip, later) ==> c[ip] == d[ip]
    {
      assert StartsWindow(c, ip, now) == StartsWindow(d, ip, now);
    }
  }

  lemma CleanedAlike(c: Counters, now: int)
    ensures Alike(Cleaned(c, now), c, now)
  {
  }

  lemma AfterAlike(c: Counters, d: Counters, max: nat, ip: string, now: int, s: bool, t: bool)
    requires Alike(c, d, now)
    ensures Allowed(c, max, ip, now) == Allowed(d, max, ip, now)
    ensures Alike(After(c, max, ip, now, s), After(d, max, ip, now, t), now)
  {
    assert StartsWindow(c, ip, now) == StartsWindow(d, ip, now);
    var c', d' := After(c, max, ip, now, false), After(d, max, ip, now, false);
    assert Alike(c', d', now) by {
      forall other
        ensures StartsWindow(c', other, now) == StartsWindow(d', other, now)
        ensures !StartsWindow(c', other, now) ==> c'[other] == d'[other]
      {
        assert StartsWindow(c, other, now) == StartsWindow(d, other, now);
      }
    }
    CleanedAlike(c', now);
    CleanedAlike(d', now);
    AlikeEither(c', Cleaned(c', now), d', Cleaned(d', now), now);
  }

  lemma AlikeEither(c: Counters, c': Counters, d: Counters, d': Counters, now: int)
    requires Alike(c, d, now) && Alike(c', c, now) && Alike(d', d, now)
    ensures Alike(c', d', now) && Alike(c', d, now) && Alike(c, d', now)
  {
    forall ip
      ensures StartsWindow(c', ip, now) == StartsWindow(c, ip, now)
           == StartsWindow(d, ip, now) == StartsWindow(d', ip, now)
      ensures !StartsWindow(c, ip, now) ==> c'[ip] == c[ip] == d[ip] == d'[ip]
    {
      assert StartsWindow(c', ip, now) == StartsWindow(c, ip, now);
      assert StartsWindow(c, ip, now) == StartsWindow(d, ip, now);
      assert StartsWindow(d', ip, now) == StartsWindow(d, ip, now);
    }
  }

  /** The same requests, whatever the cleanup draws were. */
  predicate SameRequests(a: seq<Request>, b: seq<Request>) {
    |a| == |b| && forall i :: 0 <= i < |a| ==> a[i].ip == b[i].ip && a[i].now == b[i].now
  }

  lemma {:induction false} StatesAlike(max: nat, a: seq<Request>, b: seq<Request>, now: int)
    requires SameRequests(a, b) && Chronological(a)
    requires forall i :: 0 <= i < |a| ==> a[i].now <= now
    ensures Alike(State(max, a), State(max, b), now)
    decreases |a|
  {
    if a == [] {
    } else {
      var n := |a| - 1;
      StatesAlike(max, a[..n], b[..n], a[n].now);
      AfterAlike(State(max, a[..n]), State(max, b[..n]), max, a[n].ip, a[n].now, a[n].sampled, b[n].sampled);
      AlikeLater(State(max, a), State(max, b), a[n].now, now);
    }
  }

  /** With a clock that never goes back, when cleanups run changes no answer. */
  lemma CleanupInvisible(max: nat, a: seq<Request>, b: seq<Request>, i: nat)
    requires SameRequests(a, b) && Chronological(a) && i < |a|
    ensures Answer(max, a, i) == Answer(max, b, i)
  {
    StatesAlike(max, a[..i], b[..i], a[i].now);
    AfterAlike(State(max, a[..i]), State(max, b[..i]), max, a[i].ip, a[i].now, false, false);
  }

  // ── How many requests one window length can admit ────────────────────────

  /** The times at which requests from `ip` were allowed, in order. */
  function AllowedTimes(max: nat, reqs: seq<Request>, ip: string): seq<int> {
    if reqs == [] then []
    else
      var init, r := reqs[..|reqs| - 1], reqs[|reqs| - 1];
      AllowedTimes(max, init, ip)
      + (if r.ip == ip && Allowed(State(max, init), max, ip, r.now) then [r.now] else [])
  }

  /** How many of `ts` lie in `[lo, hi)`. */
  function Count(ts: seq<int>, lo: int, hi: int): nat {
    if ts == [] then 0
    else Count(ts[..|ts| - 1], lo, hi) + (if lo <= ts[|ts| - 1] < hi then 1 else 0)
  }

  /** Requests of `ip` admitted in the window-long interval that starts at `t`. */
  function Admitted(max: nat, reqs: seq<Request>, ip: string, t: int): nat {
    Count(AllowedTimes(max, reqs, ip), t, t + WINDOW_MS)
  }

  predicate Before(ts: seq<int>, t: int) {
    forall i :: 0 <= i < |ts| ==> ts[i] < t
  }

  lemma CountSnoc(ts: seq<int>, t: int, lo: int, hi: int)
    ensures Count(ts + [t], lo, hi) == Count(ts, lo, hi) + (if lo <= t < hi then 1 else 0)
  {
    assert (ts + [t])[..|ts|] == ts;
  }

  lemma {:induction false} CountSplit(ts: seq<int>, lo: int, mid: int, hi: int)
    requires lo <= mid <= hi
    ensures Count(ts, lo, hi) == Count(ts, lo, mid) + Count(ts, mid, hi)
  {
    if ts == [] {
    } else {
      CountSplit(ts[..|ts| - 1], lo, mid, hi);
    }
  }

  lemma {:induction false} CountNone(ts: seq<int>, lo: int, hi: int)
    requires Before(ts, lo) || hi <= lo
    ensures Count(ts, lo, hi) == 0
  {
    if ts == [] {
    } else {
      CountNone(ts[..|ts| - 1], lo, hi);
    }
  }

  function Limit(max: nat): nat {
    if max == 0 then 1 else max
  }

  /** What the open window `e` says about the admissions so far, for the interval starting at `t`. */
  ghost predicate WindowInvariant(ts: seq<int>, e: Entry, limit: nat, t: int) {
    var w := e.windowStart;
    && 1 <= e.count <= limit
    && Before(ts, w + WINDOW_MS)
    && Count(ts, w, w + WINDOW_MS) == e.count
    && (t > w ==> Count(ts, t, t + WINDOW_MS) <= e.count - 1)
    && (w - WINDOW_MS < t <= w ==> Count(ts, t, w) <= limit - 1)
    && Count(ts, t, t + WINDOW_MS) <= 2 * limit - 1
  }

  lemma OpenWindow(ts: seq<int>, previous: Option<Entry>, now: int, limit: nat, t: int)
    requires limit >= 1
    requires previous.None? ==> ts == []
    requires previous.Some? ==> WindowInvariant(ts, previous.value, limit, t)
    requires previous.Some? ==> now - previous.value.windowStart >= WINDOW_MS
    ensures WindowInvariant(ts + [now], Entry(now, 1), limit, t)
  {
    CountSnoc(ts, now, now, now + WINDOW_MS);
    CountSnoc(ts, now, t, now);
    CountSnoc(ts, now, t, t + WINDOW_MS);
    assert Before(ts, now);
    CountNone(ts, now, now + WINDOW_MS);
    if t > now {
      CountNone(ts, t, t + WINDOW_MS);
    } else if t > now - WINDOW_MS {
      CountSplit(ts, t, now, t + WINDOW_MS);
      CountNone(ts, now, t + WINDOW_MS);
    }
  }

  lemma GrowWindow(ts: seq<int>, e: Entry, now: int, limit: nat, t: int)
    requires WindowInvariant(ts, e, limit, t) && e.count < limit
    requires e.windowStart <= now < e.windowStart + WINDOW_MS
    ensures WindowInvariant(ts + [now], e.(count := e.count + 1), limit, t)
  {
    var w := e.windowStart;
    CountSnoc(ts, now, w, w + WINDOW_MS);
    CountSnoc(ts, now, t, t + WINDOW_MS);
    CountSnoc(ts, now, t, w);
    if w - WINDOW_MS < t <= w {
      CountSplit(ts, t, w, t + WINDOW_MS);
      CountSplit(ts, w, t + WINDOW_MS, w + WINDOW_MS);
    }
  }

  predicate Uncleaned(reqs: seq<Request>) {
    forall i :: 0 <= i < |reqs| ==> !reqs[i].sampled
  }

  lemma {:induction false} RunInvariant(max: nat, reqs: seq<Request>, ip: string, t: int)
    requires Chronological(reqs) && Uncleaned(reqs)
    ensures var c, ts := State(max, reqs), AllowedTimes(max, reqs, ip);
      && (ip !in c ==> ts == [])
      && (ip in c ==> WindowInvariant(ts, c[ip], Limit(max), t) && reqs != []
                      && c[ip].windowStart <= reqs[|reqs| - 1].now)
  {
    if reqs == [] {
    } else {
      var init, r := reqs[..|reqs| - 1], reqs[|reqs| - 1];
      RunInvariant(max, init, ip, t);
      hide WindowInvariant, Count;
      var ts := AllowedTimes(max, init, ip);
      assert ts + [] == ts;
      if r.ip == ip {
        WindowStep(State(max, init), ts, r, max, t);
      }
    }
  }

  lemma WindowStep(c: Counters, ts: seq<int>, r: Request, max: nat, t: int)
    requires !r.sampled && (r.ip !in c ==> ts == [])
    requires r.ip in c ==> WindowInvariant(ts, c[r.ip], Limit(max), t) && c[r.ip].windowStart <= r.now
    ensures var d, later := After(c, max, r.ip, r.now, false), ts + if Allowed(c, max, r.ip, r.now) then [r.now] else [];
      r.ip in d && WindowInvariant(later, d[r.ip], Limit(max), t) && d[r.ip].windowStart <= r.now
  {
    hide WindowInvariant, Count;
    assert ts + [] == ts;
    if StartsWindow(c, r.ip, r.now) {
      OpenWindow(ts, if r.ip in c then Some(c[r.ip]) else None, r.now, Limit(max), t);
    } else if c[r.ip].count < max {
      GrowWindow(ts, c[r.ip], r.now, Limit(max), t);
    }
  }

  function WithoutCleanup(reqs: seq<Request>): (r: seq<Request>)
    ensures SameRequests(reqs, r) && Uncleaned(r)
  {
    seq(|reqs|, i requires 0 <= i < |reqs| => reqs[i].(sampled := false))
  }

  lemma {:induction false} SameTimes(max: nat, a: seq<Request>, b: seq<Request>, ip: string)
    requires SameRequests(a, b) && Chronological(a)
    ensures AllowedTimes(max, a, ip) == AllowedTimes(max, b, ip)
    decreases |a|
  {
    if a == [] {
    } else {
      var n := |a| - 1;
      SameTimes(max, a[..n], b[..n], ip);
      CleanupInvisible(max, a, b, n);
    }
  }

  /** Any half-open interval of one window length admits at most `2 * max - 1` requests of an
      address, whatever the requests, their times and the cleanup draws. */
  lemma WindowBound(max: nat, reqs: seq<Request>, ip: string, t: int)
    requires Chronological(reqs)
    ensures Admitted(max, reqs, ip, t) <= 2 * Limit(max) - 1
  {
    var plain := WithoutCleanup(reqs);
    SameTimes(max, reqs, plain, ip);
    RunInvariant(max, plain, ip, t);
  }

  // ── Which requests are refused ───────────────────────────────────────────

  /** The window that the last of some admissions falls into: a window opens with the first
      admission that is a window length away from the start of the one before. */
  function Window(ts: seq<int>): Option<Entry> {
    if ts == [] then None
    else
      var before, t := Window(ts[..|ts| - 1]), ts[|ts| - 1];
      if before.None? || t - before.value.windowStart >= WINDOW_MS then Some(Entry(t, 1))
      else Some(before.value.(count := before.value.count + 1))
  }

  lemma WindowSnoc(ts: seq<int>, t: int)
    ensures Window(ts + [t]) == match Window(ts)
      case None => Some(Entry(t, 1))
      case Some(w) => if t - w.windowStart >= WINDOW_MS then Some(Entry(t, 1)) else Some(w.(count := w.count + 1))
  {
    assert (ts + [t])[..|ts|] == ts;
  }

  lemma {:induction false} CountersAreWindows(max: nat, reqs: seq<Request>, ip: string)
    requires Uncleaned(reqs)
    ensures var c, w := State(max, reqs), Window(AllowedTimes(max, reqs, ip));
      (ip in c <==> w.Some?) && (ip in c ==> c[ip] == w.value)
  {
    if reqs == [] {
    } else {
      var init, r := reqs[..|reqs| - 1], reqs[|reqs| - 1];
      CountersAreWindows(max, init, ip);
      hide Window;
      var ts := AllowedTimes(max, init, ip);
      WindowSnoc(ts, r.now);
      assert ts + [] == ts;
    }
  }

  /** Exactly which requests are refused: those that come less than a window length after the start
      of the window of the admissions before, when that window has had `max` of them. */
  lemma RefusedIff(max: nat, reqs: seq<Request>, i: nat)
    requires Chronological(reqs) && i < |reqs|
    ensures var w := Window(AllowedTimes(max, reqs[..i], reqs[i].ip));
      !Answer(max, reqs, i) <==> w.Some? && reqs[i].now - w.value.windowStart < WINDOW_MS && w.value.count >= max
  {
    var plain := WithoutCleanup(reqs);
    CleanupInvisible(max, reqs, plain, i);
    SameTimes(max, reqs[..i], plain[..i], reqs[i].ip);
    CountersAreWindows(max, plain[..i], reqs[i].ip);
    hide Window, AllowedTimes, State;
  }

  /** A cleanup leaves no counter whose window started more than a window length ago. */
  lemma CleanupForgets(max: nat, reqs: seq<Request>, ip: string)
    requires reqs != [] && reqs[|reqs| - 1].sampled && ip in State(max, reqs)
    requires StartsWindow(State(max, reqs[..|reqs| - 1]), reqs[|reqs| - 1].ip, reqs[|reqs| - 1].now)
    ensures State(max, reqs)[ip].windowStart >= reqs[|reqs| - 1].now - WINDOW_MS
  {
  }

  // ── The bound is reached ─────────────────────────────────────────────────

  /** `n` requests at the same time, none of which draws a cleanup. */
  function Burst(ip: string, now: int, n: nat): (reqs: seq<Request>)
    ensures |reqs| == n && forall i :: 0 <= i < n ==> reqs[i] == Request(ip, now, false)
  {
    if n == 0 then [] else Burst(ip, now, n - 1) + [Request(ip, now, false)]
  }

  /** The limiter after `reqs`: the entry of `ip`, and how many admissions lie in `[lo, hi)`. */
  ghost predicate Reaches(max: nat, reqs: seq<Request>, ip: string, e: Entry, lo: int, hi: int, n: int) {
    ip in State(max, reqs) && State(max, reqs)[ip] == e && Count(AllowedTimes(max, reqs, ip), lo, hi) == n
  }

  lemma ReachesNext(max: nat, reqs: seq<Request>, ip: string, e: Entry, now: int, lo: int, hi: int, n: int)
    requires Reaches(max, reqs, ip, e, lo, hi, n)
    requires 0 <= now - e.windowStart && lo <= now < hi
    requires now - e.windowStart >= WINDOW_MS || e.count < max
    ensures Reaches(max, reqs + [Request(ip, now, false)], ip,
                    if now - e.windowStart >= WINDOW_MS then Entry(now, 1) else e.(count := e.count + 1), lo, hi, n + 1)
  {
    var run := reqs + [Request(ip, now, false)];
    assert run[..|run| - 1] == reqs;
    CountSnoc(AllowedTimes(max, reqs, ip), now, lo, hi);
  }

  /** A burst inside an open window is admitted until the counter is full. */
  lemma {:induction false} BurstAdmitted(max: nat, reqs: seq<Request>, ip: string, e: Entry, now: int, n: nat,
                                         lo: int, hi: int, before: int)
    requires Reaches(max, reqs, ip, e, lo, hi, before)
    requires 0 <= now - e.windowStart < WINDOW_MS && e.count + n <= max && lo <= now < hi
    ensures Reaches(max, reqs + Burst(ip, now, n), ip, e.(count := e.count + n), lo, hi, before + n)
  {
    hide Reaches;
    if n == 0 {
      assert reqs + [] == reqs;
    } else {
      BurstAdmitted(max, reqs, ip, e, now, n - 1, lo, hi, before);
      ReachesNext(max, reqs + Burst(ip, now, n - 1), ip, e.(count := e.count + n - 1), now, lo, hi, before + n - 1);
      assert reqs + Burst(ip, now, n) == reqs + Burst(ip, now, n - 1) + [Request(ip, now, false)];
    }
  }

  /** One request, `max - 1` just before its window ends, `max` when it has ended. */
  function WorstRun(max: nat, ip: string): seq<Request>
    requires max >= 1
  {
    [Request(ip, 0, false)] + Burst(ip, WINDOW_MS - 1, max - 1) + [Request(ip, WINDOW_MS, false)]
    + Burst(ip, WINDOW_MS, max - 1)
  }

  lemma WindowBoundReached(max: nat, ip: string)
    requires max >= 1
    ensures Chronological(WorstRun(max, ip))
    ensures Admitted(max, WorstRun(max, ip), ip, WINDOW_MS - 1) == 2 * max - 1
  {
    WorstRunChronological(max, ip);
    WorstReaches(max, ip);
    // Hidden in the goal only, here and below: the steps before need the definitions.
    hide Chronological, Count, Burst;
  }

  lemma WorstReaches(max: nat, ip: string)
    requires max >= 1
    ensures Reaches(max, WorstRun(max, ip), ip, Entry(WINDOW_MS, max), WINDOW_MS - 1, 2 * WINDOW_MS - 1, 2 * max - 1)
  {
    hide Reaches, Burst;
    var lo, hi := WINDOW_MS - 1, 2 * WINDOW_MS - 1;
    var first := [Request(ip, 0, false)];
    FirstRequest(max, ip, lo, hi);
    BurstAdmitted(max, first, ip, Entry(0, 1), WINDOW_MS - 1, max - 1, lo, hi, 0);
    var late := first + Burst(ip, WINDOW_MS - 1, max - 1);
    ReachesNext(max, late, ip, Entry(0, max), WINDOW_MS, lo, hi, max - 1);
    BurstAdmitted(max, late + [Request(ip, WINDOW_MS, false)], ip, Entry(WINDOW_MS, 1), WINDOW_MS, max - 1, lo, hi, max);
  }

  lemma WorstRunChronological(max: nat, ip: string)
    requires max >= 1
    ensures Chronological(WorstRun(max, ip))
  {
  }

  lemma FirstRequest(max: nat, ip: string, lo: int, hi: int)
    requires 0 < lo
    ensures Reaches(max, [Request(ip, 0, false)], ip, Entry(0, 1), lo, hi, 0)
  {
    var first := [Request(ip, 0, false)];
    assert first[..0] == [];
    assert AllowedTimes(max, first, ip) == [0];
    CountSnoc([], 0, lo, hi);
    assert [] + [0] == [0];
  }

  ghost predicate AtMost(max: nat, bound: int) {
    forall reqs, ip, t :: Chronological(reqs) ==> Admitted(max, reqs, ip, t) <= bound
  }

  /** `2 * max - 1` is the smallest bound that holds for every interval of one window length; so
      "at most `max` in any hour" is enforced exactly when `max` is 1. */
  lemma AtMostIff(max: nat, bound: int)
    requires max >= 1
    ensures AtMost(max, bound) <==> bound >= 2 * max - 1
  {
    WindowBoundReached(max, "");
    if AtMost(max, bound) {
      assert Admitted(max, WorstRun(max, ""), "", WINDOW_MS - 1) <= bound;
    }
    if bound >= 2 * max - 1 {
      forall reqs, ip, t | Chronological(reqs)
        ensures Admitted(max, reqs, ip, t) <= bound
      {
        WindowBound(max, reqs, ip, t);
      }
    }
  }
}
