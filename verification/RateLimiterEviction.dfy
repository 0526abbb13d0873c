/** Eviction seen from outside: a limiter that sweeps at arbitrary moments, beside one
    that never sweeps. */
module RateLimiterEviction {
  import opened RateLimiter

  /** A request, or a sweep that takes effect at `at` with a clock it read at `sampled`:
      the janitor reads the clock before it takes the lock. */
  datatype Event = Request(ip: string, now: real) | Sweep(sampled: real, at: real)

  function Clock(e: Event): real {
    if e.Request? then e.now else e.at
  }

  /** The clock never steps back. */
  predicate Monotone(events: seq<Event>, clock: real)
    decreases |events|
  {
    events == [] ||
    match events[0]
    case Request(_, now) => clock <= now && Monotone(events[1..], now)
    case Sweep(sampled, at) => clock <= at && sampled <= at && Monotone(events[1..], at)
  }

  function Next(cfg: Config, maxAge: real, sweeps: bool, cur: Buckets, e: Event): Buckets {
    match e
    case Request(ip, now) => Decide(cfg, cur, ip, now).0
    case Sweep(sampled, _) => if sweeps then Evict(cur, sampled - maxAge) else cur
  }

  function Answer(cfg: Config, cur: Buckets, e: Event): seq<bool> {
    match e
    case Request(ip, now) => [Decide(cfg, cur, ip, now).1]
    case Sweep(_, _) => []
  }

  function Answers(cfg: Config, maxAge: real, sweeps: bool, cur: Buckets, events: seq<Event>): seq<bool>
    decreases |events|
  {
    if events == [] then []
    else Answer(cfg, cur, events[0]) + Answers(cfg, maxAge, sweeps, Next(cfg, maxAge, sweeps, cur, events[0]), events[1..])
  }

  function AfterEvents(cfg: Config, maxAge: real, sweeps: bool, cur: Buckets, events: seq<Event>): Buckets
    decreases |events|
  {
    if events == [] then cur
    else AfterEvents(cfg, maxAge, sweeps, Next(cfg, maxAge, sweeps, cur, events[0]), events[1..])
  }

  // -------------------------------------------------------------- sufficiency

  /** The sweeping limiter has the same buckets, less some so old that they are full again. */
  ghost predicate Related(cfg: Config, maxAge: real, a: Buckets, b: Buckets, clock: real) {
    && BucketsOk(cfg, b)
    && (forall ip :: ip in a ==> ip in b && a[ip] == b[ip])
    && (forall ip :: ip in b && ip !in a ==> b[ip].lastFill < clock - maxAge)
    && (forall ip :: ip in b ==> b[ip].lastFill <= clock)
  }

  lemma GrowsWithTime(rps: real, from: real, to: real)
    requires rps > 0.0 && from <= to
    ensures rps * from <= to * rps
  {
  }

  /** A bucket untouched for longer than maxAge is full. */
  lemma OldBucketIsFull(cfg: Config, maxAge: real, b: Bucket, now: real)
    requires cfg.Valid() && 0.0 <= b.tokens <= cfg.burst
    requires cfg.rps * maxAge >= cfg.burst && b.lastFill < now - maxAge
    ensures Refill(cfg, b, now) == Bucket(cfg.burst, now)
  {
    var dt := now - b.lastFill;
    assert maxAge <= 0.0 ==> cfg.rps * maxAge <= 0.0;
    GrowsWithTime(cfg.rps, maxAge, dt);
  }

  lemma NextKeepsRelated(cfg: Config, maxAge: real, a: Buckets, b: Buckets, clock: real, e: Event)
    requires cfg.Valid() && cfg.rps * maxAge >= cfg.burst
    requires Related(cfg, maxAge, a, b, clock) && Monotone([e], clock)
    ensures Answer(cfg, a, e) == Answer(cfg, b, e)
    ensures Related(cfg, maxAge, Next(cfg, maxAge, true, a, e), Next(cfg, maxAge, false, b, e), Clock(e))
  {
    match e
    case Request(ip, now) =>
      DecideOk(cfg, b, ip, now);
      if ip in b && ip !in a && ip != "" {
        OldBucketIsFull(cfg, maxAge, b[ip], now);
      }
    case Sweep(_, _) =>
  }

  lemma {:induction false} SameAnswers(cfg: Config, maxAge: real, a: Buckets, b: Buckets, clock: real, events: seq<Event>)
    requires cfg.Valid() && cfg.rps * maxAge >= cfg.burst
    requires Related(cfg, maxAge, a, b, clock) && Monotone(events, clock)
    ensures Answers(cfg, maxAge, true, a, events) == Answers(cfg, maxAge, false, b, events)
    decreases |events|
  {
    hide Related, Decide, Evict;
    if events != [] {
      var e := events[0];
      NextKeepsRelated(cfg, maxAge, a, b, clock, e);
      SameAnswers(cfg, maxAge, Next(cfg, maxAge, true, a, e), Next(cfg, maxAge, false, b, e), Clock(e), events[1..]);
    }
  }

  // -------------------------------------------------------- the bound, swept

  function EndClock(events: seq<Event>, clock: real): real {
    if events == [] then clock else EndClock(events[1..], Clock(events[0]))
  }

  /** The requests among the events. */
  function Calls(events: seq<Event>): seq<Call> {
    if events == [] then []
    else (if events[0].Request? then [Call(events[0].ip, events[0].now)] else []) + Calls(events[1..])
  }

  /** Requests from `ip` that a run admits. */
  function AdmittedIn(cfg: Config, maxAge: real, sweeps: bool, cur: Buckets, events: seq<Event>, ip: string): nat
    decreases |events|
  {
    if events == [] then 0
    else
      var e := events[0];
      (if e.Request? && e.ip == ip && Decide(cfg, cur, ip, e.now).1 then 1 else 0)
      + AdmittedIn(cfg, maxAge, sweeps, Next(cfg, maxAge, sweeps, cur, e), events[1..], ip)
  }

  lemma {:induction false} RelatedAfter(cfg: Config, maxAge: real, a: Buckets, b: Buckets, clock: real, events: seq<Event>)
    requires cfg.Valid() && cfg.rps * maxAge >= cfg.burst
    requires Related(cfg, maxAge, a, b, clock) && Monotone(events, clock)
    ensures Related(cfg, maxAge, AfterEvents(cfg, maxAge, true, a, events), AfterEvents(cfg, maxAge, false, b, events),
                    EndClock(events, clock))
    decreases |events|
  {
    hide Related, Next;
    if events != [] {
      NextKeepsRelated(cfg, maxAge, a, b, clock, events[0]);
      RelatedAfter(cfg, maxAge, Next(cfg, maxAge, true, a, events[0]), Next(cfg, maxAge, false, b, events[0]),
                   Clock(events[0]), events[1..]);
    }
  }

  lemma {:induction false} SameAdmitted(cfg: Config, maxAge: real, a: Buckets, b: Buckets, clock: real, events: seq<Event>, ip: string)
    requires cfg.Valid() && cfg.rps * maxAge >= cfg.burst
    requires Related(cfg, maxAge, a, b, clock) && Monotone(events, clock)
    ensures AdmittedIn(cfg, maxAge, true, a, events, ip) == AdmittedIn(cfg, maxAge, false, b, events, ip)
    decreases |events|
  {
    hide Related, Next, Decide;
    if events != [] {
      var e := events[0];
      NextKeepsRelated(cfg, maxAge, a, b, clock, e);
      assert e.Request? ==> Answer(cfg, a, e)[0] == Answer(cfg, b, e)[0];
      SameAdmitted(cfg, maxAge, Next(cfg, maxAge, true, a, e), Next(cfg, maxAge, false, b, e), Clock(e), events[1..], ip);
    }
  }

  lemma {:induction false} UnsweptIsCalls(cfg: Config, maxAge: real, cur: Buckets, events: seq<Event>, ip: string)
    ensures AdmittedIn(cfg, maxAge, false, cur, events, ip) == Admitted(cfg, cur, Calls(events), ip)
    ensures AfterEvents(cfg, maxAge, false, cur, events) == After(cfg, cur, Calls(events))
    decreases |events|
  {
    hide Decide, Evict;
    if events != [] {
      var e, rest := events[0], Calls(events[1..]);
      UnsweptIsCalls(cfg, maxAge, Next(cfg, maxAge, false, cur, e), events[1..], ip);
      if e.Request? {
        var calls := Calls(events);
        assert calls[0] == Call(e.ip, e.now) && calls[1..] == rest;
      } else {
        assert Calls(events) == rest;
      }
    }
  }

  lemma {:induction false} MonotoneSplits(xs: seq<Event>, ys: seq<Event>, clock: real)
    requires Monotone(xs + ys, clock)
    ensures Monotone(xs, clock) && Monotone(ys, EndClock(xs, clock))
    decreases |xs|
  {
    if xs == [] {
      assert xs + ys == ys;
    } else {
      assert (xs + ys)[0] == xs[0] && (xs + ys)[1..] == xs[1..] + ys;
      MonotoneSplits(xs[1..], ys, Clock(xs[0]));
    }
  }

  lemma RequestFirst(first: Event, rest: seq<Event>, clock: real)
    requires first.Request? && Monotone([first] + rest, clock)
    ensures clock <= first.now
    ensures Calls([first] + rest) == [Call(first.ip, first.now)] + Calls(rest)
  {
    assert ([first] + rest)[1..] == rest;
  }

  /** Where the window starts, the swept limiter admits as the plain one does, and the plain
      one has seen no reading later than the first of the window. */
  lemma WindowStart(cfg: Config, maxAge: real, before: seq<Event>, window: seq<Event>, clock: real, ip: string)
    requires cfg.Valid() && cfg.rps * maxAge >= cfg.burst && Monotone(before + window, clock)
    ensures Monotone(window, EndClock(before, clock))
    ensures AdmittedIn(cfg, maxAge, true, AfterEvents(cfg, maxAge, true, map[], before), window, ip)
            == AdmittedIn(cfg, maxAge, false, AfterEvents(cfg, maxAge, false, map[], before), window, ip)
    ensures var plain := AfterEvents(cfg, maxAge, false, map[], before);
            ip in plain ==> plain[ip].lastFill <= EndClock(before, clock)
  {
    MonotoneSplits(before, window, clock);
    assert Related(cfg, maxAge, map[], map[], clock);
    RelatedAfter(cfg, maxAge, map[], map[], clock, before);
    SameAdmitted(cfg, maxAge, AfterEvents(cfg, maxAge, true, map[], before), AfterEvents(cfg, maxAge, false, map[], before),
                 EndClock(before, clock), window, ip);
    hide AfterEvents, AdmittedIn, Monotone, EndClock, BucketsOk;
  }

  /** The bound of the limiter as it is deployed, with sweeps anywhere in the run: between any
      two points of it an address is admitted at most burst + rps * dt times. */
  lemma SweptWindowBound(cfg: Config, maxAge: real, before: seq<Event>, first: Event, rest: seq<Event>, clock: real)
    requires cfg.Valid() && cfg.rps * maxAge >= cfg.burst && first.Request? && first.ip != ""
    requires Monotone(before + ([first] + rest), clock)
    ensures var cur := AfterEvents(cfg, maxAge, true, map[], before);
            AdmittedIn(cfg, maxAge, true, cur, [first] + rest, first.ip) as real
            <= cfg.burst + cfg.rps * (ClockMax(first.ip, Calls(rest), first.now) - first.now)
  {
    hide *;
    var ip := first.ip;
    WindowStart(cfg, maxAge, before, [first] + rest, clock, ip);
    RequestFirst(first, rest, EndClock(before, clock));
    var plain := AfterEvents(cfg, maxAge, false, map[], before);
    UnsweptIsCalls(cfg, maxAge, map[], before, ip);
    UnsweptIsCalls(cfg, maxAge, plain, [first] + rest, ip);
    WindowBound(cfg, Calls(before), Call(ip, first.now), Calls(rest));
    if ip in plain {
      LaterOfEarlier(plain[ip].lastFill, first.now);
    }
  }

  lemma LaterOfEarlier(a: real, b: real)
    requires a <= b
    ensures Later(a, b) == b
  {
  }

  // ---------------------------------------------------------------- necessity

  lemma {:induction false} EventsConcat(cfg: Config, maxAge: real, sweeps: bool, cur: Buckets, xs: seq<Event>, ys: seq<Event>)
    ensures Answers(cfg, maxAge, sweeps, cur, xs + ys)
            == Answers(cfg, maxAge, sweeps, cur, xs) + Answers(cfg, maxAge, sweeps, AfterEvents(cfg, maxAge, sweeps, cur, xs), ys)
    ensures AfterEvents(cfg, maxAge, sweeps, cur, xs + ys)
            == AfterEvents(cfg, maxAge, sweeps, AfterEvents(cfg, maxAge, sweeps, cur, xs), ys)
    decreases |xs|
  {
    hide Decide, Evict;
    if xs == [] {
      assert xs + ys == ys;
    } else {
      assert (xs + ys)[0] == xs[0] && (xs + ys)[1..] == xs[1..] + ys;
      EventsConcat(cfg, maxAge, sweeps, Next(cfg, maxAge, sweeps, cur, xs[0]), xs[1..], ys);
    }
  }

  lemma {:induction false} MonotoneConcat(xs: seq<Event>, ys: seq<Event>, clock: real, mid: real)
    requires Monotone(xs, clock) && Monotone(ys, mid) && clock <= mid
    requires forall i :: 0 <= i < |xs| ==> (match xs[i] case Request(_, now) => now <= mid case Sweep(_, at) => at <= mid)
    ensures Monotone(xs + ys, clock)
    decreases |xs|
  {
    if xs == [] {
      assert xs + ys == ys;
      if ys != [] {
        assert Monotone(ys, clock);
      }
    } else {
      assert (xs + ys)[0] == xs[0] && (xs + ys)[1..] == xs[1..] + ys;
      assert forall i :: 0 <= i < |xs[1..]| ==> xs[1..][i] == xs[i + 1];
      MonotoneConcat(xs[1..], ys, match xs[0] case Request(_, now) => now case Sweep(_, at) => at, mid);
    }
  }

  function Salvo(ip: string, now: real, n: nat): (r: seq<Event>)
    ensures |r| == n
  {
    seq(n, i => Request(ip, now))
  }

  lemma {:induction false} SalvoMonotone(ip: string, now: real, n: nat)
    ensures Monotone(Salvo(ip, now, n), now)
  {
    if n > 0 {
      assert Salvo(ip, now, n)[1..] == Salvo(ip, now, n - 1);
      SalvoMonotone(ip, now, n - 1);
    }
  }

  /** `n` simultaneous requests against `tokens` tokens are all admitted exactly when
      there are `n` tokens, and then use them up. */
  lemma {:induction false} SalvoSpends(cfg: Config, maxAge: real, sweeps: bool, cur: Buckets, ip: string, now: real, n: nat)
    requires ip != "" && ip in cur && cur[ip].lastFill == now
    ensures var answers := Answers(cfg, maxAge, sweeps, cur, Salvo(ip, now, n));
            && |answers| == n
            && (cur[ip].tokens >= n as real ==>
                  && (forall i :: 0 <= i < n ==> answers[i])
                  && AfterEvents(cfg, maxAge, sweeps, cur, Salvo(ip, now, n)) == cur[ip := Bucket(cur[ip].tokens - n as real, now)])
            && (cur[ip].tokens < n as real && 0 < n ==> exists i :: 0 <= i < n && !answers[i])
    decreases n
  {
    var b := cur[ip];
    if n == 0 {
      assert cur == cur[ip := Bucket(b.tokens - 0.0, now)];
    } else {
      var salvo := Salvo(ip, now, n);
      assert salvo[0] == Request(ip, now) && salvo[1..] == Salvo(ip, now, n - 1);
      var next := Next(cfg, maxAge, sweeps, cur, salvo[0]);
      SalvoSpends(cfg, maxAge, sweeps, next, ip, now, n - 1);
      var answers, later := Answers(cfg, maxAge, sweeps, cur, salvo), Answers(cfg, maxAge, sweeps, next, Salvo(ip, now, n - 1));
      assert answers == [b.tokens >= 1.0] + later;
      if b.tokens < n as real {
        if b.tokens < 1.0 {
          assert !answers[0];
        } else {
          var i :| 0 <= i < n - 1 && !later[i];
          assert !answers[i + 1];
        }
      }
    }
  }

  /** A limiter with no bucket for the IP serves a salvo from a full one. */
  lemma FreshSalvo(cfg: Config, maxAge: real, sweeps: bool, cur: Buckets, ip: string, now: real, n: nat)
    requires cfg.Valid() && ip != "" && ip !in cur && 0 < n && n as real <= cfg.burst
    ensures var answers := Answers(cfg, maxAge, sweeps, cur, Salvo(ip, now, n));
            && |answers| == n && (forall i :: 0 <= i < n ==> answers[i])
            && AfterEvents(cfg, maxAge, sweeps, cur, Salvo(ip, now, n)) == cur[ip := Bucket(cfg.burst - n as real, now)]
  {
    var salvo := Salvo(ip, now, n);
    assert salvo[0] == Request(ip, now) && salvo[1..] == Salvo(ip, now, n - 1);
    var next := cur[ip := Bucket(cfg.burst - 1.0, now)];
    assert Next(cfg, maxAge, sweeps, cur, salvo[0]) == next && Answer(cfg, cur, salvo[0]) == [true];
    SalvoSpends(cfg, maxAge, sweeps, next, ip, now, n - 1);
    assert next[ip := Bucket(cfg.burst - n as real, now)] == cur[ip := Bucket(cfg.burst - n as real, now)];
  }

  /** One request whose refill brings the bucket to `tokens`. */
  lemma RefilledRequest(cfg: Config, maxAge: real, sweeps: bool, cur: Buckets, ip: string, now: real, tokens: real)
    requires ip != "" && ip in cur && now > cur[ip].lastFill
    requires tokens == cur[ip].tokens + (now - cur[ip].lastFill) * cfg.rps && tokens <= cfg.burst
    ensures Answers(cfg, maxAge, sweeps, cur, [Request(ip, now)]) == [tokens >= 1.0]
    ensures AfterEvents(cfg, maxAge, sweeps, cur, [Request(ip, now)])
            == cur[ip := Bucket(if tokens >= 1.0 then tokens - 1.0 else tokens, now)]
  {
    assert Refill(cfg, cur[ip], now) == Bucket(tokens, now);
    var next := cur[ip := Bucket(if tokens >= 1.0 then tokens - 1.0 else tokens, now)];
    assert Next(cfg, maxAge, sweeps, cur, Request(ip, now)) == next;
    assert [Request(ip, now)][1..] == [];
  }

  /** The distinguishing run: drain the bucket to exactly zero, let it age just past
      maxAge, sweep, spend a full bucket, and ask once more when a drained full bucket
      would have one token again. */
  function Probe(cfg: Config, ip: string, n: nat, dt: real): seq<Event>
    requires cfg.Valid()
  {
    var wait := (1.0 - (cfg.burst - n as real)) / cfg.rps;
    Salvo(ip, 0.0, n) + ([Request(ip, wait)] + ([Sweep(wait + dt, wait + dt)] +
    (Salvo(ip, wait + dt, n) + [Request(ip, wait + dt + wait)])))
  }

  lemma Waits(cfg: Config, n: nat) returns (wait: real)
    requires cfg.Valid() && n as real <= cfg.burst < n as real + 1.0
    ensures wait == (1.0 - (cfg.burst - n as real)) / cfg.rps
    ensures wait > 0.0 && wait * cfg.rps == 1.0 - (cfg.burst - n as real)
  {
    wait := (1.0 - (cfg.burst - n as real)) / cfg.rps;
  }

  /** The first two parts leave an empty bucket, filled last at `wait`. */
  lemma Drained(cfg: Config, maxAge: real, sweeps: bool, ip: string, n: nat, wait: real)
    requires cfg.Valid() && 0 < n && n as real <= cfg.burst < n as real + 1.0 && ip != ""
    requires wait > 0.0 && wait * cfg.rps == 1.0 - (cfg.burst - n as real)
    ensures AfterEvents(cfg, maxAge, sweeps, AfterEvents(cfg, maxAge, sweeps, map[], Salvo(ip, 0.0, n)), [Request(ip, wait)])
            == map[ip := Bucket(0.0, wait)]
  {
    FreshSalvo(cfg, maxAge, sweeps, map[], ip, 0.0, n);
    var cur := map[ip := Bucket(cfg.burst - n as real, 0.0)];
    assert AfterEvents(cfg, maxAge, sweeps, map[], Salvo(ip, 0.0, n)) == cur;
    RefilledRequest(cfg, maxAge, sweeps, cur, ip, wait, 1.0);
    assert cur[ip := Bucket(0.0, wait)] == map[ip := Bucket(0.0, wait)];
  }

  /** After the sweep the sweeping limiter admits the salvo and the last request. */
  lemma SweptTail(cfg: Config, maxAge: real, ip: string, n: nat, wait: real, at: real)
    requires cfg.Valid() && 0 < n && n as real <= cfg.burst < n as real + 1.0 && ip != ""
    requires wait > 0.0 && wait * cfg.rps == 1.0 - (cfg.burst - n as real)
    ensures var answers := Answers(cfg, maxAge, true, map[], Salvo(ip, at, n) + [Request(ip, at + wait)]);
            |answers| == n + 1 && forall i :: 0 <= i <= n ==> answers[i]
  {
    FreshSalvo(cfg, maxAge, true, map[], ip, at, n);
    var cur := map[ip := Bucket(cfg.burst - n as real, at)];
    RefilledRequest(cfg, maxAge, true, cur, ip, at + wait, 1.0);
    EventsConcat(cfg, maxAge, true, map[], Salvo(ip, at, n), [Request(ip, at + wait)]);
  }

  /** The other limiter, whose bucket has only `tokens` < burst, refuses one of them. */
  lemma UnsweptTail(cfg: Config, maxAge: real, ip: string, n: nat, wait: real, from: real, at: real)
    requires cfg.Valid() && 0 < n && n as real <= cfg.burst < n as real + 1.0 && ip != ""
    requires wait > 0.0 && wait * cfg.rps == 1.0 - (cfg.burst - n as real)
    requires from < at && (at - from) * cfg.rps < cfg.burst
    ensures var answers := Answers(cfg, maxAge, false, map[ip := Bucket(0.0, from)], Salvo(ip, at, n) + [Request(ip, at + wait)]);
            exists i :: 0 <= i < |answers| && !answers[i]
  {
    assert Salvo(ip, at, n) == [Request(ip, at)] + Salvo(ip, at, n - 1);
    hide *;
    var cur := map[ip := Bucket(0.0, from)];
    var tokens := (at - from) * cfg.rps;
    var salvo := Salvo(ip, at, n);
    EventsConcat(cfg, maxAge, false, cur, salvo, [Request(ip, at + wait)]);
    // the same salvo, as one refilled request and the rest
    EventsConcat(cfg, maxAge, false, cur, [Request(ip, at)], Salvo(ip, at, n - 1));
    RefilledRequest(cfg, maxAge, false, cur, ip, at, tokens);
    var answers := Answers(cfg, maxAge, false, cur, salvo);
    var all := answers + Answers(cfg, maxAge, false, AfterEvents(cfg, maxAge, false, cur, salvo), [Request(ip, at + wait)]);
    if tokens < 1.0 {
      assert !all[0];
    } else {
      var spent := map[ip := Bucket(tokens - 1.0, at)];
      assert cur[ip := Bucket(tokens - 1.0, at)] == spent;
      SalvoSpends(cfg, maxAge, false, spent, ip, at, n - 1);
      var later := Answers(cfg, maxAge, false, spent, Salvo(ip, at, n - 1));
      assert answers == [true] + later;
      if tokens < n as real {
        var i :| 0 <= i < n - 1 && !later[i];
        assert !all[i + 1];
      } else {
        var left := map[ip := Bucket(tokens - n as real, at)];
        assert spent[ip := Bucket(tokens - 1.0 - (n - 1) as real, at)] == left;
        LastRefused(cfg, maxAge, ip, tokens - n as real, at, wait);
        assert !all[|answers|];
      }
    }
  }

  /** What is left after the salvo, and the refill while waiting, make less than one token. */
  lemma LastRefused(cfg: Config, maxAge: real, ip: string, left: real, at: real, wait: real)
    requires cfg.Valid() && ip != "" && wait > 0.0 && left + wait * cfg.rps < 1.0
    ensures Answers(cfg, maxAge, false, map[ip := Bucket(left, at)], [Request(ip, at + wait)]) == [false]
  {
    assert (at + wait - at) * cfg.rps == wait * cfg.rps;
    RefilledRequest(cfg, maxAge, false, map[ip := Bucket(left, at)], ip, at + wait, left + wait * cfg.rps);
  }

  /** Some age past maxAge that still leaves an empty bucket short of full. */
  lemma AgeBetween(cfg: Config, maxAge: real) returns (dt: real)
    requires cfg.Valid() && cfg.rps * maxAge < cfg.burst
    ensures dt > 0.0 && dt > maxAge && dt * cfg.rps < cfg.burst
  {
    var full := cfg.burst / cfg.rps;
    assert full > 0.0 && full * cfg.rps == cfg.burst;
    assert maxAge < full by {
      if maxAge >= full {
        GrowsWithTime(cfg.rps, full, maxAge);
      }
    }
    var least := if maxAge > 0.0 then maxAge else 0.0;
    dt := (least + full) / 2.0;
    assert dt < full;
    assert (full - dt) * cfg.rps > 0.0;
  }

  lemma ProbeIsMonotone(cfg: Config, ip: string, n: nat, wait: real, dt: real)
    requires cfg.Valid() && 0.0 < wait && 0.0 < dt && wait == (1.0 - (cfg.burst - n as real)) / cfg.rps
    ensures Monotone(Probe(cfg, ip, n, dt), 0.0)
  {
    ProbeIs(cfg, ip, n, wait, dt);
    hide Decide, Probe;
    var at := wait + dt;
    var last := [Request(ip, at + wait)];
    SalvoMonotone(ip, at, n);
    SalvoMonotone(ip, 0.0, n);
    assert Monotone(last, at + wait);
    MonotoneConcat(Salvo(ip, at, n), last, at, at + wait);
    MonotoneConcat([Sweep(at, at)], Salvo(ip, at, n) + last, wait, at);
    MonotoneConcat([Request(ip, wait)], [Sweep(at, at)] + (Salvo(ip, at, n) + last), wait, wait);
    MonotoneConcat(Salvo(ip, 0.0, n), [Request(ip, wait)] + ([Sweep(at, at)] + (Salvo(ip, at, n) + last)), 0.0, wait);
  }

  lemma ConcatAssoc(a: seq<bool>, b: seq<bool>, c: seq<bool>, d: seq<bool>)
    requires c == []
    ensures a + (b + (c + d)) == (a + b) + d
  {
  }

  /** The probe's answers are n + 1 of its own and then those of its tail. */
  lemma ProbeSplits(cfg: Config, maxAge: real, sweeps: bool, ip: string, n: nat, wait: real, dt: real) returns (front: seq<bool>)
    requires cfg.Valid() && 0 < n && n as real <= cfg.burst < n as real + 1.0 && ip != ""
    requires wait == (1.0 - (cfg.burst - n as real)) / cfg.rps && wait > 0.0 && wait * cfg.rps == 1.0 - (cfg.burst - n as real)
    requires dt > maxAge
    ensures |front| == n + 1
    ensures Answers(cfg, maxAge, sweeps, map[], Probe(cfg, ip, n, dt))
            == front + Answers(cfg, maxAge, sweeps, if sweeps then map[] else map[ip := Bucket(0.0, wait)],
                               Salvo(ip, wait + dt, n) + [Request(ip, wait + dt + wait)])
  {
    hide *;
    ProbeIs(cfg, ip, n, wait, dt);
    var at := wait + dt;
    var tail := Salvo(ip, at, n) + [Request(ip, at + wait)];
    var drain, refill, sweep := Salvo(ip, 0.0, n), [Request(ip, wait)], [Sweep(at, at)];
    var idle := map[ip := Bucket(0.0, wait)];
    var full := AfterEvents(cfg, maxAge, sweeps, map[], drain);
    FreshSalvo(cfg, maxAge, sweeps, map[], ip, 0.0, n);
    Drained(cfg, maxAge, sweeps, ip, n, wait);
    SweepClears(cfg, maxAge, sweeps, idle, at);
    EventsConcat(cfg, maxAge, sweeps, map[], drain, refill + (sweep + tail));
    EventsConcat(cfg, maxAge, sweeps, full, refill, sweep + tail);
    EventsConcat(cfg, maxAge, sweeps, idle, sweep, tail);
    OneAnswer(cfg, maxAge, sweeps, full, ip, wait);
    front := Answers(cfg, maxAge, sweeps, map[], drain) + Answers(cfg, maxAge, sweeps, full, refill);
    ConcatAssoc(Answers(cfg, maxAge, sweeps, map[], drain), Answers(cfg, maxAge, sweeps, full, refill),
                Answers(cfg, maxAge, sweeps, idle, sweep),
                Answers(cfg, maxAge, sweeps, if sweeps then map[] else idle, tail));
  }

  lemma ProbeIs(cfg: Config, ip: string, n: nat, wait: real, dt: real)
    requires cfg.Valid() && wait == (1.0 - (cfg.burst - n as real)) / cfg.rps
    ensures Probe(cfg, ip, n, dt)
            == Salvo(ip, 0.0, n) + ([Request(ip, wait)] + ([Sweep(wait + dt, wait + dt)] +
               (Salvo(ip, wait + dt, n) + [Request(ip, wait + dt + wait)])))
  {
  }

  lemma OneAnswer(cfg: Config, maxAge: real, sweeps: bool, cur: Buckets, ip: string, now: real)
    ensures |Answers(cfg, maxAge, sweeps, cur, [Request(ip, now)])| == 1
  {
    assert [Request(ip, now)][1..] == [];
  }

  /** The probe tells the two limiters apart. */
  lemma ProbeDistinguishes(cfg: Config, maxAge: real, ip: string, n: nat, wait: real, dt: real)
    requires cfg.Valid() && 0 < n && n as real <= cfg.burst < n as real + 1.0 && ip != ""
    requires wait == (1.0 - (cfg.burst - n as real)) / cfg.rps && wait > 0.0 && wait * cfg.rps == 1.0 - (cfg.burst - n as real)
    requires dt > 0.0 && dt > maxAge && dt * cfg.rps < cfg.burst
    ensures Answers(cfg, maxAge, true, map[], Probe(cfg, ip, n, dt)) != Answers(cfg, maxAge, false, map[], Probe(cfg, ip, n, dt))
  {
    hide *;
    var at := wait + dt;
    var tail := Salvo(ip, at, n) + [Request(ip, at + wait)];
    SweptTail(cfg, maxAge, ip, n, wait, at);
    assert at - wait == dt;
    UnsweptTail(cfg, maxAge, ip, n, wait, wait, at);
    var swept := ProbeSplits(cfg, maxAge, true, ip, n, wait, dt);
    var unswept := ProbeSplits(cfg, maxAge, false, ip, n, wait, dt);
    SuffixesDiffer(swept, Answers(cfg, maxAge, true, map[], tail),
                   unswept, Answers(cfg, maxAge, false, map[ip := Bucket(0.0, wait)], tail));
  }

  lemma SweepClears(cfg: Config, maxAge: real, sweeps: bool, cur: Buckets, at: real)
    requires forall ip :: ip in cur ==> cur[ip].lastFill < at - maxAge
    ensures Answers(cfg, maxAge, sweeps, cur, [Sweep(at, at)]) == []
    ensures AfterEvents(cfg, maxAge, sweeps, cur, [Sweep(at, at)]) == if sweeps then map[] else cur
  {
    assert [Sweep(at, at)][1..] == [];
  }

  lemma SuffixesDiffer(a: seq<bool>, b: seq<bool>, c: seq<bool>, d: seq<bool>)
    requires |a| == |c|
    requires forall i :: 0 <= i < |b| ==> b[i]
    requires exists i :: 0 <= i < |d| && !d[i]
    ensures a + b != c + d
  {
    var i :| 0 <= i < |d| && !d[i];
    assert (c + d)[|c| + i] == d[i];
    assert i < |b| ==> (a + b)[|a| + i] == b[i];
  }

  /** Eviction is unobservable exactly when a bucket left alone for maxAge fills up: then
      every run on a clock that never steps back gets the same answers with and without
      sweeping, and otherwise some such run does not. */
  lemma EvictionUnobservableIff(cfg: Config, maxAge: real)
    requires cfg.Valid()
    ensures cfg.rps * maxAge >= cfg.burst
       <==> forall events: seq<Event>, clock: real :: Monotone(events, clock) ==>
              Answers(cfg, maxAge, true, map[], events) == Answers(cfg, maxAge, false, map[], events)
  {
    hide Decide, Evict, Answers, Probe, Monotone;
    if cfg.rps * maxAge >= cfg.burst {
      forall events: seq<Event>, clock: real | Monotone(events, clock)
        ensures Answers(cfg, maxAge, true, map[], events) == Answers(cfg, maxAge, false, map[], events)
      {
        SameAnswers(cfg, maxAge, map[], map[], clock, events);
      }
    } else {
      var n: nat := cfg.burst.Floor;
      var wait := Waits(cfg, n);
      var dt := AgeBetween(cfg, maxAge);
      ProbeIsMonotone(cfg, "ip", n, wait, dt);
      ProbeDistinguishes(cfg, maxAge, "ip", n, wait, dt);
    }
  }
}
