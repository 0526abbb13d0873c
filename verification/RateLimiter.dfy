/** The per-IP token bucket, with its refill, its eviction and its counters. Tokens and
    seconds are reals. */
module RateLimiter {

  datatype Bucket = Bucket(tokens: real, lastFill: real)

  type Buckets = map<string, Bucket>

  /** The two configured numbers. A fresh bucket starts at burst - 1. */
  datatype Config = Config(rps: real, burst: real) {
    predicate Valid() { rps > 0.0 && burst >= 1.0 }
  }

  function Refill(cfg: Config, b: Bucket, now: real): Bucket {
    if now - b.lastFill > 0.0 then
      var tokens := b.tokens + (now - b.lastFill) * cfg.rps;
      Bucket(if tokens > cfg.burst then cfg.burst else tokens, now)
    else b
  }

  /** One admission decision: the new buckets and the answer. */
  function Decide(cfg: Config, cur: Buckets, ip: string, now: real): (Buckets, bool) {
    if ip == "" then (cur, true)
    else if ip !in cur then (cur[ip := Bucket(cfg.burst - 1.0, now)], true)
    else
      var b := Refill(cfg, cur[ip], now);
      if b.tokens < 1.0 then (cur[ip := b], false)
      else (cur[ip := b.(tokens := b.tokens - 1.0)], true)
  }

  lemma DecideKnown(cfg: Config, cur: Buckets, ip: string, now: real)
    requires ip != "" && ip in cur
    ensures var b := Refill(cfg, cur[ip], now);
            Decide(cfg, cur, ip, now) == (cur[ip := if b.tokens < 1.0 then b else b.(tokens := b.tokens - 1.0)], b.tokens >= 1.0)
  {
    hide Refill;
  }

  function Evict(cur: Buckets, cutoff: real): Buckets {
    map ip | ip in cur && !(cur[ip].lastFill < cutoff) :: cur[ip]
  }

  datatype Stats = Stats(rps: real, burst: real, activeIps: nat, allowed: nat, blocked: nat)

  /** The live token count and last refill of one address, updated in place. */
  class LiveBucket {
    var tokens: real
    var lastFill: real

    constructor (tokens: real, lastFill: real)
      ensures AsBucket() == Bucket(tokens, lastFill)
    {
      this.tokens, this.lastFill := tokens, lastFill;
    }

    function AsBucket(): Bucket
      reads this
    {
      Bucket(tokens, lastFill)
    }

    /** Adds the tokens of the time since the last refill, capped at the burst. */
    method RefillTo(cfg: Config, now: real)
      modifies this
      ensures AsBucket() == Refill(cfg, old(AsBucket()), now)
    {
      var elapsed := now - lastFill;
      if elapsed > 0.0 {
        tokens := tokens + elapsed * cfg.rps;
        if tokens > cfg.burst {
          tokens := cfg.burst;
        }
        lastFill := now;
      }
    }

    /** Refills, and takes one token if there is one. */
    method Draw(cfg: Config, now: real) returns (ok: bool)
      modifies this
      ensures var full := Refill(cfg, old(AsBucket()), now);
              && ok == (full.tokens >= 1.0)
              && AsBucket() == if ok then full.(tokens := full.tokens - 1.0) else full
    {
      hide Refill;
      RefillTo(cfg, now);
      if tokens < 1.0 {
        return false;
      }
      tokens := tokens - 1.0;
      ok := true;
    }
  }

  class RateLimiter {
    const cfg: Config
    var cur: map<string, LiveBucket>
    var allowed: nat
    var blocked: nat

    /** No two addresses share a bucket. */
    ghost predicate Valid()
      reads this`cur
    {
      forall i, j :: i in cur && j in cur && i != j ==> cur[i] != cur[j]
    }

    ghost function View(): Buckets
      reads this`cur, cur.Values
    {
      map ip | ip in cur :: cur[ip].AsBucket()
    }

    constructor (rps: real, burst: real)
      ensures cfg == Config(rps, burst) && Valid() && View() == map[] && allowed == 0 && blocked == 0
    {
      cfg := Config(rps, burst);
      cur, allowed, blocked := map[], 0, 0;
    }

    /** The first call from an address: its bucket starts at burst - 1. */
    method Open(ip: string, now: real)
      requires Valid() && ip !in cur
      modifies this`cur
      ensures Valid() && forall b :: b in cur.Values ==> b in old(cur.Values) || fresh(b)
      ensures View() == old(View())[ip := Bucket(cfg.burst - 1.0, now)]
    {
      var made := new LiveBucket(cfg.burst - 1.0, now);
      assert made !in cur.Values;
      cur := cur[ip := made];
    }

    /** A later call: the bucket is drawn on where it is. */
    method Serve(ip: string, now: real) returns (ok: bool)
      requires Valid() && ip in cur && ip != ""
      modifies {cur[ip]}
      ensures (View(), ok) == Decide(cfg, old(View()), ip, now)
    {
      DecideKnown(cfg, View(), ip, now);
      hide Refill, Decide;
      ghost var was := View();
      ok := cur[ip].Draw(cfg, now);
      assert View() == was[ip := cur[ip].AsBucket()];
    }

    method Allow(ip: string, now: real) returns (ok: bool)
      requires Valid()
      modifies this, cur.Values
      ensures Valid() && forall b :: b in cur.Values ==> b in old(cur.Values) || fresh(b)
      ensures (View(), ok) == Decide(cfg, old(View()), ip, now)
      ensures allowed == old(allowed) + (if ok then 1 else 0)
      ensures blocked == old(blocked) + (if ok then 0 else 1)
    {
      if ip == "" {
        allowed := allowed + 1;
        return true;
      }
      if ip !in cur {
        Open(ip, now);
        allowed := allowed + 1;
        return true;
      }
      hide Decide;
      ok := Serve(ip, now);
      if ok {
        allowed := allowed + 1;
      } else {
        blocked := blocked + 1;
      }
    }

    /** The janitor's sweep. The map is visited in no particular order. */
    method EvictStale(now: real, maxAge: real)
      requires Valid()
      modifies this`cur
      ensures Valid() && View() == Evict(old(View()), now - maxAge)
    {
      var cutoff := now - maxAge;
      var todo := cur.Keys;
      while todo != {}
        invariant todo <= cur.Keys <= old(cur.Keys)
        invariant forall ip :: ip in cur ==> cur[ip] == old(cur)[ip]
        invariant forall ip :: ip in old(cur) && ip !in todo ==> (ip in cur <==> !(old(cur)[ip].lastFill < cutoff))
        decreases |todo|
      {
        var ip :| ip in todo;
        if cur[ip].lastFill < cutoff {
          cur := cur - {ip};
        }
        todo := todo - {ip};
      }
    }

    method GetStats() returns (s: Stats)
      ensures s == Stats(cfg.rps, cfg.burst, |View()|, allowed, blocked)
    {
      assert View().Keys == cur.Keys;
      assert |View()| == |View().Keys| == |cur.Keys| == |cur|;
      s := Stats(cfg.rps, cfg.burst, |cur|, allowed, blocked);
    }
  }

  // ---------------------------------------------------------------- the bound

  datatype Call = Call(ip: string, now: real)

  /** The buckets a run of calls leaves. */
  function After(cfg: Config, cur: Buckets, calls: seq<Call>): Buckets
    decreases |calls|
  {
    if calls == [] then cur else After(cfg, Decide(cfg, cur, calls[0].ip, calls[0].now).0, calls[1..])
  }

  /** How many of a run's requests from `ip` are admitted. */
  function Admitted(cfg: Config, cur: Buckets, calls: seq<Call>, ip: string): nat
    decreases |calls|
  {
    if calls == [] then 0
    else
      var (next, ok) := Decide(cfg, cur, calls[0].ip, calls[0].now);
      (if ok && calls[0].ip == ip then 1 else 0) + Admitted(cfg, next, calls[1..], ip)
  }

  function Later(a: real, b: real): real { if b > a then b else a }

  /** The highest clock reading among the calls from `ip`, no lower than `floor`. */
  function ClockMax(ip: string, calls: seq<Call>, floor: real): (m: real)
    ensures m >= floor
    decreases |calls|
  {
    if calls == [] then floor
    else ClockMax(ip, calls[1..], if calls[0].ip == ip then Later(floor, calls[0].now) else floor)
  }

  predicate BucketsOk(cfg: Config, cur: Buckets) {
    forall ip :: ip in cur ==> 0.0 <= cur[ip].tokens <= cfg.burst
  }

  lemma RefillOk(cfg: Config, b: Bucket, now: real)
    requires cfg.Valid() && 0.0 <= b.tokens <= cfg.burst
    ensures var r := Refill(cfg, b, now);
            && b.tokens <= r.tokens <= cfg.burst
            && r.lastFill == (if now > b.lastFill then now else b.lastFill)
            && r.tokens <= b.tokens + cfg.rps * (r.lastFill - b.lastFill)
  {
    if now - b.lastFill > 0.0 {
      assert (now - b.lastFill) * cfg.rps >= 0.0;
    }
  }

  /** The bucket of the address itself after its call. */
  ghost predicate OwnOk(cfg: Config, cur: Buckets, ip: string, now: real, next: Buckets, ok: bool) {
    && ip in next && next.Keys == cur.Keys + {ip}
    && 0.0 <= next[ip].tokens && next[ip].tokens + (if ok then 1.0 else 0.0) <= cfg.burst
    && next[ip].lastFill == (if ip in cur then Later(cur[ip].lastFill, now) else now)
    && (ip in cur ==>
          next[ip].tokens + (if ok then 1.0 else 0.0) <= cur[ip].tokens + cfg.rps * (next[ip].lastFill - cur[ip].lastFill))
  }

  lemma DecideOwn(cfg: Config, cur: Buckets, ip: string, now: real)
    requires cfg.Valid() && BucketsOk(cfg, cur) && ip != ""
    ensures OwnOk(cfg, cur, ip, now, Decide(cfg, cur, ip, now).0, Decide(cfg, cur, ip, now).1)
  {
    if ip in cur {
      DecideKnown(cfg, cur, ip, now);
      RefillOk(cfg, cur[ip], now);
      hide Decide, Refill;
    }
  }

  lemma DecideOthers(cfg: Config, cur: Buckets, ip: string, now: real)
    ensures var next := Decide(cfg, cur, ip, now).0;
            && (ip == "" ==> next == cur)
            && forall other :: other in cur && other != ip ==> other in next && next[other] == cur[other]
  {
    hide Refill;
  }

  lemma DecideOk(cfg: Config, cur: Buckets, ip: string, now: real)
    requires cfg.Valid() && BucketsOk(cfg, cur)
    ensures var (next, ok) := Decide(cfg, cur, ip, now);
            && BucketsOk(cfg, next)
            && (forall other :: other in cur && other != ip ==> other in next && next[other] == cur[other])
            && (ip != "" ==> OwnOk(cfg, cur, ip, now, next, ok))
  {
    DecideOthers(cfg, cur, ip, now);
    if ip != "" {
      DecideOwn(cfg, cur, ip, now);
    }
    hide Decide;
  }

  /** Every run keeps every bucket between empty and full. */
  lemma {:induction false} TokensInRange(cfg: Config, cur: Buckets, calls: seq<Call>)
    requires cfg.Valid() && BucketsOk(cfg, cur)
    ensures BucketsOk(cfg, After(cfg, cur, calls))
    decreases |calls|
  {
    if calls != [] {
      DecideOk(cfg, cur, calls[0].ip, calls[0].now);
      TokensInRange(cfg, Decide(cfg, cur, calls[0].ip, calls[0].now).0, calls[1..]);
    }
  }

  /** Tokens less what the clock has paid in so far: an admission always costs one. */
  function Balance(cfg: Config, b: Bucket): real {
    b.tokens - cfg.rps * b.lastFill
  }

  lemma DecideSpends(cfg: Config, cur: Buckets, call: Call, ip: string)
    requires cfg.Valid() && BucketsOk(cfg, cur) && ip in cur && ip != ""
    ensures var (next, ok) := Decide(cfg, cur, call.ip, call.now);
            && ip in next
            && Balance(cfg, next[ip]) + (if ok && call.ip == ip then 1.0 else 0.0) <= Balance(cfg, cur[ip])
  {
    hide Decide, Refill, Balance, BucketsOk, Later;
    DecideOk(cfg, cur, call.ip, call.now);
    var (next, ok) := Decide(cfg, cur, call.ip, call.now);
    if call.ip == ip {
      BalanceSplits(cfg, cur[ip]);
      BalanceSplits(cfg, next[ip]);
      TimesDifference(cfg.rps, cur[ip].lastFill, next[ip].lastFill);
    }
  }

  lemma TimesDifference(rate: real, from: real, to: real)
    ensures rate * (to - from) == rate * to - rate * from
  {
  }

  lemma BalanceSplits(cfg: Config, b: Bucket)
    ensures Balance(cfg, b) == b.tokens - cfg.rps * b.lastFill
  {
  }

  /** Once an IP has a bucket, a run pays for its admissions with the tokens it had and
      the refill since, on the bucket's own clock: the highest reading so far. */
  lemma {:induction false} BucketPays(cfg: Config, cur: Buckets, calls: seq<Call>, ip: string)
    requires cfg.Valid() && BucketsOk(cfg, cur) && ip in cur && ip != ""
    ensures var last := After(cfg, cur, calls);
            && ip in last && 0.0 <= last[ip].tokens
            && Balance(cfg, last[ip]) + Admitted(cfg, cur, calls, ip) as real <= Balance(cfg, cur[ip])
    decreases |calls|
  {
    TokensInRange(cfg, cur, calls);
    if calls != [] {
      DecideOk(cfg, cur, calls[0].ip, calls[0].now);
      DecideSpends(cfg, cur, calls[0], ip);
      BucketPays(cfg, Decide(cfg, cur, calls[0].ip, calls[0].now).0, calls[1..], ip);
    }
  }

  /** The bucket's clock is the highest reading among its IP's calls. */
  lemma {:induction false} FillFollowsClock(cfg: Config, cur: Buckets, calls: seq<Call>, ip: string)
    requires cfg.Valid() && BucketsOk(cfg, cur) && ip in cur && ip != ""
    ensures var last := After(cfg, cur, calls);
            ip in last && last[ip].lastFill == ClockMax(ip, calls, cur[ip].lastFill)
    decreases |calls|
  {
    if calls != [] {
      DecideOk(cfg, cur, calls[0].ip, calls[0].now);
      FillFollowsClock(cfg, Decide(cfg, cur, calls[0].ip, calls[0].now).0, calls[1..], ip);
    }
  }

  lemma FirstOfWindow(cfg: Config, cur: Buckets, first: Call, rest: seq<Call>)
    requires cfg.Valid() && BucketsOk(cfg, cur) && first.ip != ""
    ensures var (next, ok) := Decide(cfg, cur, first.ip, first.now);
            && Admitted(cfg, cur, [first] + rest, first.ip) == (if ok then 1 else 0) + Admitted(cfg, next, rest, first.ip)
  {
    assert ([first] + rest)[1..] == rest;
  }

  /** Admissions paid from a balance, with `paidFrom` and `paidTo` the clock's payments. */
  lemma SpendBound(count: real, burst: real, tokens: real, left: real, paidFrom: real, paidTo: real, one: real)
    requires tokens + one <= burst && 0.0 <= left
    requires left - paidTo + count <= tokens - paidFrom
    ensures one + count <= burst + (paidTo - paidFrom)
  {
  }

  /** Between any two points of any run, the requests admitted from one IP number at most
      burst + rps * dt, where dt is how far that IP's highest clock reading moved: a clock
      that steps back adds nothing. */
  lemma WindowBound(cfg: Config, before: seq<Call>, first: Call, rest: seq<Call>)
    requires cfg.Valid() && first.ip != ""
    ensures var cur := After(cfg, map[], before);
            var start := if first.ip in cur then Later(cur[first.ip].lastFill, first.now) else first.now;
            Admitted(cfg, cur, [first] + rest, first.ip) as real
            <= cfg.burst + cfg.rps * (ClockMax(first.ip, rest, start) - start)
  {
    hide After, Admitted, Decide, ClockMax, Later, Balance, BucketsOk, Refill;
    TokensInRange(cfg, map[], before);
    var cur := After(cfg, map[], before);
    DecideOk(cfg, cur, first.ip, first.now);
    FirstOfWindow(cfg, cur, first, rest);
    var (next, ok) := Decide(cfg, cur, first.ip, first.now);
    BucketPays(cfg, next, rest, first.ip);
    FillFollowsClock(cfg, next, rest, first.ip);
    var b, last := next[first.ip], After(cfg, next, rest)[first.ip];
    BalanceSplits(cfg, b);
    BalanceSplits(cfg, last);
    SpendBound(Admitted(cfg, next, rest, first.ip) as real, cfg.burst, b.tokens, last.tokens,
               cfg.rps * b.lastFill, cfg.rps * last.lastFill, if ok then 1.0 else 0.0);
    TimesDifference(cfg.rps, b.lastFill, last.lastFill);
  }

  /** A bucket's fill time is the highest reading among all its IP's calls. */
  lemma {:induction false} FillIsClockMax(cfg: Config, before: seq<Call>, ip: string, first: Call)
    requires cfg.Valid() && first.ip == ip != ""
    requires forall i :: 0 <= i < |before| ==> before[i].ip != ip
    ensures forall rest: seq<Call> ::
              var last := After(cfg, Decide(cfg, After(cfg, map[], before), ip, first.now).0, rest);
              ip in last && last[ip].lastFill == ClockMax(ip, rest, first.now)
  {
    TokensInRange(cfg, map[], before);
    var cur := After(cfg, map[], before);
    NoBucketYet(cfg, map[], before, ip);
    DecideOk(cfg, cur, ip, first.now);
    forall rest: seq<Call>
      ensures var last := After(cfg, Decide(cfg, cur, ip, first.now).0, rest);
              ip in last && last[ip].lastFill == ClockMax(ip, rest, first.now)
    {
      FillFollowsClock(cfg, Decide(cfg, cur, ip, first.now).0, rest, ip);
    }
  }

  lemma {:induction false} NoBucketYet(cfg: Config, cur: Buckets, calls: seq<Call>, ip: string)
    requires ip !in cur && forall i :: 0 <= i < |calls| ==> calls[i].ip != ip
    ensures ip !in After(cfg, cur, calls)
    decreases |calls|
  {
    if calls != [] {
      assert forall i :: 0 <= i < |calls[1..]| ==> calls[1..][i] == calls[i + 1];
      NoBucketYet(cfg, Decide(cfg, cur, calls[0].ip, calls[0].now).0, calls[1..], ip);
    }
  }

  // ------------------------------------------------------------ exact admission

  /** The tokens an address has at `now`: a full bucket at first, and later what was left and
      what came in since, up to the burst. A clock that has stepped back brings nothing. */
  function Available(cfg: Config, cur: Buckets, ip: string, now: real): real {
    if ip !in cur then cfg.burst
    else if now <= cur[ip].lastFill then cur[ip].tokens
    else
      var filled := cur[ip].tokens + Earned(cfg.rps, now - cur[ip].lastFill);
      if filled <= cfg.burst then filled else cfg.burst
  }

  function Earned(rate: real, time: real): real {
    rate * time
  }

  /** Without an address every request is admitted, and costs nobody anything. */
  lemma NoAddressAdmitted(cfg: Config, cur: Buckets, now: real)
    ensures Decide(cfg, cur, "", now) == (cur, true)
  {
  }

  /** A sweep takes exactly the buckets last filled before the cutoff. */
  lemma EvictedIff(cur: Buckets, cutoff: real, ip: string)
    ensures ip in Evict(cur, cutoff) <==> ip in cur && cur[ip].lastFill >= cutoff
    ensures ip in Evict(cur, cutoff) ==> Evict(cur, cutoff)[ip] == cur[ip]
  {
  }

  /** A request is admitted exactly when a whole token is there, and takes it; a refused one
      takes none. */
  lemma AdmittedIff(cfg: Config, cur: Buckets, ip: string, now: real)
    requires cfg.Valid() && BucketsOk(cfg, cur) && ip != ""
    ensures var (next, ok) := Decide(cfg, cur, ip, now);
            && (ok <==> Available(cfg, cur, ip, now) >= 1.0)
            && ip in next && next[ip].tokens == Available(cfg, cur, ip, now) - (if ok then 1.0 else 0.0)
            && next[ip].lastFill == (if ip in cur && cur[ip].lastFill > now then cur[ip].lastFill else now)
  {
    if ip in cur {
      DecideKnown(cfg, cur, ip, now);
      RefillEarns(cfg, cur[ip], now);
      hide Decide, Refill, Earned;
    }
  }

  lemma RefillEarns(cfg: Config, b: Bucket, now: real)
    requires b.tokens <= cfg.burst
    ensures var r, filled := Refill(cfg, b, now), b.tokens + Earned(cfg.rps, now - b.lastFill);
            r == if now <= b.lastFill then b else Bucket(if filled <= cfg.burst then filled else cfg.burst, now)
  {
    assert (now - b.lastFill) * cfg.rps == Earned(cfg.rps, now - b.lastFill);
  }

  /** How many of the calls are made from `ip`. */
  function CallsFrom(calls: seq<Call>, ip: string): nat {
    if calls == [] then 0 else (if calls[0].ip == ip then 1 else 0) + CallsFrom(calls[1..], ip)
  }

  /** Of the calls an address makes at one instant exactly as many are admitted as it has whole
      tokens then, whatever other addresses do in between. */
  lemma {:induction false} BurstAdmitsExactly(cfg: Config, cur: Buckets, calls: seq<Call>, ip: string, now: real)
    requires cfg.Valid() && BucketsOk(cfg, cur) && ip != ""
    requires forall i :: 0 <= i < |calls| && calls[i].ip == ip ==> calls[i].now == now
    ensures var whole := Available(cfg, cur, ip, now).Floor;
            Admitted(cfg, cur, calls, ip) == if CallsFrom(calls, ip) <= whole then CallsFrom(calls, ip) else whole
    decreases |calls|
  {
    AvailableNow(cfg, cur, ip, now);
    if calls != [] {
      var call := calls[0];
      var (next, ok) := Decide(cfg, cur, call.ip, call.now);
      DecideOk(cfg, cur, call.ip, call.now);
      BurstAdmitsExactly(cfg, next, calls[1..], ip, now);
      if call.ip == ip {
        AdmittedIff(cfg, cur, ip, now);
        hide Decide, CallsFrom;
        AvailableLater(cfg, next, ip, now);
      } else {
        SameAvailable(cfg, cur, next, call, ip, now);
      }
    }
  }

  lemma AvailableNow(cfg: Config, cur: Buckets, ip: string, now: real)
    requires cfg.Valid() && BucketsOk(cfg, cur)
    ensures 0.0 <= Available(cfg, cur, ip, now) <= cfg.burst
  {
    if ip in cur && now > cur[ip].lastFill {
      EarnedIsPositive(cfg.rps, now - cur[ip].lastFill);
      hide Earned;
    }
  }

  lemma EarnedIsPositive(rate: real, time: real)
    requires rate > 0.0 && time > 0.0
    ensures Earned(rate, time) > 0.0
  {
  }

  lemma AvailableLater(cfg: Config, next: Buckets, ip: string, now: real)
    requires ip in next && next[ip].lastFill >= now
    ensures Available(cfg, next, ip, now) == next[ip].tokens
  {
  }

  lemma SameAvailable(cfg: Config, cur: Buckets, next: Buckets, call: Call, ip: string, now: real)
    requires call.ip != ip && next == Decide(cfg, cur, call.ip, call.now).0
    ensures Available(cfg, next, ip, now) == Available(cfg, cur, ip, now)
  {
    hide Refill;
  }

  /** With burst below one the first request already overdraws the bucket. */
  lemma NonNegativeIffBurstAtLeastOne(cfg: Config, ip: string, now: real)
    requires cfg.rps > 0.0 && cfg.burst > 0.0 && ip != ""
    ensures BucketsOk(cfg, Decide(cfg, map[], ip, now).0) <==> cfg.burst >= 1.0
  {
    assert ip in Decide(cfg, map[], ip, now).0;
  }
}
