/** The deduplicator of verified alert digests. Instants and durations are integers. */
module Dedup {
  import opened Wrappers

  const DEFAULT_TTL := 24 * 60 * 60 * 1_000_000_000
  const DEFAULT_CAPACITY := 10000

  /** `capacity` is the size at which old digests are purged; with None they never are. */
  datatype Config = Config(ttl: int, capacity: Option<int>)

  datatype Call = Call(digest: string, now: int)

  type Seen = map<string, int>

  function Purged(seen: Seen, ttl: int, now: int): Seen {
    map k | k in seen && now - seen[k] <= ttl :: seen[k]
  }

  function MaybePurged(c: Config, seen: Seen, now: int): Seen {
    if c.capacity.Some? && |seen| >= c.capacity.value then Purged(seen, c.ttl, now) else seen
  }

  predicate Accepts(c: Config, seen: Seen, call: Call) {
    var kept := MaybePurged(c, seen, call.now);
    call.digest in kept ==> call.now - kept[call.digest] > c.ttl
  }

  function Record(c: Config, seen: Seen, call: Call): Seen {
    var kept := MaybePurged(c, seen, call.now);
    if Accepts(c, seen, call) then kept[call.digest := call.now] else kept
  }

  class AlertDeduplicator {
    const ttl: int
    const capacity: int
    var seen: Seen

    constructor (ttl: int, capacity: int)
      ensures this.ttl == (if ttl <= 0 then DEFAULT_TTL else ttl) > 0
      ensures this.capacity == (if capacity <= 0 then DEFAULT_CAPACITY else capacity) > 0
      ensures seen == map[]
    {
      this.ttl := if ttl <= 0 then DEFAULT_TTL else ttl;
      this.capacity := if capacity <= 0 then DEFAULT_CAPACITY else capacity;
      seen := map[];
    }

    method CheckAndRecord(digest: string, now: int) returns (accepted: bool)
      modifies this`seen
      ensures accepted == Accepts(Config(ttl, Some(capacity)), old(seen), Call(digest, now))
      ensures seen == Record(Config(ttl, Some(capacity)), old(seen), Call(digest, now))
    {
      if |seen| >= capacity {
        ghost var was := seen;
        var todo := seen.Keys;
        while todo != {}
          invariant todo <= seen.Keys <= was.Keys
          invariant forall k :: k in was ==> (k in seen <==> k in todo || now - was[k] <= ttl)
          invariant forall k :: k in seen ==> seen[k] == was[k]
          decreases |todo|
        {
          var k :| k in todo;
          if now - seen[k] > ttl {
            seen := seen - {k};
          }
          todo := todo - {k};
        }
        assert seen == Purged(was, ttl, now);
      }
      if digest in seen {
        if now - seen[digest] <= ttl {
          return false;
        }
      }
      seen := seen[digest := now];
      accepted := true;
    }
  }

  // ------------------------------------------------------------------------ runs

  function After(c: Config, calls: seq<Call>): Seen {
    if calls == [] then map[] else Record(c, After(c, calls[..|calls| - 1]), calls[|calls| - 1])
  }

  predicate Accepted(c: Config, calls: seq<Call>, i: nat)
    requires i < |calls|
  {
    Accepts(c, After(c, calls[..i]), calls[i])
  }

  predicate NonDecreasing(calls: seq<Call>) {
    forall i, j :: 0 <= i <= j < |calls| ==> calls[i].now <= calls[j].now
  }

  /** Call `j` is an acceptance of the digest of call `i` that is at most `ttl` older. */
  predicate Blocks(c: Config, calls: seq<Call>, j: nat, i: nat)
    requires j < i < |calls|
  {
    Accepted(c, calls, j) && calls[j].digest == calls[i].digest && calls[i].now - calls[j].now <= c.ttl
  }

  /** What the map says after `n` calls: each entry is an acceptance, and each acceptance has
      an entry at least as young, unless it had already run out at call `n - 1`. */
  ghost predicate Tracks(c: Config, calls: seq<Call>, n: nat)
    requires n <= |calls|
  {
    var seen := After(c, calls[..n]);
    && (forall k :: k in seen ==> exists j :: 0 <= j < n && Accepted(c, calls, j) && calls[j] == Call(k, seen[k]))
    && forall j :: 0 <= j < n && Accepted(c, calls, j) ==> Kept(c, seen, calls[j], calls[n - 1].now)
  }

  predicate Kept(c: Config, seen: Seen, call: Call, now: int) {
    now - call.now > c.ttl || (call.digest in seen && seen[call.digest] >= call.now)
  }

  lemma KeptStep(c: Config, was: Seen, call: Call, past: Call, now: int)
    requires Kept(c, was, past, now) && past.now <= call.now && now <= call.now
    ensures Kept(c, Record(c, was, call), past, call.now)
  {
  }

  lemma TracksStep(c: Config, calls: seq<Call>, n: nat)
    requires n < |calls| && NonDecreasing(calls) && Tracks(c, calls, n)
    ensures Tracks(c, calls, n + 1)
  {
    hide After, Kept;
    var was, call := After(c, calls[..n]), calls[n];
    var seen := After(c, calls[..n + 1]);
    assert seen == Record(c, was, call) by { AfterStep(c, calls, n); }
    forall k | k in seen
      ensures exists j :: 0 <= j < n + 1 && Accepted(c, calls, j) && calls[j] == Call(k, seen[k])
    {
      if Accepted(c, calls, n) && k == call.digest {
        assert calls[n] == Call(k, seen[k]);
      } else {
        assert k in was && seen[k] == was[k];
      }
    }
    hide Record, Accepts;
    forall j | 0 <= j < n + 1 && Accepted(c, calls, j)
      ensures Kept(c, seen, calls[j], call.now)
    {
      assert calls[j].now <= call.now;
      if j < n {
        assert calls[n - 1].now <= call.now;
        KeptStep(c, was, call, calls[j], calls[n - 1].now);
      } else {
        AcceptedIsKept(c, was, call);
      }
    }
  }

  lemma AcceptedIsKept(c: Config, was: Seen, call: Call)
    requires Accepts(c, was, call)
    ensures Kept(c, Record(c, was, call), call, call.now)
  {
  }

  lemma AfterStep(c: Config, calls: seq<Call>, n: nat)
    requires n < |calls|
    ensures After(c, calls[..n + 1]) == Record(c, After(c, calls[..n]), calls[n])
  {
    assert calls[..n + 1][..n] == calls[..n];
  }

  lemma {:induction false} TracksAlways(c: Config, calls: seq<Call>, n: nat)
    requires n <= |calls| && NonDecreasing(calls)
    ensures Tracks(c, calls, n)
  {
    hide *;
    if n == 0 {
      TracksNothing(c, calls);
    } else {
      TracksAlways(c, calls, n - 1);
      TracksStep(c, calls, n - 1);
    }
  }

  lemma TracksNothing(c: Config, calls: seq<Call>)
    ensures Tracks(c, calls, 0)
  {
    hide Accepted;
    assert calls[..0] == [];
  }

  /** With a clock that never steps back, a call is refused exactly when its digest was
      accepted at most `ttl` before; in particular two acceptances of one digest are always
      more than `ttl` apart. */
  lemma AcceptedIff(c: Config, calls: seq<Call>, i: nat)
    requires i < |calls| && NonDecreasing(calls)
    ensures Accepted(c, calls, i) <==> forall j :: 0 <= j < i ==> !Blocks(c, calls, j, i)
  {
    hide After;
    TracksAlways(c, calls, i);
    var seen, call := After(c, calls[..i]), calls[i];
    if Accepted(c, calls, i) {
      forall j | 0 <= j < i
        ensures !Blocks(c, calls, j, i)
      {
        if Accepted(c, calls, j) && calls[j].digest == call.digest {
          assert Kept(c, seen, calls[j], calls[i - 1].now);
          assert calls[i - 1].now <= call.now;
        }
      }
    } else {
      assert call.digest in seen && call.now - seen[call.digest] <= c.ttl;
      var j :| 0 <= j < i && Accepted(c, calls, j) && calls[j] == Call(call.digest, seen[call.digest]);
      assert Blocks(c, calls, j, i);
    }
  }

  // ----------------------------------------------------------- purging, observed

  /** An entry made at instant `i` has run out at `j`, and by the clock of `k` it has not. */
  predicate Revives(times: seq<int>, ttl: int, i: nat, j: nat, k: nat)
    requires i < |times| && j < |times| && k < |times|
  {
    times[j] - times[i] > ttl && times[k] - times[i] <= ttl
  }

  ghost predicate NeverRevives(times: seq<int>, ttl: int) {
    forall i, j, k :: 0 <= i < j < k < |times| ==> !Revives(times, ttl, i, j, k)
  }

  predicate MadeAt(times: seq<int>, calls: seq<Call>) {
    |calls| == |times| && forall i :: 0 <= i < |calls| ==> calls[i].now == times[i]
  }

  /** An entry for `v` was made before call `n`, and some call since has found it run out. */
  ghost predicate RanOut(times: seq<int>, ttl: int, n: nat, v: int)
    requires n <= |times|
  {
    exists i, j :: 0 <= i < j < n && times[i] == v && times[j] - v > ttl
  }

  /** A purging map is the never-purged one less entries that have run out at some call. */
  ghost predicate Thinner(times: seq<int>, ttl: int, n: nat, kept: Seen, all: Seen)
    requires n <= |times|
  {
    && (forall d :: d in kept ==> d in all && all[d] == kept[d])
    && (forall d :: d in all ==> exists i :: 0 <= i < n && times[i] == all[d])
    && forall d :: d in all && d !in kept ==> RanOut(times, ttl, n, all[d])
  }

  lemma ThinnerStep(c: Config, times: seq<int>, n: nat, kept: Seen, all: Seen, call: Call)
    requires n < |times| && call.now == times[n] && NeverRevives(times, c.ttl)
    requires Thinner(times, c.ttl, n, kept, all)
    ensures Accepts(c, kept, call) == Accepts(Config(c.ttl, None), all, call)
    ensures Thinner(times, c.ttl, n + 1, Record(c, kept, call), Record(Config(c.ttl, None), all, call))
  {
    var purged, d := MaybePurged(c, kept, call.now), call.digest;
    if d in all && d !in kept {
      var i, j :| 0 <= i < j < n && times[i] == all[d] && times[j] - all[d] > c.ttl;
      assert !Revives(times, c.ttl, i, j, n);
    }
    assert Accepts(c, kept, call) == Accepts(Config(c.ttl, None), all, call);
    forall k | k in all && k !in purged
      ensures RanOut(times, c.ttl, n + 1, all[k])
    {
      if k in kept {
        var i :| 0 <= i < n && times[i] == all[k];
        assert times[n] - all[k] > c.ttl;
      } else {
        var i, j :| 0 <= i < j < n && times[i] == all[k] && times[j] - all[k] > c.ttl;
      }
    }
    assert times[n] == call.now;
  }

  lemma {:induction false} ThinnerAlways(c: Config, times: seq<int>, calls: seq<Call>, n: nat)
    requires MadeAt(times, calls) && NeverRevives(times, c.ttl) && n <= |calls|
    ensures Thinner(times, c.ttl, n, After(c, calls[..n]), After(Config(c.ttl, None), calls[..n]))
    ensures n < |calls| ==> Accepted(c, calls, n) == Accepted(Config(c.ttl, None), calls, n)
    decreases n
  {
    hide NeverRevives, Record, Accepts;
    var never := Config(c.ttl, None);
    if n == 0 {
      assert calls[..0] == [];
    } else {
      ThinnerAlways(c, times, calls, n - 1);
      AfterStep(c, calls, n - 1);
      AfterStep(never, calls, n - 1);
      ThinnerStep(c, times, n - 1, After(c, calls[..n - 1]), After(never, calls[..n - 1]), calls[n - 1]);
    }
    if n < |calls| {
      ThinnerStep(c, times, n, After(c, calls[..n]), After(never, calls[..n]), calls[n]);
    }
  }

  /** "a" at instants `i` and `k`, "b" at every other. */
  function Telling(times: seq<int>, i: nat, k: nat): (calls: seq<Call>)
    ensures MadeAt(times, calls)
  {
    seq(|times|, n requires 0 <= n < |times| => Call(if n == i || n == k then "a" else "b", times[n]))
  }

  /** The never-purging map holds "a" as it was first seen; the one that purges at every call
      has dropped it once it has run out. */
  predicate Told(times: seq<int>, i: nat, j: nat, n: nat, kept: Seen, all: Seen)
    requires i < |times|
  {
    && ("a" in all <==> i < n) && (i < n ==> all["a"] == times[i])
    && (n > 0 ==> kept != map[])
    && ("a" in kept ==> i < n <= j && kept["a"] == times[i])
  }

  lemma ToldStep(times: seq<int>, ttl: int, i: nat, j: nat, k: nat, n: nat, kept: Seen, all: Seen)
    requires i < j < k < |times| && Revives(times, ttl, i, j, k) && n < k && Told(times, i, j, n, kept, all)
    ensures var call := Telling(times, i, k)[n];
            Told(times, i, j, n + 1, Record(Config(ttl, Some(1)), kept, call), Record(Config(ttl, None), all, call))
  {
    var call, c := Telling(times, i, k)[n], Config(ttl, Some(1));
    NotEmptied(c, kept, call);
    assert kept != map[] ==> |kept| >= 1;
    assert n == i ==> call.digest == "a" && "a" !in kept;
    assert n != i ==> call.digest == "b";
  }

  lemma {:induction false} TellingKeeps(times: seq<int>, ttl: int, i: nat, j: nat, k: nat, n: nat)
    requires i < j < k < |times| && Revives(times, ttl, i, j, k) && n <= k
    ensures var calls := Telling(times, i, k);
            Told(times, i, j, n, After(Config(ttl, Some(1)), calls[..n]), After(Config(ttl, None), calls[..n]))
    decreases n
  {
    var calls, c, never := Telling(times, i, k), Config(ttl, Some(1)), Config(ttl, None);
    if n == 0 {
      assert calls[..0] == [];
    } else {
      hide Told, Record, Revives, Telling, After;
      TellingKeeps(times, ttl, i, j, k, n - 1);
      AfterStep(c, calls, n - 1);
      AfterStep(never, calls, n - 1);
      ToldStep(times, ttl, i, j, k, n - 1, After(c, calls[..n - 1]), After(never, calls[..n - 1]));
    }
  }

  lemma NotEmptied(c: Config, seen: Seen, call: Call)
    ensures Record(c, seen, call) != map[]
  {
    assert call.digest in Record(c, seen, call);
  }

  lemma RevivalShows(times: seq<int>, ttl: int, i: nat, j: nat, k: nat)
    requires i < j < k < |times| && Revives(times, ttl, i, j, k)
    ensures var calls := Telling(times, i, k);
            Accepted(Config(ttl, Some(1)), calls, k) && !Accepted(Config(ttl, None), calls, k)
  {
    TellingKeeps(times, ttl, i, j, k, k);
  }

  /** Clocks can step back. Purging, at whatever size it starts, is unobservable on the given
      instants, whatever the digests, exactly when no entry that has once been found run out
      is live again by a later reading. */
  lemma PurgeUnobservableIff(times: seq<int>, ttl: int)
    ensures NeverRevives(times, ttl) <==>
            forall cap: nat, calls, n: nat :: cap > 0 && MadeAt(times, calls) && n < |calls| ==>
              Accepted(Config(ttl, Some(cap)), calls, n) == Accepted(Config(ttl, None), calls, n)
  {
    hide Accepted, After;
    if NeverRevives(times, ttl) {
      forall cap: nat, calls, n: nat | cap > 0 && MadeAt(times, calls) && n < |calls|
        ensures Accepted(Config(ttl, Some(cap)), calls, n) == Accepted(Config(ttl, None), calls, n)
      {
        ThinnerAlways(Config(ttl, Some(cap)), times, calls, n);
      }
    } else {
      var i, j, k :| 0 <= i < j < k < |times| && Revives(times, ttl, i, j, k);
      RevivalShows(times, ttl, i, j, k);
      assert MadeAt(times, Telling(times, i, k));
    }
  }

  /** In particular it is with a clock that never steps back. */
  lemma PurgeUnobservable(c: Config, calls: seq<Call>, n: nat)
    requires n < |calls| && NonDecreasing(calls)
    ensures Accepted(c, calls, n) == Accepted(Config(c.ttl, None), calls, n)
  {
    var times := seq(|calls|, i requires 0 <= i < |calls| => calls[i].now);
    assert NeverRevives(times, c.ttl);
    ThinnerAlways(c, times, calls, n);
  }

  // ------------------------------------------------------------------------ size

  /** The digests accepted at most `ttl` before the last call. */
  ghost function Live(c: Config, calls: seq<Call>): set<string>
    requires calls != []
  {
    set j | 0 <= j < |calls| && IsLive(c, calls, j) :: calls[j].digest
  }

  predicate IsLive(c: Config, calls: seq<Call>, j: nat)
    requires j < |calls|
  {
    Accepted(c, calls, j) && calls[|calls| - 1].now - calls[j].now <= c.ttl
  }

  /** A call that finds the map full leaves nothing in it that has run out. */
  lemma FullIsPurged(c: Config, calls: seq<Call>)
    requires calls != [] && c.ttl >= 0 && c.capacity.Some? && c.capacity.value > 0
    ensures var seen, now := After(c, calls), calls[|calls| - 1].now;
            |seen| <= c.capacity.value || forall k :: k in seen ==> now - seen[k] <= c.ttl
  {
    var was, call := After(c, calls[..|calls| - 1]), calls[|calls| - 1];
    var kept := MaybePurged(c, was, call.now);
    if |was| < c.capacity.value {
      assert kept[call.digest := call.now].Keys == kept.Keys + {call.digest};
      assert |kept.Keys + {call.digest}| <= |kept.Keys| + 1;
      assert |kept[call.digest := call.now].Keys| <= c.capacity.value;
      assert |kept.Keys| == |kept|;
      assert |After(c, calls).Keys| <= c.capacity.value;
    }
  }

  lemma LiveIsKept(c: Config, calls: seq<Call>)
    requires calls != [] && NonDecreasing(calls)
    ensures Live(c, calls) <= After(c, calls).Keys
  {
    hide After, Accepted, NonDecreasing;
    var n := |calls|;
    assert calls[..n] == calls;
    TracksAlways(c, calls, n);
    forall j | 0 <= j < n && IsLive(c, calls, j)
      ensures calls[j].digest in After(c, calls)
    {
      assert Kept(c, After(c, calls), calls[j], calls[n - 1].now);
    }
  }

  lemma KeptIsLive(c: Config, calls: seq<Call>)
    requires calls != [] && NonDecreasing(calls)
    requires forall k :: k in After(c, calls) ==> calls[|calls| - 1].now - After(c, calls)[k] <= c.ttl
    ensures After(c, calls).Keys <= Live(c, calls)
  {
    hide After, Accepted, NonDecreasing;
    var n, seen := |calls|, After(c, calls);
    assert calls[..n] == calls;
    TracksAlways(c, calls, n);
    forall k | k in seen
      ensures k in Live(c, calls)
    {
      var j :| 0 <= j < n && Accepted(c, calls, j) && calls[j] == Call(k, seen[k]);
      assert IsLive(c, calls, j);
    }
  }

  lemma {:induction false} SubsetSize<T>(a: set<T>, b: set<T>)
    requires a <= b
    ensures |a| <= |b|
    decreases |a|
  {
    if a != {} {
      var x :| x in a;
      SubsetSize(a - {x}, b - {x});
    }
  }

  /** The map outgrows the capacity exactly when more digests than that are live; then it
      holds the live ones and no other. */
  lemma OutgrowsCapacityIff(c: Config, calls: seq<Call>)
    requires calls != [] && NonDecreasing(calls) && c.ttl >= 0 && c.capacity.Some? && c.capacity.value > 0
    ensures |After(c, calls)| > c.capacity.value <==> |Live(c, calls)| > c.capacity.value
    ensures |After(c, calls)| > c.capacity.value ==> After(c, calls).Keys == Live(c, calls)
  {
    hide After, Live, NonDecreasing;
    LiveIsKept(c, calls);
    SubsetSize(Live(c, calls), After(c, calls).Keys);
    assert |After(c, calls).Keys| == |After(c, calls)|;
    if |After(c, calls)| > c.capacity.value {
      FullIsPurged(c, calls);
      KeptIsLive(c, calls);
      assert After(c, calls).Keys == Live(c, calls);
    }
  }

  /** Any number of distinct digests can be live at once, however small the capacity. */
  lemma {:induction false} CapacityIsNoBound(c: Config, calls: seq<Call>)
    requires c.ttl >= 0
    requires forall i, j :: 0 <= i < j < |calls| ==> calls[i].digest != calls[j].digest && calls[i].now == calls[j].now
    ensures |After(c, calls)| == |calls|
    ensures forall k :: k in After(c, calls) ==> exists i :: 0 <= i < |calls| && calls[i] == Call(k, After(c, calls)[k])
  {
    if calls != [] {
      var init, call := calls[..|calls| - 1], calls[|calls| - 1];
      CapacityIsNoBound(c, init);
      var was := After(c, init);
      forall k | k in was
        ensures k != call.digest && was[k] == call.now
      {
        var i :| 0 <= i < |init| && init[i] == Call(k, was[k]);
        assert calls[i] == init[i];
      }
      assert MaybePurged(c, was, call.now) == was;
      var seen := After(c, calls);
      assert seen == was[call.digest := call.now];
      assert seen.Keys == was.Keys + {call.digest};
      assert |seen.Keys| == |was.Keys| + 1;
      forall k | k in seen
        ensures exists i :: 0 <= i < |calls| && calls[i] == Call(k, seen[k])
      {
        if k in was {
          var i :| 0 <= i < |init| && init[i] == Call(k, was[k]);
          assert calls[i] == init[i];
        } else {
          assert calls[|calls| - 1] == Call(k, seen[k]);
        }
      }
    }
  }
}
