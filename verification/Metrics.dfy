/** In-process metrics: bounded windows of samples, counters per tenant and endpoint, and the
    nearest-rank percentiles of the latency sample. */
module Metrics {

  const MAX_SAMPLES: nat := 10_000

  // ----- Bounded windows -----

  /** `deque(maxlen=MAX_SAMPLES).append(x)` */
  function Push<T>(window: seq<T>, x: T): seq<T> {
    if |window| < MAX_SAMPLES then window + [x] else window[1..] + [x]
  }

  function PushAll<T>(xs: seq<T>): seq<T> {
    if xs == [] then [] else Push(PushAll(xs[..|xs| - 1]), xs[|xs| - 1])
  }

  /** The window always holds the last 10,000 recorded values, oldest first. */
  lemma {:induction false} WindowIsSuffix<T>(xs: seq<T>)
    ensures PushAll(xs) == if |xs| <= MAX_SAMPLES then xs else xs[|xs| - MAX_SAMPLES..]
  {
    if xs != [] {
      WindowIsSuffix(xs[..|xs| - 1]);
    }
  }

  // ----- Percentiles -----

  predicate Ascending(s: seq<real>) {
    forall i, j :: 0 <= i <= j < |s| ==> s[i] <= s[j]
  }

  function Insert(s: seq<real>, x: real): seq<real> {
    if s == [] || s[|s| - 1] <= x then s + [x] else Insert(s[..|s| - 1], x) + [s[|s| - 1]]
  }

  /** Python's `sorted`. */
  function Sorted(s: seq<real>): seq<real> {
    if s == [] then [] else Insert(Sorted(s[..|s| - 1]), s[|s| - 1])
  }

  lemma AppendAscending(s: seq<real>, x: real)
    requires Ascending(s) && forall y :: y in s ==> y <= x
    ensures Ascending(s + [x])
  {
    assert forall i :: 0 <= i < |s| ==> s[i] in s;
  }

  lemma {:induction false} InsertSorts(s: seq<real>, x: real)
    requires Ascending(s)
    ensures Ascending(Insert(s, x)) && multiset(Insert(s, x)) == multiset(s) + multiset{x}
  {
    if s == [] || s[|s| - 1] <= x {
      AppendAscending(s, x);
    } else {
      var n := |s| - 1;
      var t := Insert(s[..n], x);
      assert s == s[..n] + [s[n]];
      InsertSorts(s[..n], x);
      forall y | y in t ensures y <= s[n] {
        assert y in multiset(s[..n]) + multiset{x};
      }
      AppendAscending(t, s[n]);
    }
  }

  lemma {:induction false} SortedSorts(s: seq<real>)
    ensures Ascending(Sorted(s)) && multiset(Sorted(s)) == multiset(s)
  {
    if s != [] {
      var n := |s| - 1;
      assert s == s[..n] + [s[n]];
      SortedSorts(s[..n]);
      InsertSorts(Sorted(s[..n]), s[n]);
    }
  }

  /** min(int(position), n - 1) */
  function Rank(n: nat, position: real): int
    requires n > 0
  {
    if position.Floor < n - 1 then position.Floor else n - 1
  }

  /** len(values) * pct */
  function Position(n: nat, pct: real): (position: real)
    requires 0.0 <= pct
    ensures 0.0 <= position
  {
    Product(n as real, 0.0, pct);
    n as real * pct
  }

  /** `_percentile`, before the final rounding. */
  function Percentile(s: seq<real>, pct: real): real
    requires 0.0 <= pct
  {
    if s == [] then 0.0 else s[Rank(|s|, Position(|s|, pct))]
  }

  function Below(s: seq<real>, v: real): set<int> { set i | 0 <= i < |s| && s[i] < v }
  function AtMost(s: seq<real>, v: real): set<int> { set i | 0 <= i < |s| && s[i] <= v }

  lemma {:induction false} AtMostSize(a: set<int>, n: nat)
    requires forall x :: x in a ==> 0 <= x < n
    ensures |a| <= n
  {
    if n == 0 {
      assert forall x :: x !in a;
    } else {
      AtMostSize(a - {n - 1}, n - 1);
    }
  }

  lemma {:induction false} AtLeastSize(a: set<int>, n: nat)
    requires forall x :: 0 <= x < n ==> x in a
    ensures |a| >= n
  {
    if n > 0 {
      AtLeastSize(a - {n - 1}, n - 1);
    }
  }

  /** The rank that any position selects, the exact product or the one floating point gives. */
  lemma RankedAt(s: seq<real>, position: real)
    requires Ascending(s) && s != [] && 0.0 <= position
    ensures
      var v, f := s[Rank(|s|, position)], position.Floor;
      && |Below(s, v)| <= f
      && |AtMost(s, v)| >= (if f + 1 < |s| then f + 1 else |s|)
  {
    var r := Rank(|s|, position);
    AtMostSize(Below(s, s[r]), r);
    AtLeastSize(AtMost(s, s[r]), r + 1);
  }

  /** The value picked is one of the samples, with at most floor(n * pct) samples strictly below it and
      at least floor(n * pct) + 1 (or all n) at or below it. */
  lemma PercentileRank(sample: seq<real>, pct: real)
    requires sample != [] && 0.0 <= pct
    ensures
      var s := Sorted(sample);
      var v, f := Percentile(s, pct), (|sample| as real * pct).Floor;
      && |s| == |sample| && v in sample
      && |Below(s, v)| <= f
      && |AtMost(s, v)| >= (if f + 1 < |s| then f + 1 else |s|)
  {
    assert Position(|sample|, pct) == |sample| as real * pct;
    hide Position, Sorted;
    SortedSorts(sample);
    var s := Sorted(sample);
    assert |s| == |multiset(s)| == |multiset(sample)|;
    RankedAt(s, Position(|s|, pct));
    assert Percentile(s, pct) in multiset(s);
  }

  lemma Product(n: real, p: real, q: real)
    requires 0.0 <= n && p <= q
    ensures n * p <= n * q
  {
  }

  lemma PositionsOrdered(n: nat, p: real, q: real)
    requires 0.0 <= p <= q
    ensures Position(n, p) <= Position(n, q)
  {
    Product(n as real, p, q);
  }

  /** p50 <= p95 <= p99, as for any two ranks. */
  lemma PercentilesOrdered(sample: seq<real>, p: real, q: real)
    requires 0.0 <= p <= q
    ensures Percentile(Sorted(sample), p) <= Percentile(Sorted(sample), q)
  {
    SortedSorts(sample);
    var s := Sorted(sample);
    PositionsOrdered(|s|, p, q);
    hide Position, Sorted;
    if s != [] {
      assert Rank(|s|, Position(|s|, p)) <= Rank(|s|, Position(|s|, q));
    }
  }

  /** `_percentile` with its rounding: any function that keeps order, as rounding does. */
  function Reported(rounded: real -> real, s: seq<real>, pct: real): real
    requires 0.0 <= pct
  {
    if s == [] then 0.0 else rounded(Percentile(s, pct))
  }

  lemma ReportedOrdered(rounded: real -> real, sample: seq<real>, p: real, q: real)
    requires 0.0 <= p <= q && forall a, b :: a <= b ==> rounded(a) <= rounded(b)
    ensures Reported(rounded, Sorted(sample), p) <= Reported(rounded, Sorted(sample), q)
  {
    hide Percentile, Sorted;
    PercentilesOrdered(sample, p, q);
  }

  // ----- The recorder -----

  datatype Series = Series(tenant: string, endpoint: string)

  datatype Sample = Sample(at: real, tenant: string)

  /** The tenants of the samples of the last 60 seconds, each as often as it occurs. */
  function RecentTenants(samples: seq<Sample>, now: real): seq<string> {
    if samples == [] then []
    else
      var n := |samples| - 1;
      RecentTenants(samples[..n], now) + if now - samples[n].at <= 60.0 then [samples[n].tenant] else []
  }

  /** The samples of one tenant that are at most a minute old, by position. */
  function RecentOf(samples: seq<Sample>, now: real, tenant: string): set<int> {
    set i | 0 <= i < |samples| && now - samples[i].at <= 60.0 && samples[i].tenant == tenant
  }

  lemma {:induction false} RecentTenantsCount(samples: seq<Sample>, now: real, tenant: string)
    ensures multiset(RecentTenants(samples, now))[tenant] == |RecentOf(samples, now, tenant)|
  {
    if samples == [] {
      assert RecentOf(samples, now, tenant) == {};
    } else {
      var n := |samples| - 1;
      RecentTenantsCount(samples[..n], now, tenant);
      RecentOfNext(samples, now, tenant);
      assert RecentTenants(samples[..n], now) + [] == RecentTenants(samples[..n], now);
    }
  }

  lemma RecentOfNext(samples: seq<Sample>, now: real, tenant: string)
    requires samples != []
    ensures
      var n := |samples| - 1;
      |RecentOf(samples, now, tenant)| == |RecentOf(samples[..n], now, tenant)|
        + if now - samples[n].at <= 60.0 && samples[n].tenant == tenant then 1 else 0
  {
    var n := |samples| - 1;
    var before, after := RecentOf(samples[..n], now, tenant), RecentOf(samples, now, tenant);
    assert forall i :: 0 <= i < n ==> samples[..n][i] == samples[i];
    if now - samples[n].at <= 60.0 && samples[n].tenant == tenant {
      assert after == before + {n};
    } else {
      assert after == before;
    }
  }

  function Count(m: map<Series, nat>, k: Series): nat { if k in m then m[k] else 0 }

  class Recorder {
    var latencies: seq<real>
    var evaluations: seq<Sample>
    var flagEvaluations: int
    var errors: map<Series, nat>
    var requests: map<Series, nat>

    /** The windows are bounded, and no series has more errors than requests. */
    ghost predicate Valid()
      reads this
    {
      && |latencies| == |evaluations| <= MAX_SAMPLES
      && forall k :: Count(errors, k) <= Count(requests, k)
    }

    constructor ()
      ensures Valid() && latencies == [] && evaluations == [] && flagEvaluations == 0
    {
      latencies, evaluations, flagEvaluations, errors, requests := [], [], 0, map[], map[];
    }

    method RecordEvaluation(tenant: string, duration: real, flagCount: int, now: real)
      requires Valid()
      modifies this`latencies, this`evaluations, this`flagEvaluations
      ensures Valid()
      ensures latencies == Push(old(latencies), duration)
      ensures evaluations == Push(old(evaluations), Sample(now, tenant))
      ensures flagEvaluations == old(flagEvaluations) + flagCount
    {
      latencies := Push(latencies, duration);
      evaluations := Push(evaluations, Sample(now, tenant));
      flagEvaluations := flagEvaluations + flagCount;
    }

    method RecordRequest(tenant: string, endpoint: string, status: int)
      requires Valid()
      modifies this`errors, this`requests
      ensures Valid()
      ensures
        var k := Series(tenant, endpoint);
        && requests == old(requests)[k := Count(old(requests), k) + 1]
        && errors == (if status >= 500 then old(errors)[k := Count(old(errors), k) + 1] else old(errors))
    {
      var k := Series(tenant, endpoint);
      requests := requests[k := Count(requests, k) + 1];
      if status >= 500 {
        errors := errors[k := Count(errors, k) + 1];
      }
      forall j ensures Count(errors, j) <= Count(requests, j) {
        assert old(Count(errors, j) <= Count(requests, j));
      }
    }

    /** The trailing-minute part of `snapshot`: how many evaluations, and how many per tenant. The
        counts per tenant are those of the recent samples and therefore add up to the total. */
    method RecentCounts(now: real) returns (total: nat, byTenant: map<string, nat>)
      ensures
        var ts := multiset(RecentTenants(evaluations, now));
        total == |ts| && IsTally(byTenant, ts) && Sum(byTenant) == total
    {
      var recent: seq<string> := [];
      for i := 0 to |evaluations|
        invariant recent == RecentTenants(evaluations[..i], now)
      {
        assert evaluations[..i + 1][..i] == evaluations[..i];
        if now - evaluations[i].at <= 60.0 {
          recent := recent + [evaluations[i].tenant];
        }
      }
      assert evaluations[..|evaluations|] == evaluations;
      total := |recent|;
      byTenant := Tally(recent);
      TallySums(byTenant, multiset(recent));
    }
  }

  /** A map from each element to how often it occurs. */
  ghost predicate IsTally(m: map<string, nat>, ts: multiset<string>) {
    && (forall t :: t in m <==> t in ts)
    && forall t :: t in m ==> m[t] == ts[t]
  }

  ghost function Pick(m: map<string, nat>): (t: string)
    requires m != map[]
    ensures t in m
  {
    var t :| t in m;
    t
  }

  ghost function Sum(m: map<string, nat>): nat {
    if m == map[] then 0 else m[Pick(m)] + Sum(m - {Pick(m)})
  }

  /** A tally misses nobody and counts nobody twice. */
  lemma {:induction false} TallySums(m: map<string, nat>, ts: multiset<string>)
    requires IsTally(m, ts)
    ensures Sum(m) == |ts|
    decreases m
  {
    if m == map[] {
      assert forall t :: t !in ts;
    } else {
      var t := Pick(m);
      TallySums(m - {t}, ts[t := 0]);
    }
  }

  method Tally(ts: seq<string>) returns (m: map<string, nat>)
    ensures IsTally(m, multiset(ts))
  {
    m := map[];
    for i := 0 to |ts|
      invariant IsTally(m, multiset(ts[..i]))
    {
      assert multiset(ts[..i + 1]) == multiset(ts[..i]) + multiset{ts[i]} by {
        assert ts[..i + 1] == ts[..i] + [ts[i]];
      }
      m := m[ts[i] := (if ts[i] in m then m[ts[i]] else 0) + 1];
    }
    assert ts[..|ts|] == ts;
  }
}
