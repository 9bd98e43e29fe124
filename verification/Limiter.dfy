/** The fixed-window rate limiter: instances share one counter per (identity, window) in Redis, bumped
    by an atomic INCR and given a time to live by a separate EXPIRE. */
module Limiter {
  import opened Base

  // ----- Windows -----

  /** int(time // 60) */
  function WindowOf(t: real): int {
    (t / 60.0).Floor
  }

  lemma WindowSpan(t: real)
    ensures 60.0 * WindowOf(t) as real <= t < 60.0 * (WindowOf(t) + 1) as real
  {
  }

  lemma WindowIs(t: real, w: int)
    requires 60.0 * w as real <= t < 60.0 * (w + 1) as real
    ensures WindowOf(t) == w
  {
  }

  /** The advertised Retry-After: 60 - int(time % 60). */
  function RetryAfter(t: real): int {
    60 - (t - 60.0 * WindowOf(t) as real).Floor
  }

  /** Waiting the advertised seconds lands in the next window, less than a second into it. */
  lemma RetryAfterReachesNextWindow(t: real)
    ensures 1 <= RetryAfter(t) <= 60
    ensures
      var then_ := t + RetryAfter(t) as real;
      WindowOf(then_) == WindowOf(t) + 1 && then_ - 60.0 * WindowOf(then_) as real < 1.0
  {
    WindowSpan(t);
    WindowIs(t + RetryAfter(t) as real, WindowOf(t) + 1);
  }

  // ----- The counters in Redis -----

  datatype RateKey = RateKey(identity: string, window: int)

  datatype Counter = Counter(count: nat, expiresAt: Option<real>)

  type Counters = map<RateKey, Counter>

  predicate Live(cs: Counters, k: RateKey, now: real) {
    k in cs && (cs[k].expiresAt.None? || now < cs[k].expiresAt.value)
  }

  /** INCR: one more than the live count, or a new counter at 1 that never expires. */
  function Incr(cs: Counters, k: RateKey, now: real): (r: Counters)
    ensures k in r
  {
    cs[k := if Live(cs, k, now) then cs[k].(count := cs[k].count + 1) else Counter(1, None)]
  }

  /** EXPIRE key 120 */
  function Expire(cs: Counters, k: RateKey, now: real): Counters {
    if Live(cs, k, now) then cs[k := cs[k].(expiresAt := Some(now + 120.0))] else cs
  }

  // ----- Any number of instances -----

  /** Where a request stands: INCR on its way; INCR returned `n`, with the EXPIRE still due when that
      was 1; decided; or let through because Redis failed, perhaps after its INCR had counted. */
  datatype Phase = Waiting | Counted(n: nat) | Decided(n: nat, admitted: bool) | Open(drawn: Option<nat>)

  datatype Req = Req(key: RateKey, arrivedAt: real, phase: Phase)

  datatype Sys = Sys(now: real, counters: Counters, reqs: seq<Req>)

  datatype Event =
    | Tick(d: real)
    | Arrive(identity: string)
    | Land(i: nat)
    | LandUnseen(i: nat)   // counted by Redis, but the reply is lost
    | LandFails(i: nat)
    | SetExpiry(i: nat)    // the EXPIRE, when due, and then the verdict
    | ExpiryUnseen(i: nat) // done by Redis, but the reply is lost
    | ExpiryFails(i: nat)
    | Decide(i: nat)       // the verdict when no EXPIRE is due

  predicate In(s: Sys, i: nat, waiting: bool) {
    i < |s.reqs| && if waiting then s.reqs[i].phase.Waiting? else s.reqs[i].phase.Counted?
  }

  function To(s: Sys, i: nat, ph: Phase): Sys
    requires i < |s.reqs|
  {
    s.(reqs := s.reqs[i := s.reqs[i].(phase := ph)])
  }

  function Bump(s: Sys, i: nat): Sys
    requires i < |s.reqs|
  {
    s.(counters := Incr(s.counters, s.reqs[i].key, s.now))
  }

  function Landed(s: Sys, i: nat): nat
    requires i < |s.reqs|
  {
    Incr(s.counters, s.reqs[i].key, s.now)[s.reqs[i].key].count
  }

  /** One step; an event that does not apply changes nothing. */
  function Step(limit: nat, s: Sys, e: Event): Sys {
    match e
    case Tick(d) => if d >= 0.0 then s.(now := s.now + d) else s
    case Arrive(id) => s.(reqs := s.reqs + [Req(RateKey(id, WindowOf(s.now)), s.now, Waiting)])
    case Land(i) => if In(s, i, true) then To(Bump(s, i), i, Counted(Landed(s, i))) else s
    case LandUnseen(i) => if In(s, i, true) then To(Bump(s, i), i, Open(Some(Landed(s, i)))) else s
    case LandFails(i) => if In(s, i, true) then To(s, i, Open(None)) else s
    case SetExpiry(i) =>
      if In(s, i, false) && s.reqs[i].phase.n == 1 then
        To(s, i, Decided(1, 1 <= limit)).(counters := Expire(s.counters, s.reqs[i].key, s.now))
      else s
    case ExpiryUnseen(i) =>
      if In(s, i, false) && s.reqs[i].phase.n == 1 then
        To(s, i, Open(Some(1))).(counters := Expire(s.counters, s.reqs[i].key, s.now))
      else s
    case ExpiryFails(i) => if In(s, i, false) && s.reqs[i].phase.n == 1 then To(s, i, Open(Some(1))) else s
    case Decide(i) =>
      if In(s, i, false) && s.reqs[i].phase.n != 1 then
        To(s, i, Decided(s.reqs[i].phase.n, s.reqs[i].phase.n <= limit))
      else s
  }

  // ----- One dispatch -----

  /** A call to Redis: done and answered, done with the answer lost, or not done. */
  datatype Call = Works | Unseen | Fails

  function LandEvent(i: nat, c: Call): Event {
    match c
    case Works => Land(i)
    case Unseen => LandUnseen(i)
    case Fails => LandFails(i)
  }

  function ExpiryEvent(i: nat, c: Call): Event {
    match c
    case Works => SetExpiry(i)
    case Unseen => ExpiryUnseen(i)
    case Fails => ExpiryFails(i)
  }

  /** One request's steps without others in between: it arrives, `d1` later its INCR lands, and `d2` after
      that the EXPIRE, if one is due. */
  function Alone(limit: nat, s: Sys, identity: string, d1: real, d2: real, incr: Call, expire: Call): Sys {
    var i := |s.reqs|;
    var landed := Step(limit, Step(limit, Step(limit, s, Arrive(identity)), Tick(d1)), LandEvent(i, incr));
    Step(limit, Step(limit, Step(limit, landed, Tick(d2)), ExpiryEvent(i, expire)), Decide(i))
  }

  /** Passed on without a verdict, passed on with the limit and the remaining allowance in headers, or
      answered 429 with the limit and a time to retry after. */
  datatype Verdict = Unlimited | Allowed(limit: nat, remaining: int) | TooMany(limit: nat, retryAfter: int)

  /** What a request's final phase means to its client; the clock is read again, at `readAt`, for a 429. */
  function VerdictOf(limit: nat, ph: Phase, readAt: real): Verdict {
    match ph
    case Decided(n, true) => Allowed(limit, limit - n)
    case Decided(_, false) => TooMany(limit, RetryAfter(readAt))
    case _ => Unlimited
  }

  lemma AloneInShort(limit: nat, cs: Counters, id: string, now: real, incrAt: real, expireAt: real,
                     incr: Call, expire: Call)
    requires now <= incrAt <= expireAt
    ensures
      var s := Alone(limit, Sys(now, cs, []), id, incrAt - now, expireAt - incrAt, incr, expire);
      var k := RateKey(id, WindowOf(now));
      var bumped := Incr(cs, k, incrAt);
      var n := bumped[k].count;
      && |s.reqs| == 1
      && s.counters == (if incr.Fails? then cs
                        else if incr.Works? && n == 1 && !expire.Fails? then Expire(bumped, k, expireAt)
                        else bumped)
      && (if !incr.Works? || (n == 1 && !expire.Works?) then s.reqs[0].phase.Open?
          else s.reqs[0].phase == Decided(n, n <= limit))
  {
    hide WindowOf, Incr, Expire, Step;
    var k := RateKey(id, WindowOf(now));
    var bumped := Incr(cs, k, incrAt);
    var ph := if incr.Fails? then Open(None) else if incr.Unseen? then Open(Some(bumped[k].count))
              else Counted(bumped[k].count);
    LandsInShort(limit, cs, id, now, incrAt, expireAt, incr);
    EndsInShort(limit, if incr.Fails? then cs else bumped, Req(k, now, ph), expireAt, expire);
  }

  lemma LandsInShort(limit: nat, cs: Counters, id: string, now: real, incrAt: real, expireAt: real, incr: Call)
    requires now <= incrAt <= expireAt
    ensures
      var arrived := Step(limit, Step(limit, Sys(now, cs, []), Arrive(id)), Tick(incrAt - now));
      var landed := Step(limit, Step(limit, arrived, LandEvent(0, incr)), Tick(expireAt - incrAt));
      var k := RateKey(id, WindowOf(now));
      var bumped := Incr(cs, k, incrAt);
      var ph := if incr.Fails? then Open(None) else if incr.Unseen? then Open(Some(bumped[k].count))
                else Counted(bumped[k].count);
      landed == Sys(expireAt, if incr.Fails? then cs else bumped, [Req(k, now, ph)])
  {
    hide WindowOf, Incr;
    var k := RateKey(id, WindowOf(now));
    assert Step(limit, Step(limit, Sys(now, cs, []), Arrive(id)), Tick(incrAt - now))
        == Sys(incrAt, cs, [Req(k, now, Waiting)]);
  }

  lemma EndsInShort(limit: nat, cs: Counters, r: Req, at: real, expire: Call)
    ensures
      var s := Step(limit, Step(limit, Sys(at, cs, [r]), ExpiryEvent(0, expire)), Decide(0));
      && |s.reqs| == 1
      && (!r.phase.Counted? ==> s == Sys(at, cs, [r]))
      && (r.phase.Counted? && r.phase.n != 1 ==>
            s.counters == cs && s.reqs[0].phase == Decided(r.phase.n, r.phase.n <= limit))
      && (r.phase.Counted? && r.phase.n == 1 ==>
            && s.counters == (if expire.Fails? then cs else Expire(cs, r.key, at))
            && s.reqs[0].phase == if expire.Works? then Decided(1, 1 <= limit) else Open(Some(1)))
  {
    hide Expire;
  }

  lemma ExpireKeepsCount(cs: Counters, k: RateKey, now: real)
    requires k in cs
    ensures k in Expire(cs, k, now) && Expire(cs, k, now)[k].count == cs[k].count
  {
  }

  class RateLimiter {
    const limit: nat
    var counters: Counters

    constructor (limit: nat)
      ensures this.limit == limit && counters == map[]
    {
      this.limit := limit;
      counters := map[];
    }

    /** One request without others in between. `now` is read once for the window; the INCR lands at
        `incrAt` and the EXPIRE at `expireAt`. */
    method Dispatch(limited: bool, identity: Option<string>, now: real, incrAt: real, expireAt: real, readAt: real,
                    incr: Call, expire: Call) returns (v: Verdict)
      requires now <= incrAt <= expireAt
      modifies this`counters
      ensures !limited || identity.None? ==> v == Unlimited && counters == old(counters)
      ensures limited && identity.Some? ==>
        var s0 := Sys(now, old(counters), []);
        var s := Alone(limit, s0, identity.value, incrAt - now, expireAt - incrAt, incr, expire);
        counters == s.counters && |s.reqs| == 1 && v == VerdictOf(limit, s.reqs[0].phase, readAt)
      // What the client is told, by the number the counter now stands at.
      ensures limited && identity.Some? && !incr.Works? ==> v == Unlimited
      ensures limited && identity.Some? && incr.Works? ==>
        var k := RateKey(identity.value, WindowOf(now));
        && k in counters
        && var n := counters[k].count;
        && (v.Unlimited? <==> n == 1 && !expire.Works?)
        && (v.Allowed? <==> n <= limit && !v.Unlimited?)
        && (v.Allowed? ==> v.limit == limit && v.remaining == limit - n && v.remaining >= 0)
        && (v.TooMany? ==> v.limit == limit && 1 <= v.retryAfter <= 60
                           && WindowOf(readAt + v.retryAfter as real) == WindowOf(readAt) + 1)
    {
      RetryAfterReachesNextWindow(readAt);
      hide WindowOf, RetryAfter, Incr, Expire, Alone;
      if !limited || identity.None? { return Unlimited; }
      var key := RateKey(identity.value, WindowOf(now));
      AloneInShort(limit, counters, identity.value, now, incrAt, expireAt, incr, expire);
      if incr.Fails? { return Unlimited; }
      counters := Incr(counters, key, incrAt);
      if incr.Unseen? { return Unlimited; }
      var count := counters[key].count;
      if count == 1 {
        ExpireKeepsCount(counters, key, expireAt);
        if !expire.Fails? { counters := Expire(counters, key, expireAt); }
        if !expire.Works? { return Unlimited; }
      }
      if count > limit { return TooMany(limit, RetryAfter(readAt)); }
      v := Allowed(limit, if limit > count then limit - count else 0);
    }
  }

  /** A system with `pre` already there, and an event about the requests that come after those. */
  function Under(s: Sys, pre: seq<Req>): Sys {
    s.(reqs := pre + s.reqs)
  }

  function Shifted(e: Event, n: nat): Event {
    match e
    case Tick(_) => e
    case Arrive(_) => e
    case Land(i) => Land(n + i)
    case LandUnseen(i) => LandUnseen(n + i)
    case LandFails(i) => LandFails(n + i)
    case SetExpiry(i) => SetExpiry(n + i)
    case ExpiryUnseen(i) => ExpiryUnseen(n + i)
    case ExpiryFails(i) => ExpiryFails(n + i)
    case Decide(i) => Decide(n + i)
  }

  lemma ToUnder(s: Sys, pre: seq<Req>, i: nat, ph: Phase, cs: Counters)
    requires i < |s.reqs|
    ensures To(Under(s, pre), |pre| + i, ph).(counters := cs) == Under(To(s, i, ph).(counters := cs), pre)
  {
    assert To(Under(s, pre), |pre| + i, ph).reqs == Under(To(s, i, ph), pre).reqs;
  }

  lemma LandUnder(s: Sys, pre: seq<Req>, i: nat, ph: Phase)
    requires i < |s.reqs|
    ensures Landed(Under(s, pre), |pre| + i) == Landed(s, i)
    ensures To(Bump(Under(s, pre), |pre| + i), |pre| + i, ph) == Under(To(Bump(s, i), i, ph), pre)
  {
    hide Incr;
    ToUnder(Bump(s, i), pre, i, ph, Bump(s, i).counters);
  }

  lemma StepUnder(limit: nat, s: Sys, pre: seq<Req>, e: Event)
    ensures Step(limit, Under(s, pre), Shifted(e, |pre|)) == Under(Step(limit, s, e), pre)
  {
    match e
    case Tick(_) =>
    case Arrive(id) =>
      var r := Req(RateKey(id, WindowOf(s.now)), s.now, Waiting);
      assert (pre + s.reqs) + [r] == pre + (s.reqs + [r]);
    case _ =>
      if e.i < |s.reqs| {
        RequestStepUnder(limit, s, pre, e);
      }
  }

  lemma RequestStepUnder(limit: nat, s: Sys, pre: seq<Req>, e: Event)
    requires !e.Tick? && !e.Arrive? && e.i < |s.reqs|
    ensures Step(limit, Under(s, pre), Shifted(e, |pre|)) == Under(Step(limit, s, e), pre)
  {
    hide Incr, Expire, To, Bump, Landed;
    var i, r := e.i, s.reqs[e.i];
    var expired := Expire(s.counters, r.key, s.now);
    assert Under(s, pre).reqs[|pre| + i] == r;
    match e
    case Land(_) => LandUnder(s, pre, i, Counted(Landed(s, i)));
    case LandUnseen(_) => LandUnder(s, pre, i, Open(Some(Landed(s, i))));
    case LandFails(_) => ToKeeps(s, pre, i, Open(None));
    case SetExpiry(_) => ToUnder(s, pre, i, Decided(1, 1 <= limit), expired);
    case ExpiryUnseen(_) => ToUnder(s, pre, i, Open(Some(1)), expired);
    case ExpiryFails(_) => ToKeeps(s, pre, i, Open(Some(1)));
    case Decide(_) => if r.phase.Counted? { ToKeeps(s, pre, i, Decided(r.phase.n, r.phase.n <= limit)); }
  }

  lemma ToKeeps(s: Sys, pre: seq<Req>, i: nat, ph: Phase)
    requires i < |s.reqs|
    ensures To(Under(s, pre), |pre| + i, ph) == Under(To(s, i, ph), pre)
  {
    ToUnder(s, pre, i, ph, s.counters);
  }

  /** Among any other requests, at rest meanwhile, the same six steps do to the counters and to the newcomer
      what they do with nobody else there. */
  lemma AloneAmongOthers(limit: nat, s: Sys, id: string, d1: real, d2: real, incr: Call, expire: Call)
    ensures
      var alone := Alone(limit, s.(reqs := []), id, d1, d2, incr, expire);
      |alone.reqs| == 1 && Alone(limit, s, id, d1, d2, incr, expire) == Under(alone, s.reqs)
  {
    NewcomerStays(limit, s.(reqs := []), id, d1, d2, incr, expire);
    hide Step;
    var pre, s0 := s.reqs, s.(reqs := []);
    var s1 := Step(limit, s0, Arrive(id));
    var s2 := Step(limit, s1, Tick(d1));
    var s3 := Step(limit, s2, LandEvent(0, incr));
    var s4 := Step(limit, s3, Tick(d2));
    var s5 := Step(limit, s4, ExpiryEvent(0, expire));
    assert s == Under(s0, pre);
    ShiftedNewcomer(|pre|, id, d1, d2, incr, expire);
    hide Under, Shifted, LandEvent, ExpiryEvent;
    StepUnder(limit, s0, pre, Arrive(id));
    StepUnder(limit, s1, pre, Tick(d1));
    StepUnder(limit, s2, pre, LandEvent(0, incr));
    StepUnder(limit, s3, pre, Tick(d2));
    StepUnder(limit, s4, pre, ExpiryEvent(0, expire));
    StepUnder(limit, s5, pre, Decide(0));
  }

  lemma ShiftedNewcomer(n: nat, id: string, d1: real, d2: real, incr: Call, expire: Call)
    ensures Shifted(Arrive(id), n) == Arrive(id) && Shifted(Tick(d1), n) == Tick(d1) && Shifted(Tick(d2), n) == Tick(d2)
    ensures Shifted(LandEvent(0, incr), n) == LandEvent(n, incr)
    ensures Shifted(ExpiryEvent(0, expire), n) == ExpiryEvent(n, expire) && Shifted(Decide(0), n) == Decide(n)
  {
  }

  lemma NewcomerStays(limit: nat, s: Sys, id: string, d1: real, d2: real, incr: Call, expire: Call)
    requires s.reqs == []
    ensures |Alone(limit, s, id, d1, d2, incr, expire).reqs| == 1
  {
    hide Incr, Expire, WindowOf;
  }

  // ----- Runs -----

  const START: Sys := Sys(0.0, map[], [])

  function Reach(limit: nat, es: seq<Event>): Sys {
    if es == [] then START else Step(limit, Reach(limit, es[..|es| - 1]), es[|es| - 1])
  }

  /** Every INCR of the run lands within 60 seconds of the reading that chose its window. */
  ghost predicate Prompt(limit: nat, es: seq<Event>) {
    es != [] ==>
      var s, e := Reach(limit, es[..|es| - 1]), es[|es| - 1];
      && Prompt(limit, es[..|es| - 1])
      && ((e.Land? || e.LandUnseen?) && In(s, e.i, true) ==> s.now - s.reqs[e.i].arrivedAt <= 60.0)
  }

  /** The number a request drew from its counter. */
  function Ticket(r: Req): Option<nat> {
    match r.phase
    case Waiting => None
    case Counted(n) => Some(n)
    case Decided(n, _) => Some(n)
    case Open(n) => n
  }

  /** The requests of one counter that drew a number up to `m`. */
  function Tickets(s: Sys, k: RateKey, m: nat): set<nat> {
    set i: nat | i < |s.reqs| && s.reqs[i].key == k && Ticket(s.reqs[i]).Some? && Ticket(s.reqs[i]).value <= m
  }

  function Total(s: Sys, k: RateKey): nat {
    if k in s.counters then s.counters[k].count else 0
  }

  function Min(a: nat, b: nat): nat { if a < b then a else b }

  // ----- Invariant -----

  ghost predicate RequestOk(limit: nat, s: Sys, r: Req) {
    && r.arrivedAt <= s.now && r.key.window == WindowOf(r.arrivedAt)
    && (Ticket(r).Some? ==> 1 <= Ticket(r).value <= Total(s, r.key))
    && (r.phase.Decided? ==> (r.phase.admitted <==> r.phase.n <= limit))
  }

  /** No counter of window w expires before the last moment an INCR of that window can land. */
  ghost predicate CounterOk(s: Sys, k: RateKey)
    requires k in s.counters
  {
    s.counters[k].expiresAt.Some? ==> s.counters[k].expiresAt.value >= 60.0 * (k.window + 2) as real
  }

  /** A counter stands at n exactly when each of 1..n has been drawn by one request. */
  ghost predicate Drawn(s: Sys, k: RateKey) {
    forall m: nat :: |Tickets(s, k, m)| == Min(Total(s, k), m)
  }

  ghost predicate SysOk(limit: nat, s: Sys) {
    && (forall i :: 0 <= i < |s.reqs| ==> RequestOk(limit, s, s.reqs[i]))
    && (forall k :: k in s.counters ==> CounterOk(s, k))
    && (forall k :: Drawn(s, k))
  }

  /** Steps that draw no number. */
  lemma NoDraw(s: Sys, s': Sys, k: RateKey)
    requires Drawn(s, k) && Total(s', k) == Total(s, k)
    requires |s.reqs| <= |s'.reqs|
    requires forall i :: 0 <= i < |s.reqs| ==>
      s'.reqs[i].key == s.reqs[i].key && Ticket(s'.reqs[i]) == Ticket(s.reqs[i])
    requires forall i :: |s.reqs| <= i < |s'.reqs| ==> Ticket(s'.reqs[i]) == None
    ensures Drawn(s', k)
  {
    forall m: nat ensures |Tickets(s', k, m)| == Min(Total(s', k), m) {
      assert Tickets(s', k, m) == Tickets(s, k, m);
    }
  }

  /** A live counter, or none yet: the INCR draws the next number. */
  lemma DrawsNext(limit: nat, s: Sys, i: nat)
    requires SysOk(limit, s) && In(s, i, true) && s.now - s.reqs[i].arrivedAt <= 60.0
    ensures Landed(s, i) == Total(s, s.reqs[i].key) + 1
  {
    var k := s.reqs[i].key;
    WindowSpan(s.reqs[i].arrivedAt);
    assert RequestOk(limit, s, s.reqs[i]);
    if k in s.counters {
      assert CounterOk(s, k);
    }
  }

  lemma DrawKeepsDrawn(s: Sys, i: nat, ph: Phase, k: RateKey)
    requires In(s, i, true) && Drawn(s, k)
    requires Landed(s, i) == Total(s, s.reqs[i].key) + 1
    requires ph == Counted(Landed(s, i)) || ph == Open(Some(Landed(s, i)))
    ensures Drawn(To(Bump(s, i), i, ph), k)
  {
    var s' := To(Bump(s, i), i, ph);
    if k != s.reqs[i].key {
      forall m: nat ensures |Tickets(s', k, m)| == Min(Total(s', k), m) {
        assert Tickets(s', k, m) == Tickets(s, k, m);
      }
    } else {
      forall m: nat ensures |Tickets(s', k, m)| == Min(Total(s', k), m) {
        if m > Total(s, k) {
          assert Tickets(s', k, m) == Tickets(s, k, m) + {i};
        } else {
          assert Tickets(s', k, m) == Tickets(s, k, m);
        }
      }
    }
  }

  lemma DrawKeepsOk(limit: nat, s: Sys, i: nat, ph: Phase)
    requires SysOk(limit, s) && In(s, i, true) && s.now - s.reqs[i].arrivedAt <= 60.0
    requires ph == Counted(Landed(s, i)) || ph == Open(Some(Landed(s, i)))
    ensures SysOk(limit, To(Bump(s, i), i, ph))
  {
    var s' := To(Bump(s, i), i, ph);
    DrawsNext(limit, s, i);
    forall k ensures Drawn(s', k) {
      DrawKeepsDrawn(s, i, ph, k);
    }
    forall k | k in s'.counters ensures CounterOk(s', k) {
      if k in s.counters { assert CounterOk(s, k); }
    }
    forall j | 0 <= j < |s'.reqs| ensures RequestOk(limit, s', s'.reqs[j]) {
      assert RequestOk(limit, s, s.reqs[j]);
    }
  }

  lemma ExpiryKeepsOk(limit: nat, s: Sys, i: nat, e: Event)
    requires SysOk(limit, s) && (e == SetExpiry(i) || e == ExpiryUnseen(i))
    ensures SysOk(limit, Step(limit, s, e))
  {
    var s' := Step(limit, s, e);
    forall k ensures Drawn(s', k) {
      NoDraw(s, s', k);
    }
    if In(s, i, false) {
      assert RequestOk(limit, s, s.reqs[i]);
      WindowSpan(s.reqs[i].arrivedAt);
    }
    forall k | k in s'.counters ensures CounterOk(s', k) {
      assert CounterOk(s, k);
    }
    forall j | 0 <= j < |s'.reqs| ensures RequestOk(limit, s', s'.reqs[j]) {
      assert RequestOk(limit, s, s.reqs[j]);
    }
  }

  lemma QuietStepKeepsOk(limit: nat, s: Sys, e: Event)
    requires SysOk(limit, s) && !e.Land? && !e.LandUnseen? && !e.SetExpiry? && !e.ExpiryUnseen?
    ensures SysOk(limit, Step(limit, s, e))
  {
    var s' := Step(limit, s, e);
    forall k ensures Drawn(s', k) {
      NoDraw(s, s', k);
    }
    forall k | k in s'.counters ensures CounterOk(s', k) {
      assert CounterOk(s, k);
    }
    forall j | 0 <= j < |s'.reqs| ensures RequestOk(limit, s', s'.reqs[j]) {
      if j < |s.reqs| { assert RequestOk(limit, s, s.reqs[j]); }
    }
  }

  lemma {:induction false} ReachableOk(limit: nat, es: seq<Event>)
    requires Prompt(limit, es)
    ensures SysOk(limit, Reach(limit, es))
  {
    if es == [] {
      assert forall k, m: nat :: Tickets(START, k, m) == {};
    } else {
      var s, e := Reach(limit, es[..|es| - 1]), es[|es| - 1];
      ReachableOk(limit, es[..|es| - 1]);
      match e
      case Land(i) => if In(s, i, true) { DrawKeepsOk(limit, s, i, Counted(Landed(s, i))); }
      case LandUnseen(i) => if In(s, i, true) { DrawKeepsOk(limit, s, i, Open(Some(Landed(s, i)))); }
      case SetExpiry(i) => ExpiryKeepsOk(limit, s, i, e);
      case ExpiryUnseen(i) => ExpiryKeepsOk(limit, s, i, e);
      case _ => QuietStepKeepsOk(limit, s, e);
    }
  }

  // ----- How many get through -----

  /** The requests of one identity and window. */
  function Of(s: Sys, k: RateKey): set<nat> {
    set i: nat | i < |s.reqs| && s.reqs[i].key == k
  }

  predicate IsAdmitted(r: Req) {
    r.phase.Decided? && r.phase.admitted
  }

  function Admitted(s: Sys, k: RateKey): set<nat> {
    set i: nat | i < |s.reqs| && s.reqs[i].key == k && IsAdmitted(s.reqs[i])
  }

  lemma {:induction false} SubsetSize<T>(a: set<T>, b: set<T>)
    requires a <= b
    ensures |a| <= |b|
  {
    if a != {} {
      var x :| x in a;
      SubsetSize(a - {x}, b - {x});
    }
  }

  /** As long as every INCR is prompt, whatever fails and however the instances interleave: the limiter never
      admits more than the limit per identity and window, nor more than its counter has counted. */
  lemma NeverOverLimit(limit: nat, es: seq<Event>, k: RateKey)
    requires Prompt(limit, es)
    ensures
      var s := Reach(limit, es);
      |Admitted(s, k)| <= Min(Total(s, k), limit)
  {
    var s := Reach(limit, es);
    ReachableOk(limit, es);
    forall i | i in Admitted(s, k) ensures i in Tickets(s, k, limit) {
      assert RequestOk(limit, s, s.reqs[i]);
    }
    SubsetSize(Admitted(s, k), Tickets(s, k, limit));
    assert Drawn(s, k);
  }

  predicate AllDecided(s: Sys, k: RateKey) {
    forall i :: 0 <= i < |s.reqs| && s.reqs[i].key == k ==> s.reqs[i].phase.Decided?
  }

  /** When none of a window's requests was let through on a failure and all are decided, exactly
      min(requests, limit) of them were admitted. */
  lemma ExactlyTheLimit(limit: nat, es: seq<Event>, k: RateKey)
    requires Prompt(limit, es)
    requires AllDecided(Reach(limit, es), k)
    ensures
      var s := Reach(limit, es);
      |Admitted(s, k)| == Min(|Of(s, k)|, limit)
  {
    var s := Reach(limit, es);
    ReachableOk(limit, es);
    forall i: nat | i < |s.reqs| && s.reqs[i].key == k
      ensures Ticket(s.reqs[i]).Some? && Ticket(s.reqs[i]).value <= Total(s, k)
      ensures IsAdmitted(s.reqs[i]) <==> Ticket(s.reqs[i]).value <= limit
    {
      assert s.reqs[i].phase.Decided?;
      assert RequestOk(limit, s, s.reqs[i]);
    }
    assert Drawn(s, k);
    assert Of(s, k) == Tickets(s, k, Total(s, k));
    assert Admitted(s, k) == Tickets(s, k, limit);
  }

  /** Being admitted is being told so. */
  lemma AdmittedAreAllowed(limit: nat, r: Req, readAt: real)
    requires r.phase.Decided?
    ensures r.phase.admitted <==> VerdictOf(limit, r.phase, readAt).Allowed?
    ensures !r.phase.admitted <==> VerdictOf(limit, r.phase, readAt).TooMany?
  {
  }

  /** The requests of one identity and window that are passed on with headers, not answered 429. */
  function ToldAllowed(limit: nat, s: Sys, k: RateKey, readAt: real): set<nat> {
    set i: nat | i < |s.reqs| && s.reqs[i].key == k && VerdictOf(limit, s.reqs[i].phase, readAt).Allowed?
  }

  /** The same count of the verdicts that the clients are given. */
  lemma ExactlyTheLimitAreAllowed(limit: nat, es: seq<Event>, k: RateKey, readAt: real)
    requires Prompt(limit, es)
    requires AllDecided(Reach(limit, es), k)
    ensures
      var s := Reach(limit, es);
      |ToldAllowed(limit, s, k, readAt)| == Min(|Of(s, k)|, limit)
  {
    var s := Reach(limit, es);
    ExactlyTheLimit(limit, es, k);
    forall i: nat | i < |s.reqs| && s.reqs[i].key == k
      ensures VerdictOf(limit, s.reqs[i].phase, readAt).Allowed? <==> IsAdmitted(s.reqs[i])
    {
      AdmittedAreAllowed(limit, s.reqs[i], readAt);
    }
    assert ToldAllowed(limit, s, k, readAt) == Admitted(s, k);
  }

  // ----- Bursts -----

  /** An identity's admitted requests in `n` consecutive windows. */
  function AdmittedFrom(s: Sys, id: string, w: int, n: nat): set<nat> {
    set i: nat | i < |s.reqs| && s.reqs[i].key.identity == id && w <= s.reqs[i].key.window < w + n
                 && IsAdmitted(s.reqs[i])
  }

  lemma {:induction false} WindowsAddUp(s: Sys, id: string, w: int, n: nat, limit: nat)
    requires forall v :: w <= v < w + n ==> |Admitted(s, RateKey(id, v))| <= limit
    ensures |AdmittedFrom(s, id, w, n)| <= n * limit
  {
    if n == 0 {
      assert AdmittedFrom(s, id, w, 0) == {};
    } else {
      WindowsAddUp(s, id, w, n - 1, limit);
      var last := Admitted(s, RateKey(id, w + n - 1));
      assert AdmittedFrom(s, id, w, n) == AdmittedFrom(s, id, w, n - 1) + last;
      assert n * limit == (n - 1) * limit + limit;
    }
  }

  /** An identity's admitted requests that arrived in [a, a + length). */
  function AdmittedDuring(s: Sys, id: string, a: real, length: real): set<nat> {
    set i: nat | i < |s.reqs| && s.reqs[i].key.identity == id && a <= s.reqs[i].arrivedAt < a + length
                 && IsAdmitted(s.reqs[i])
  }

  /** An interval of at most `n` minutes, wherever it starts, meets at most n + 1 windows, so at most
      (n + 1) x limit of its requests are admitted: twice the limit in any one minute. */
  lemma BurstBound(limit: nat, es: seq<Event>, id: string, a: real, length: real, n: nat)
    requires Prompt(limit, es) && length <= 60.0 * n as real
    ensures |AdmittedDuring(Reach(limit, es), id, a, length)| <= (n + 1) * limit
  {
    var s := Reach(limit, es);
    ReachableOk(limit, es);
    var w := WindowOf(a);
    WindowSpan(a);
    forall i | i in AdmittedDuring(s, id, a, length) ensures i in AdmittedFrom(s, id, w, n + 1) {
      assert RequestOk(limit, s, s.reqs[i]);
      WindowSpan(s.reqs[i].arrivedAt);
    }
    forall v | w <= v < w + n + 1 ensures |Admitted(s, RateKey(id, v))| <= limit {
      NeverOverLimit(limit, es, RateKey(id, v));
    }
    WindowsAddUp(s, id, w, n + 1, limit);
    SubsetSize(AdmittedDuring(s, id, a, length), AdmittedFrom(s, id, w, n + 1));
  }

  lemma ReachStep(limit: nat, es: seq<Event>, e: Event)
    ensures Reach(limit, es + [e]) == Step(limit, Reach(limit, es), e)
  {
    assert (es + [e])[..|es|] == es;
  }

  function AloneEvents(i: nat, id: string, d1: real, d2: real, incr: Call, expire: Call): seq<Event> {
    [Arrive(id), Tick(d1), LandEvent(i, incr), Tick(d2), ExpiryEvent(i, expire), Decide(i)]
  }

  /** A dispatch at any point of any run extends it to a run. */
  lemma AloneIsARun(limit: nat, es: seq<Event>, id: string, d1: real, d2: real, incr: Call, expire: Call)
    ensures
      var s := Reach(limit, es);
      Alone(limit, s, id, d1, d2, incr, expire) == Reach(limit, es + AloneEvents(|s.reqs|, id, d1, d2, incr, expire))
  {
    hide Reach, Step;
    var more := AloneEvents(|Reach(limit, es).reqs|, id, d1, d2, incr, expire);
    ReachStep(limit, es, more[0]);
    ReachStep(limit, es + [more[0]], more[1]);
    ReachStep(limit, es + [more[0]] + [more[1]], more[2]);
    ReachStep(limit, es + [more[0]] + [more[1]] + [more[2]], more[3]);
    ReachStep(limit, es + [more[0]] + [more[1]] + [more[2]] + [more[3]], more[4]);
    ReachStep(limit, es + [more[0]] + [more[1]] + [more[2]] + [more[3]] + [more[4]], more[5]);
    assert es + more == es + [more[0]] + [more[1]] + [more[2]] + [more[3]] + [more[4]] + [more[5]];
  }

  /** When the second request must arrive, in [0, 60), for an INCR `late` after that to miss the counter. */
  function Arrival(late: real): real {
    if late >= 120.0 then 0.0 else 120.0 - late
  }

  /** Two requests of one window; the second's INCR lands `late` after it arrived. */
  function LateRun(late: real, n: nat): seq<Event>
    requires n <= 8
  {
    [Arrive("x"), Land(0), SetExpiry(0), Tick(Arrival(late)), Arrive("x"), Tick(late), Land(1), SetExpiry(1)][..n]
  }

  lemma LateRunStep(late: real, n: nat)
    requires n < 8
    ensures Reach(1, LateRun(late, n + 1)) == Step(1, Reach(1, LateRun(late, n)), LateRun(late, 8)[n])
  {
    assert LateRun(late, n + 1) == LateRun(late, n) + [LateRun(late, 8)[n]];
    ReachStep(1, LateRun(late, n), LateRun(late, 8)[n]);
  }

  lemma LateRunStarts(late: real)
    requires late > 60.0
    ensures Reach(1, LateRun(late, 0)) == START && WindowOf(0.0) == 0 && WindowOf(Arrival(late)) == 0
  {
    WindowIs(0.0, 0);
    WindowIs(Arrival(late), 0);
  }

  lemma LateRunFirstHalf(late: real)
    requires late > 60.0
    ensures
      var k := RateKey("x", 0);
      Reach(1, LateRun(late, 4)) ==
        Sys(Arrival(late), map[k := Counter(1, Some(120.0))], [Req(k, 0.0, Decided(1, true))])
  {
    hide Reach, WindowOf;
    var k := RateKey("x", 0);
    LateRunStarts(late);
    LateRunStep(late, 0);
    assert Reach(1, LateRun(late, 1)) == Sys(0.0, map[], [Req(k, 0.0, Waiting)]);
    LateRunStep(late, 1);
    assert Reach(1, LateRun(late, 2)) == Sys(0.0, map[k := Counter(1, None)], [Req(k, 0.0, Counted(1))]);
    LateRunStep(late, 2);
    assert Reach(1, LateRun(late, 3)) == Sys(0.0, map[k := Counter(1, Some(120.0))], [Req(k, 0.0, Decided(1, true))]);
    LateRunStep(late, 3);
  }

  lemma LateRunSecondHalf(late: real)
    requires late > 60.0
    ensures
      var k := RateKey("x", 0);
      var first := Req(k, 0.0, Decided(1, true));
      && Reach(1, LateRun(late, 6)) ==
           Sys(Arrival(late) + late, map[k := Counter(1, Some(120.0))], [first, Req(k, Arrival(late), Waiting)])
      && Reach(1, LateRun(late, 8)).reqs == [first, Req(k, Arrival(late), Decided(1, true))]
  {
    hide Reach, WindowOf;
    var k := RateKey("x", 0);
    var first := Req(k, 0.0, Decided(1, true));
    LateRunStarts(late);
    LateRunFirstHalf(late);
    LateRunStep(late, 4);
    assert Reach(1, LateRun(late, 5)).reqs == [first, Req(k, Arrival(late), Waiting)];
    LateRunStep(late, 5);
    LateRunStep(late, 6);
    assert Reach(1, LateRun(late, 7)).reqs == [first, Req(k, Arrival(late), Counted(1))];
    LateRunStep(late, 7);
  }

  /** The 60 seconds of promptness cannot be made longer: for any lateness above them there is a run, prompt but
      for one INCR that late, in which the INCR finds its counter expired, starts it again at 1, and with a limit
      of 1 a second request of the same window is admitted. */
  lemma LateIncrOverrunsLimit(late: real)
    requires late > 60.0
    ensures |Admitted(Reach(1, LateRun(late, 8)), RateKey("x", 0))| == 2
    ensures Prompt(1, LateRun(late, 6)) && LateRun(late, 8)[6] == Land(1)
    ensures
      var s := Reach(1, LateRun(late, 6));
      In(s, 1, true) && s.now - s.reqs[1].arrivedAt == late
  {
    LateRunSecondHalf(late);
    LateRunPrompt(late, 6);
    hide Reach, Prompt, WindowOf;
    assert Admitted(Reach(1, LateRun(late, 8)), RateKey("x", 0)) == {0, 1};
  }

  lemma {:induction false} LateRunPrompt(late: real, n: nat)
    requires late > 60.0 && n <= 6
    ensures Prompt(1, LateRun(late, n))
  {
    hide Reach;
    if n > 0 {
      LateRunPrompt(late, n - 1);
      assert LateRun(late, n)[..n - 1] == LateRun(late, n - 1);
      if n == 2 {
        LateRunStarts(late);
        LateRunStep(late, 0);
      }
    }
  }
}
