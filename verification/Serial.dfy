/** Requests served one after another: the cache can then not be told from its absence, as long as
    no DEL is lost, whatever becomes of the GETs and SETs. One lost DEL can make a difference. */
module Serial {
  import opened Base
  import opened Engine
  import opened Store
  import opened Compiled
  import opened FlagCache
  import opened Requests

  /** Every entry, expired or not, lists the set compiled from the current database. */
  ghost predicate AllCoherent(wd: World) {
    forall k :: k in wd.cache ==> Lists(wd.cache[k].payload, Compile(wd.store, k))
  }

  /** Every write of the run gets its DEL through; GETs and SETs may fail at will. */
  predicate NoDelLost(qs: seq<Request>) {
    forall i :: 0 <= i < |qs| && qs[i].WriteReq? ==> qs[i].delWorks
  }

  /** The same world with its cache thrown away. */
  function Uncached(wd: World): World {
    World(wd.store, map[])
  }

  /** The same request with every Redis call failing. */
  function WithoutRedis(q: Request): Request {
    match q
    case WriteReq(w, _) => WriteReq(w, false)
    case EvalReq(c, t, e, u, x, ks, now, hint, _, _) => EvalReq(c, t, e, u, x, ks, now, hint, false, false)
    case HistoryReq(_, _, _, _) => q
  }

  lemma WriteKeepsCoherent(st: Store, w: Write, cache: Entries)
    requires Inv(st) && AllCoherent(World(st, cache))
    ensures AllCoherent(World(Handle(st, w).store, DelKeys(cache, Handle(st, w).dels)))
  {
    hide Handle, Compile, Inv;
    forall k | k in DelKeys(cache, Handle(st, w).dels)
      ensures Lists(cache[k].payload, Compile(Handle(st, w).store, k))
    {
      InvalidationSuffices(st, w, k);
    }
  }

  lemma ServeKeepsCoherent(p: Platform, ttl: nat, wd: World, q: Request)
    requires Inv(wd.store) && AllCoherent(wd) && (q.WriteReq? ==> q.delWorks)
    ensures AllCoherent(Serve(p, ttl, wd, q).0)
  {
    hide Handle, Compile, Inv, EvaluateRows;
    if q.WriteReq? {
      WriteKeepsCoherent(wd.store, q.w, wd.cache);
    }
  }

  /** From a coherent cache a request is answered exactly as it would be without Redis. */
  lemma CacheIsTransparent(p: Platform, ttl: nat, wd: World, q: Request)
    requires Inv(wd.store) && AllCoherent(wd)
    ensures
      var cached, plain := Serve(p, ttl, wd, q), Serve(p, ttl, Uncached(wd), WithoutRedis(q));
      cached.1 == plain.1 && Uncached(cached.0) == plain.0
  {
    hide Handle, Compile, Inv, EvaluateRows;
    if q.EvalReq? && q.bodyTenant == q.caller.tenant {
      var k := CacheKey(q.caller.tenant, q.env);
      var c := Compile(wd.store, k);
      var got := Load(ttl, wd.store, wd.cache, k, q.now, q.hint, q.getWorks, q.setWorks).0;
      CompiledShape(wd.store, k);
      RowOrderIrrelevant(p, got, RowsOf(c, q.hint), c, q.userId, q.ctx, q.keys);
    }
  }

  lemma {:induction false} PlayedCoherent(p: Platform, ttl: nat, qs: seq<Request>)
    requires NoDelLost(qs)
    ensures Inv(Play(p, ttl, qs).store) && AllCoherent(Play(p, ttl, qs))
  {
    if qs != [] {
      var n := |qs| - 1;
      PlayedCoherent(p, ttl, qs[..n]);
      ServeKeepsInv(p, ttl, Play(p, ttl, qs[..n]), qs[n]);
      ServeKeepsCoherent(p, ttl, Play(p, ttl, qs[..n]), qs[n]);
    }
  }

  /** The run with every Redis call failing. */
  function AllWithoutRedis(qs: seq<Request>): seq<Request> {
    seq(|qs|, i requires 0 <= i < |qs| => WithoutRedis(qs[i]))
  }

  /** A whole serial run gives every tenant the answers it would get from a service without Redis. */
  lemma {:induction false} SerialRunsNeedNoCache(p: Platform, ttl: nat, qs: seq<Request>, t: Uuid)
    requires NoDelLost(qs)
    ensures Uncached(Play(p, ttl, qs)) == Play(p, ttl, AllWithoutRedis(qs))
    ensures AnswersTo(p, ttl, qs, t) == AnswersTo(p, ttl, AllWithoutRedis(qs), t)
  {
    hide Serve, Inv, AllCoherent;
    if qs != [] {
      var n := |qs| - 1;
      var plain := AllWithoutRedis(qs);
      assert plain[..n] == AllWithoutRedis(qs[..n]);
      assert NoDelLost(qs[..n]);
      SerialRunsNeedNoCache(p, ttl, qs[..n], t);
      PlayedCoherent(p, ttl, qs[..n]);
      CacheIsTransparent(p, ttl, Play(p, ttl, qs[..n]), qs[n]);
      assert CallerOf(plain[n]) == CallerOf(qs[n]);
    }
  }

  // ----- A lost DEL -----

  function Ask(k: CacheKey): Request {
    EvalReq(Caller("a", k.tenant), k.tenant, k.env, "u", map[], None, 0, [], true, true)
  }

  function AddFlag(k: CacheKey): Write {
    CreateReq(Caller("a", k.tenant), k.tenant, FlagCreate("f", "n", None, Boolean, Bool(false)), "id", true)
  }

  /** An evaluation, a creation whose DEL is lost, and the evaluation again. */
  function LossyRun(k: CacheKey): seq<Request> {
    [Ask(k), WriteReq(AddFlag(k), false), Ask(k)]
  }

  lemma AddFlagCommits(k: CacheKey)
    ensures
      var st := Handle(EMPTY, AddFlag(k)).store;
      Inv(st) && Joins(st, k, "id") && Snap(st, k, "id").key == "f"
  {
    HandleKeepsInv(EMPTY, AddFlag(k));
  }

  /** From an entry that misses the flag, the answer is not the one given without Redis. */
  lemma Asked(p: Platform, ttl: nat, wd: World, k: CacheKey)
    requires k in wd.cache && wd.cache[k] == Entry([], ttl) && ttl > 0
    requires Inv(wd.store) && Joins(wd.store, k, "id") && Snap(wd.store, k, "id").key == "f"
    ensures Serve(p, ttl, wd, Ask(k)).1 != Serve(p, ttl, Uncached(wd), WithoutRedis(Ask(k))).1
  {
    hide Inv, RowsOf, EvaluateAll;
    var rows := RowsOf(Compile(wd.store, k), []);
    CompiledShape(wd.store, k);
    ResponseIsExact(p, rows, Compile(wd.store, k), "u", map[], None);
    assert Snap(wd.store, k, "id") in Compile(wd.store, k) && Wanted(None, "f");
    assert "f" in EvaluateRows(p, rows, "u", map[], None);
    assert "f" !in EvaluateRows(p, [], "u", map[], None);
  }

  lemma LossyRunPlays(p: Platform, ttl: nat, k: CacheKey)
    ensures
      var st := Handle(EMPTY, AddFlag(k)).store;
      && Play(p, ttl, LossyRun(k)[..2]) == World(st, map[k := Entry([], ttl)])
      && Play(p, ttl, AllWithoutRedis(LossyRun(k))[..2]) == World(st, map[])
  {
    hide Handle;
    var qs, plain := LossyRun(k), AllWithoutRedis(LossyRun(k));
    assert qs[..2][..1] == qs[..1] && qs[..1][..0] == [] && plain[..2][..1] == plain[..1] && plain[..1][..0] == [];
    assert Compile(EMPTY, k) == {};
    assert Play(p, ttl, qs[..1]) == World(EMPTY, map[k := Entry([], ttl)]);
    assert Play(p, ttl, plain[..1]) == World(EMPTY, map[]);
  }

  lemma LastAnswer(p: Platform, ttl: nat, qs: seq<Request>, t: Uuid)
    requires qs != [] && CallerOf(qs[|qs| - 1]).tenant == t
    ensures
      var as_ := AnswersTo(p, ttl, qs, t);
      as_ != [] && as_[|as_| - 1] == Serve(p, ttl, Play(p, ttl, qs[..|qs| - 1]), qs[|qs| - 1]).1
  {
  }

  /** `NoDelLost` is needed: after one lost DEL the tenant is answered otherwise than without Redis. */
  lemma LostDelShows(p: Platform, ttl: nat, k: CacheKey)
    requires ttl > 0
    ensures AnswersTo(p, ttl, LossyRun(k), k.tenant) != AnswersTo(p, ttl, AllWithoutRedis(LossyRun(k)), k.tenant)
  {
    hide AnswersTo, Serve, Play, Handle;
    LossyRunPlays(p, ttl, k);
    AddFlagCommits(k);
    Asked(p, ttl, Play(p, ttl, LossyRun(k)[..2]), k);
    LastAnswer(p, ttl, LossyRun(k), k.tenant);
    LastAnswer(p, ttl, AllWithoutRedis(LossyRun(k)), k.tenant);
  }
}
