/** Whole requests against the database and the cache, and serial runs of them. */
module Requests {
  import opened Base
  import opened Engine
  import opened Store
  import opened Compiled
  import opened FlagCache
  import opened Audit

  /** The database and the cache between two requests. */
  datatype World = World(store: Store, cache: Entries)

  /** A request in full. The booleans say which Redis calls succeed; `hint` is the order in which the
      database returns the rows, `now` the time of the request. */
  datatype Request =
    | WriteReq(w: Write, delWorks: bool)
    | EvalReq(caller: Caller, bodyTenant: Uuid, env: Env, userId: string, ctx: Context, keys: Option<seq<string>>,
              now: int, hint: seq<Snapshot>, getWorks: bool, setWorks: bool)
    | HistoryReq(caller: Caller, path: Uuid, key: string, limit: nat)

  datatype Answer =
    | Written(r: Response)
    | Flags(values: map<string, Option<Value>>)
    | Records(rs: seq<Record>)
    | Denied(status: int)

  function CallerOf(q: Request): Caller {
    match q
    case WriteReq(w, _) => w.caller
    case EvalReq(c, _, _, _, _, _, _, _, _, _) => c
    case HistoryReq(c, _, _, _) => c
  }

  /** One request, start to finish. */
  ghost function Serve(p: Platform, ttl: nat, wd: World, q: Request): (World, Answer) {
    match q
    case WriteReq(w, delWorks) =>
      var o := Handle(wd.store, w);
      (World(o.store, if delWorks then DelKeys(wd.cache, o.dels) else wd.cache), Written(o.response))
    case EvalReq(c, bodyTenant, env, userId, ctx, keys, now, hint, getWorks, setWorks) =>
      if bodyTenant != c.tenant then (wd, Denied(403))
      else
        var (rows, cache) := Load(ttl, wd.store, wd.cache, CacheKey(c.tenant, env), now, hint, getWorks, setWorks);
        (World(wd.store, cache), Flags(EvaluateRows(p, rows, userId, ctx, keys)))
    case HistoryReq(c, path, key, limit) =>
      if path != c.tenant then (wd, Denied(404))
      else if limit < 1 || limit > 200 then (wd, Denied(422))
      else if Lookup(wd.store, c.tenant, key).None? then (wd, Denied(404))
      else (wd, Records(History(wd.store.log, c.tenant, Lookup(wd.store, c.tenant, key).value, limit)))
  }

  /** How reads are refused: 403 for another tenant in the body of an evaluation; 404 for another tenant's path or
      a key the tenant does not use, and 422 for a limit outside 1 to 200, in a history. A refused read, like
      any history, leaves database and cache alone. */
  lemma ReadStatus(p: Platform, ttl: nat, wd: World, q: Request)
    requires !q.WriteReq?
    ensures
      var (after, a) := Serve(p, ttl, wd, q);
      && after.store == wd.store && (a.Denied? || q.HistoryReq? ==> after == wd)
      && (q.EvalReq? ==> if q.bodyTenant != q.caller.tenant then a == Denied(403) else a.Flags?)
      && (q.HistoryReq? ==>
            if q.path != q.caller.tenant then a == Denied(404)
            else if !(1 <= q.limit <= 200) then a == Denied(422)
            else if forall id :: !IsRow(wd.store, q.caller.tenant, q.key, id) then a == Denied(404)
            else a.Records? && |a.rs| <= q.limit)
  {
    if q.HistoryReq? && Lookup(wd.store, q.caller.tenant, q.key).Some? {
      HistoryIsNewestFirst(wd.store.log, q.caller.tenant, Lookup(wd.store, q.caller.tenant, q.key).value, q.limit);
    }
  }

  ghost function Play(p: Platform, ttl: nat, qs: seq<Request>): World {
    if qs == [] then World(EMPTY, map[]) else Serve(p, ttl, Play(p, ttl, qs[..|qs| - 1]), qs[|qs| - 1]).0
  }

  /** The answers given to one tenant, in order. */
  ghost function AnswersTo(p: Platform, ttl: nat, qs: seq<Request>, t: Uuid): seq<Answer> {
    if qs == [] then []
    else
      var n := |qs| - 1;
      AnswersTo(p, ttl, qs[..n], t)
      + if CallerOf(qs[n]).tenant == t then [Serve(p, ttl, Play(p, ttl, qs[..n]), qs[n]).1] else []
  }

  lemma ServeKeepsInv(p: Platform, ttl: nat, wd: World, q: Request)
    requires Inv(wd.store)
    ensures Inv(Serve(p, ttl, wd, q).0.store)
  {
    if q.WriteReq? {
      HandleKeepsInv(wd.store, q.w);
    }
  }
}
