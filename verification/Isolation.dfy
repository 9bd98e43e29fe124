/** Tenant isolation over whole serial runs: what one tenant sees is what it would see if no other
    tenant had ever sent a request. */
module Isolation {
  import opened Base
  import opened Engine
  import opened Store
  import opened Compiled
  import opened FlagCache
  import opened Audit
  import opened Requests

  /** The run with every other tenant's request deleted. */
  function Only(qs: seq<Request>, t: Uuid): seq<Request> {
    if qs == [] then []
    else
      var n := |qs| - 1;
      Only(qs[..n], t) + if CallerOf(qs[n]).tenant == t then [qs[n]] else []
  }

  // ----- One tenant's part of the world -----

  function RecordsOf(log: seq<Record>, t: Uuid): seq<Record> {
    if log == [] then []
    else
      var n := |log| - 1;
      RecordsOf(log[..n], t) + if log[n].tenant == t then [log[n]] else []
  }

  function FlagsOf(flags: map<Uuid, Flag>, t: Uuid): map<Uuid, Flag> {
    map id | id in flags && flags[id].tenant == t :: flags[id]
  }

  function ConfigsOf(configs: map<(Uuid, Env), Config>, t: Uuid): map<(Uuid, Env), Config> {
    map k | k in configs && configs[k].tenant == t :: configs[k]
  }

  function Part(s: Store, t: Uuid): Store {
    Store(FlagsOf(s.flags, t), ConfigsOf(s.configs, t), RecordsOf(s.log, t))
  }

  function CacheOf(es: Entries, t: Uuid): Entries {
    map k | k in es && k.tenant == t :: es[k]
  }

  function PartOf(wd: World, t: Uuid): World {
    World(Part(wd.store, t), CacheOf(wd.cache, t))
  }

  lemma RecordsOfStep(log: seq<Record>, r: Record, t: Uuid)
    ensures RecordsOf(log + [r], t) == if r.tenant == t then RecordsOf(log, t) + [r] else RecordsOf(log, t)
  {
    assert (log + [r])[..|log|] == log;
  }

  lemma {:induction false} RecordsOfIn(log: seq<Record>, t: Uuid, i: nat)
    requires i < |RecordsOf(log, t)|
    ensures RecordsOf(log, t)[i] in log && RecordsOf(log, t)[i].tenant == t
  {
    var n := |log| - 1;
    if i < |RecordsOf(log[..n], t)| {
      RecordsOfIn(log[..n], t, i);
    }
  }

  lemma PartKeepsInv(s: Store, t: Uuid)
    requires Inv(s)
    ensures Inv(Part(s, t))
  {
    var q := Part(s, t);
    forall id, e: Env ensures (id, e) in q.configs <==> id in q.flags {
      if (id, e) in s.configs {
        assert ConfigOk(s.flags[id], s.configs[(id, e)]);
      }
    }
    forall id, e: Env | (id, e) in q.configs && id in q.flags ensures ConfigOk(q.flags[id], q.configs[(id, e)]) {
      assert ConfigOk(s.flags[id], s.configs[(id, e)]);
    }
    forall i | 0 <= i < |q.log|
      ensures q.log[i].flagId in q.flags && q.log[i].tenant == q.flags[q.log[i].flagId].tenant
    {
      RecordsOfIn(s.log, t, i);
      var j :| 0 <= j < |s.log| && s.log[j] == q.log[i];
    }
  }

  lemma PartLookup(s: Store, t: Uuid, key: string)
    requires Inv(s)
    ensures Lookup(Part(s, t), t, key) == Lookup(s, t, key)
  {
    PartKeepsInv(s, t);
    var a := Lookup(s, t, key);
    if a.Some? {
      LookupIs(Part(s, t), t, key, a.value);
    } else {
      forall id ensures !IsRow(Part(s, t), t, key, id) {
        assert !IsRow(s, t, key, id);
      }
    }
  }

  lemma PartRow(s: Store, t: Uuid, id: Uuid, env: Option<Env>)
    requires Inv(s) && id in s.flags && s.flags[id].tenant == t
    ensures HasRow(Part(s, t), id, env) <==> HasRow(s, id, env)
    ensures HasRow(s, id, env) ==> Row(Part(s, t), id, env) == Row(s, id, env)
  {
    if env.Some? && HasRow(s, id, env) {
      assert ConfigOk(s.flags[id], s.configs[(id, env.value)]);
    }
  }

  // ----- Writes -----

  lemma PutRowInPart(s: Store, t: Uuid, id: Uuid, env: Option<Env>, e: Entity)
    requires e.FlagRow? <==> env.None?
    requires if e.FlagRow? then e.flag.tenant == t else e.config.tenant == t
    ensures Part(PutRow(s, id, env, e), t) == PutRow(Part(s, t), id, env, e)
  {
    var a, b := Part(PutRow(s, id, env, e), t), PutRow(Part(s, t), id, env, e);
    assert a.flags == b.flags;
    assert a.configs == b.configs;
  }

  lemma LoggedInPart(s: Store, t: Uuid, r: Record)
    requires r.tenant == t
    ensures Part(s.(log := s.log + [r]), t) == Part(s, t).(log := Part(s, t).log + [r])
  {
    RecordsOfStep(s.log, r, t);
  }

  lemma WriteScopeInPart(s: Store, t: Uuid, c: Caller, id: Uuid, env: Option<Env>, p: Patch)
    requires HasRow(s, id, env) && HasRow(Part(s, t), id, env) && c.tenant == t
    requires Row(Part(s, t), id, env) == Row(s, id, env)
    requires if env.None? then s.flags[id].tenant == t else s.configs[(id, env.value)].tenant == t
    ensures Part(WriteScope(s, c, id, env, p), t) == WriteScope(Part(s, t), c, id, env, p)
  {
    if p != map[] {
      var e := Apply(Row(s, id, env), p);
      ApplyKeepsIdentity(Row(s, id, env), p);
      hide Part, Apply, OldValues;
      PutRowInPart(s, t, id, env, e);
      LoggedInPart(PutRow(s, id, env, e), t, UpdateRecord(s, c, id, env, p));
      PartLog(s, t);
      PartLog(PutRow(s, id, env, e), t);
    }
  }

  lemma PartLog(s: Store, t: Uuid)
    ensures Part(s, t).log == RecordsOf(s.log, t)
  {
  }

  lemma UpdatedInPart(s: Store, c: Caller, id: Uuid, p: FlagUpdate)
    requires Inv(s) && id in s.flags && s.flags[id].tenant == c.tenant
    requires p.environment.Some? ==> (id, p.environment.value) in s.configs
    ensures
      var q := Part(s, c.tenant);
      && id in q.flags && (p.environment.Some? ==> (id, p.environment.value) in q.configs)
      && FlagPatch(q, id, p) == FlagPatch(s, id, p) && ConfigPatch(q, id, p) == ConfigPatch(s, id, p)
      && Part(Updated(s, c, id, p), c.tenant) == Updated(q, c, id, p)
  {
    var t, q := c.tenant, Part(s, c.tenant);
    PartRow(s, t, id, None);
    PartRow(s, t, id, p.environment);
    WriteScopeInPart(s, t, c, id, None, FlagPatch(s, id, p));
    if p.environment.Some? {
      var s1 := WriteScope(s, c, id, None, FlagPatch(s, id, p));
      var q1 := WriteScope(q, c, id, None, FlagPatch(s, id, p));
      assert Row(s1, id, p.environment) == Row(s, id, p.environment);
      assert Row(q1, id, p.environment) == Row(q, id, p.environment);
      WriteScopeInPart(s1, t, c, id, p.environment, ConfigPatch(s, id, p));
    }
  }

  lemma SeededInPart(configs: map<(Uuid, Env), Config>, t: Uuid, id: Uuid, g: Config)
    requires g.tenant == t
    ensures ConfigsOf(configs + SeedConfigs(id, g), t) == ConfigsOf(configs, t) + SeedConfigs(id, g)
  {
  }

  lemma CreatedInPart(s: Store, c: Caller, p: FlagCreate, newId: Uuid)
    requires newId !in s.flags
    ensures Part(Created(s, c, p, newId), c.tenant) == Created(Part(s, c.tenant), c, p, newId)
  {
    RecordsOfStep(s.log, CreatedRecord(c, newId, p), c.tenant);
    assert Part(Created(s, c, p, newId), c.tenant).flags == Created(Part(s, c.tenant), c, p, newId).flags;
    SeededInPart(s.configs, c.tenant, newId, SeedConfig(c.tenant, p.ftype, p.defaultValue));
  }

  lemma ArchivedInPart(s: Store, c: Caller, id: Uuid, now: string)
    requires id in s.flags && s.flags[id].tenant == c.tenant
    ensures id in Part(s, c.tenant).flags
    ensures Part(Archived(s, c, id, now), c.tenant) == Archived(Part(s, c.tenant), c, id, now)
  {
    RecordsOfStep(s.log, ArchiveRecord(c, id, now), c.tenant);
    assert Part(Archived(s, c, id, now), c.tenant).flags == Archived(Part(s, c.tenant), c, id, now).flags;
  }

  lemma BodyInPart(s: Store, t: Uuid, id: Uuid)
    requires id in s.flags && s.flags[id].tenant == t
    requires forall e: Env :: (id, e) in s.configs ==> s.configs[(id, e)].tenant == t
    ensures id in Part(s, t).flags && BodyOf(Part(s, t), id) == BodyOf(s, id)
  {
  }

  ghost predicate ConfigsOwned(s: Store, id: Uuid, t: Uuid) {
    forall e: Env :: (id, e) in s.configs ==> s.configs[(id, e)].tenant == t
  }

  lemma OwnedConfigs(s: Store, id: Uuid)
    requires Inv(s) && id in s.flags
    ensures ConfigsOwned(s, id, s.flags[id].tenant)
  {
    forall e: Env | (id, e) in s.configs ensures s.configs[(id, e)].tenant == s.flags[id].tenant {
      assert ConfigOk(s.flags[id], s.configs[(id, e)]);
    }
  }

  /** The same outcome, up to whose store it is about. */
  ghost predicate SameFor(o: Outcome, q: Outcome, t: Uuid) {
    Part(o.store, t) == q.store && o.response == q.response && o.dels == q.dels
  }

  lemma CreatedBodyInPart(s: Store, c: Caller, p: FlagCreate, newId: Uuid)
    ensures
      var s' := Created(s, c, p, newId);
      newId in Part(s', c.tenant).flags && BodyOf(Part(s', c.tenant), newId) == BodyOf(s', newId)
  {
    hide SeedConfigs;
    var s' := Created(s, c, p, newId);
    assert forall e: Env :: s'.configs[(newId, e)] == SeedConfig(c.tenant, p.ftype, p.defaultValue);
    BodyInPart(s', c.tenant, newId);
  }

  lemma OwnCreate(s: Store, c: Caller, path: Uuid, p: FlagCreate, newId: Uuid, commits: bool)
    requires Inv(s) && (newId in s.flags ==> s.flags[newId].tenant == c.tenant)
    ensures SameFor(HandleCreate(s, c, path, p, newId, commits),
                    HandleCreate(Part(s, c.tenant), c, path, p, newId, commits), c.tenant)
  {
    hide ValidCreate, Inv, BodyOf, SeedConfigs, Lookup;
    PartLookup(s, c.tenant, p.key);
    if newId !in s.flags {
      CreatedInPart(s, c, p, newId);
      CreatedBodyInPart(s, c, p, newId);
    }
  }

  lemma ArchivedBodyInPart(s: Store, c: Caller, id: Uuid, now: string)
    requires id in s.flags && s.flags[id].tenant == c.tenant && ConfigsOwned(s, id, c.tenant)
    ensures
      var s' := Archived(s, c, id, now);
      id in Part(s', c.tenant).flags && BodyOf(Part(s', c.tenant), id) == BodyOf(s', id)
  {
    hide Part, BodyOf;
    BodyInPart(Archived(s, c, id, now), c.tenant, id);
  }

  lemma OwnArchive(s: Store, c: Caller, path: Uuid, key: string, now: string, commits: bool)
    requires Inv(s)
    ensures SameFor(HandleArchive(s, c, path, key, now, commits),
                    HandleArchive(Part(s, c.tenant), c, path, key, now, commits), c.tenant)
  {
    hide Inv, Part, BodyOf, Archived, Lookup;
    PartLookup(s, c.tenant, key);
    if Lookup(s, c.tenant, key).Some? {
      var id := Lookup(s, c.tenant, key).value;
      OwnedConfigs(s, id);
      BodyInPart(s, c.tenant, id);
      PartRow(s, c.tenant, id, None);
      ArchivedInPart(s, c, id, now);
      ArchivedBodyInPart(s, c, id, now);
    }
  }

  lemma UpdatedOwned(s: Store, c: Caller, id: Uuid, p: FlagUpdate)
    requires id in s.flags && (p.environment.Some? ==> (id, p.environment.value) in s.configs)
    requires ConfigsOwned(s, id, c.tenant) && s.flags[id].tenant == c.tenant
    ensures ConfigsOwned(Updated(s, c, id, p), id, c.tenant)
    ensures id in Updated(s, c, id, p).flags && Updated(s, c, id, p).flags[id].tenant == c.tenant
  {
    UpdatedRows(s, c, id, p);
  }

  lemma OwnUpdate(s: Store, c: Caller, id: Uuid, p: FlagUpdate, commits: bool)
    requires Inv(s) && id in s.flags && s.flags[id].tenant == c.tenant
    ensures id in Part(s, c.tenant).flags
    ensures SameFor(UpdateFound(s, c, id, p, commits), UpdateFound(Part(s, c.tenant), c, id, p, commits), c.tenant)
  {
    hide Updated, Inv, FlagPatch, ConfigPatch, ConfigAllowed;
    PartRow(s, c.tenant, id, None);
    PartRow(s, c.tenant, id, p.environment);
    if Refusal(s, id, p).None? {
      UpdatedInPart(s, c, id, p);
      OwnedConfigs(s, id);
      UpdatedOwned(s, c, id, p);
      BodyInPart(Updated(s, c, id, p), c.tenant, id);
    }
  }

  /** A tenant's write does to its part of the store exactly what it would do were that part the whole
      store. `newId` must not collide with another tenant's flag. */
  lemma OwnWrite(s: Store, w: Write)
    requires Inv(s)
    requires w.CreateReq? && w.newId in s.flags ==> s.flags[w.newId].tenant == w.caller.tenant
    ensures SameFor(Handle(s, w), Handle(Part(s, w.caller.tenant), w), w.caller.tenant)
  {
    hide Inv, Part, HandleCreate, HandleArchive, UpdateFound;
    match w
    case CreateReq(c, path, p, newId, ok) => OwnCreate(s, c, path, p, newId, ok);
    case ArchiveReq(c, path, key, now, ok) => OwnArchive(s, c, path, key, now, ok);
    case UpdateReq(c, path, key, p, ok) =>
      PartLookup(s, c.tenant, key);
      if Lookup(s, c.tenant, key).Some? {
        OwnUpdate(s, c, Lookup(s, c.tenant, key).value, p, ok);
      }
  }

  lemma WriteScopeOutsidePart(s: Store, t: Uuid, c: Caller, id: Uuid, env: Option<Env>, p: Patch)
    requires HasRow(s, id, env) && c.tenant != t
    requires if env.None? then s.flags[id].tenant != t else s.configs[(id, env.value)].tenant != t
    ensures Part(WriteScope(s, c, id, env, p), t) == Part(s, t)
  {
    hide Apply, OldValues;
    if p != map[] {
      ApplyKeepsIdentity(Row(s, id, env), p);
      RecordsOfStep(s.log, UpdateRecord(s, c, id, env, p), t);
      assert Part(WriteScope(s, c, id, env, p), t).flags == Part(s, t).flags;
      assert Part(WriteScope(s, c, id, env, p), t).configs == Part(s, t).configs;
    }
  }

  lemma UpdatedOutsidePart(s: Store, t: Uuid, c: Caller, id: Uuid, p: FlagUpdate)
    requires Inv(s) && id in s.flags && s.flags[id].tenant == c.tenant != t
    requires p.environment.Some? ==> (id, p.environment.value) in s.configs
    ensures Part(Updated(s, c, id, p), t) == Part(s, t)
  {
    WriteScopeOutsidePart(s, t, c, id, None, FlagPatch(s, id, p));
    if p.environment.Some? {
      assert ConfigOk(s.flags[id], s.configs[(id, p.environment.value)]);
      var s1 := WriteScope(s, c, id, None, FlagPatch(s, id, p));
      WriteScopeOutsidePart(s1, t, c, id, p.environment, ConfigPatch(s, id, p));
    }
  }

  lemma CreatedOutsidePart(s: Store, t: Uuid, c: Caller, p: FlagCreate, newId: Uuid)
    requires Inv(s) && newId !in s.flags && c.tenant != t
    ensures Part(Created(s, c, p, newId), t) == Part(s, t)
  {
    hide SeedConfigs, RecordsOf;
    RecordsOfStep(s.log, CreatedRecord(c, newId, p), t);
    AddedOutsidePart(s.flags, Created(s, c, p, newId).flags, t, newId, NewFlag(c.tenant, p));
    assert forall e: Env :: (newId, e) !in s.configs;
    hide Inv;
    SeededOutsidePart(s.configs, t, newId, SeedConfig(c.tenant, p.ftype, p.defaultValue));
  }

  lemma AddedOutsidePart(flags: map<Uuid, Flag>, more: map<Uuid, Flag>, t: Uuid, newId: Uuid, f: Flag)
    requires newId !in flags && f.tenant != t && more == flags[newId := f]
    ensures FlagsOf(more, t) == FlagsOf(flags, t)
  {
  }

  lemma SeededOutsidePart(configs: map<(Uuid, Env), Config>, t: Uuid, id: Uuid, g: Config)
    requires g.tenant != t && forall e: Env :: (id, e) !in configs
    ensures ConfigsOf(configs + SeedConfigs(id, g), t) == ConfigsOf(configs, t)
  {
    hide SeedConfig;
    var m := configs + SeedConfigs(id, g);
    forall k | k in m ensures if k in configs then m[k] == configs[k] else m[k] == g {
      assert (k.0, k.1) == k;
    }
  }

  lemma ArchivedOutsidePart(s: Store, t: Uuid, c: Caller, id: Uuid, now: string)
    requires id in s.flags && s.flags[id].tenant == c.tenant != t
    ensures Part(Archived(s, c, id, now), t) == Part(s, t)
  {
    RecordsOfStep(s.log, ArchiveRecord(c, id, now), t);
    assert Part(Archived(s, c, id, now), t).flags == Part(s, t).flags;
  }

  /** A write by anyone else leaves a tenant's part as it was, even when its URL names that tenant. */
  lemma OthersWrite(s: Store, w: Write, t: Uuid)
    requires Inv(s) && w.caller.tenant != t
    ensures Part(Handle(s, w).store, t) == Part(s, t)
  {
    hide Inv, Part, Created, Archived, Updated;
    if Handle(s, w).committed {
      match w
      case CreateReq(c, path, p, newId, ok) => CreatedOutsidePart(s, t, c, p, newId);
      case ArchiveReq(c, path, key, now, ok) => ArchivedOutsidePart(s, t, c, Lookup(s, c.tenant, key).value, now);
      case UpdateReq(c, path, key, p, ok) => UpdatedOutsidePart(s, t, c, Lookup(s, c.tenant, key).value, p);
    }
  }

  // ----- Reads -----

  lemma CompileInPart(s: Store, k: CacheKey)
    requires Inv(s)
    ensures Compile(Part(s, k.tenant), k) == Compile(s, k)
  {
    forall id ensures Joins(s, k, id) <==> Joins(Part(s, k.tenant), k, id) {
      if Joins(s, k, id) {
        assert ConfigOk(s.flags[id], s.configs[(id, k.env)]);
      }
    }
    SameRowsSameSet(s, Part(s, k.tenant), k);
  }

  lemma {:induction false} HistoryInPart(log: seq<Record>, t: Uuid, id: Uuid, limit: nat)
    ensures History(RecordsOf(log, t), t, id, limit) == History(log, t, id, limit)
  {
    if log != [] && limit > 0 {
      var n := |log| - 1;
      var rest := RecordsOf(log[..n], t);
      if log[n].tenant == t {
        assert (rest + [log[n]])[..|rest|] == rest;
        HistoryInPart(log[..n], t, id, if About(log[n], t, id) then limit - 1 else limit);
      } else {
        assert rest + [] == rest;
        HistoryInPart(log[..n], t, id, limit);
      }
    }
  }

  lemma LoadInPart(ttl: nat, wd: World, k: CacheKey, now: int, hint: seq<Snapshot>,
                   getWorks: bool, setWorks: bool)
    requires Inv(wd.store)
    ensures
      var (rows, cache) := Load(ttl, wd.store, wd.cache, k, now, hint, getWorks, setWorks);
      var own := PartOf(wd, k.tenant);
      Load(ttl, own.store, own.cache, k, now, hint, getWorks, setWorks) == (rows, CacheOf(cache, k.tenant))
  {
    CompileInPart(wd.store, k);
    var rows := RowsOf(Compile(wd.store, k), hint);
    assert CacheOf(SetEntry(wd.cache, k, rows, now, ttl), k.tenant)
        == SetEntry(CacheOf(wd.cache, k.tenant), k, rows, now, ttl);
  }

  lemma LoadOutsidePart(ttl: nat, wd: World, k: CacheKey, now: int, hint: seq<Snapshot>,
                        getWorks: bool, setWorks: bool, t: Uuid)
    requires k.tenant != t
    ensures CacheOf(Load(ttl, wd.store, wd.cache, k, now, hint, getWorks, setWorks).1, t) == CacheOf(wd.cache, t)
  {
  }

  // ----- Whole requests -----

  /** One of a tenant's own requests: same answer, same effect, whether or not others exist. */
  lemma OwnRequest(p: Platform, ttl: nat, wd: World, q: Request)
    requires Inv(wd.store)
    requires q.WriteReq? && q.w.CreateReq? && q.w.newId in wd.store.flags ==>
               wd.store.flags[q.w.newId].tenant == q.w.caller.tenant
    ensures
      var t := CallerOf(q).tenant;
      var here, alone := Serve(p, ttl, wd, q), Serve(p, ttl, PartOf(wd, t), q);
      PartOf(here.0, t) == alone.0 && here.1 == alone.1
  {
    hide Inv, Handle, EvaluateRows, Compile;
    match q
    case WriteReq(w, delWorks) =>
      var t, dels := w.caller.tenant, Handle(wd.store, w).dels;
      OwnWrite(wd.store, w);
      assert CacheOf(DelKeys(wd.cache, dels), t) == DelKeys(CacheOf(wd.cache, t), dels);
    case EvalReq(c, bodyTenant, env, userId, ctx, keys, now, hint, getWorks, setWorks) =>
      LoadInPart(ttl, wd, CacheKey(c.tenant, env), now, hint, getWorks, setWorks);
    case HistoryReq(c, path, key, limit) =>
      PartLookup(wd.store, c.tenant, key);
      if Lookup(wd.store, c.tenant, key).Some? {
        HistoryInPart(wd.store.log, c.tenant, Lookup(wd.store, c.tenant, key).value, limit);
      }
  }

  lemma OthersRequest(p: Platform, ttl: nat, wd: World, q: Request, t: Uuid)
    requires Inv(wd.store) && CallerOf(q).tenant != t
    ensures PartOf(Serve(p, ttl, wd, q).0, t) == PartOf(wd, t)
  {
    match q
    case WriteReq(w, delWorks) =>
      OthersWrite(wd.store, w, t);
      forall k | k in Handle(wd.store, w).dels ensures k.tenant != t {
        InvalidationSuffices(wd.store, w, k);
      }
      assert CacheOf(DelKeys(wd.cache, Handle(wd.store, w).dels), t) == CacheOf(wd.cache, t);
    case EvalReq(c, bodyTenant, env, userId, ctx, keys, now, hint, getWorks, setWorks) =>
      LoadOutsidePart(ttl, wd, CacheKey(c.tenant, env), now, hint, getWorks, setWorks, t);
    case HistoryReq(c, path, key, limit) =>
  }

  // ----- Whole runs -----

  /** Drawn UUIDs do not collide across tenants. */
  ghost predicate IdsApart(qs: seq<Request>) {
    forall i, j :: 0 <= i < |qs| && 0 <= j < |qs| && Creates(qs[i]) && Creates(qs[j]) && qs[i].w.newId == qs[j].w.newId
                   ==> qs[i].w.caller.tenant == qs[j].w.caller.tenant
  }

  predicate Creates(q: Request) {
    q.WriteReq? && q.w.CreateReq?
  }

  ghost predicate CreatedBy(s: Store, qs: seq<Request>, id: Uuid) {
    exists i :: 0 <= i < |qs| && Creates(qs[i]) && qs[i].w.newId == id
                && id in s.flags && qs[i].w.caller.tenant == s.flags[id].tenant
  }

  /** Updates and archivals neither add flags nor move them between tenants. */
  lemma FlagsKeepOwner(s: Store, w: Write, id: Uuid)
    requires Inv(s) && id in Handle(s, w).store.flags
    ensures
      || (id in s.flags && s.flags[id].tenant == Handle(s, w).store.flags[id].tenant)
      || (w.CreateReq? && w.newId == id && w.caller.tenant == Handle(s, w).store.flags[id].tenant)
  {
    hide Inv, Lookup, ValidCreate, ValidUpdate, Refusal, Updated, Apply;
    if Handle(s, w).committed && w.UpdateReq? {
      var id' := CommittedId(s, w);
      ApplyKeepsIdentity(Row(s, id', None), FlagPatch(s, id', w.update));
      UpdatedRows(s, w.caller, id', w.update);
    }
  }

  lemma CommittedId(s: Store, w: Write) returns (id: Uuid)
    requires w.UpdateReq? && Handle(s, w).committed
    ensures id in s.flags && (w.update.environment.Some? ==> (id, w.update.environment.value) in s.configs)
    ensures Handle(s, w).store == Updated(s, w.caller, id, w.update)
  {
    id := Lookup(s, w.caller.tenant, w.key).value;
  }

  lemma {:induction false} PlayedFlags(p: Platform, ttl: nat, qs: seq<Request>)
    ensures Inv(Play(p, ttl, qs).store)
    ensures forall id :: id in Play(p, ttl, qs).store.flags ==> CreatedBy(Play(p, ttl, qs).store, qs, id)
  {
    hide Handle, Compile, EvaluateRows, Load, RowsOf, History, Lookup;
    if qs != [] {
      hide Inv;
      var n := |qs| - 1;
      PlayedFlags(p, ttl, qs[..n]);
      var before, after := Play(p, ttl, qs[..n]), Play(p, ttl, qs);
      ServeKeepsInv(p, ttl, before, qs[n]);
      forall id | id in after.store.flags ensures CreatedBy(after.store, qs, id) {
        if qs[n].WriteReq? {
          FlagsKeepOwner(before.store, qs[n].w, id);
        }
        if id in before.store.flags && before.store.flags[id].tenant == after.store.flags[id].tenant {
          var i :| 0 <= i < n && Creates(qs[..n][i]) && qs[..n][i].w.newId == id
                   && qs[..n][i].w.caller.tenant == before.store.flags[id].tenant;
          assert qs[i] == qs[..n][i];
        }
      }
    }
  }

  /** Deleting every request of the other tenants from a run changes nothing for tenant `t`: not its
      flags, configs, audit records or cache entries, and not one answer it gets. */
  lemma {:induction false} Noninterference(p: Platform, ttl: nat, qs: seq<Request>, t: Uuid)
    requires IdsApart(qs)
    ensures PartOf(Play(p, ttl, qs), t) == Play(p, ttl, Only(qs, t))
    ensures AnswersTo(p, ttl, qs, t) == AnswersTo(p, ttl, Only(qs, t), t)
  {
    hide Inv, Serve;
    if qs != [] {
      var n := |qs| - 1;
      var init, q := qs[..n], qs[n];
      assert IdsApart(init) by {
        assert forall i :: 0 <= i < n ==> init[i] == qs[i];
      }
      Noninterference(p, ttl, init, t);
      PlayedFlags(p, ttl, init);
      var wd := Play(p, ttl, init);
      if CallerOf(q).tenant == t {
        NoForeignId(wd.store, qs);
        OwnRequest(p, ttl, wd, q);
        assert (Only(init, t) + [q])[..|Only(init, t)|] == Only(init, t);
      } else {
        OthersRequest(p, ttl, wd, q, t);
        assert Only(init, t) + [] == Only(init, t);
        assert AnswersTo(p, ttl, init, t) + [] == AnswersTo(p, ttl, init, t);
      }
    } else {
      assert Part(EMPTY, t) == EMPTY;
    }
  }

  lemma NoForeignId(s: Store, qs: seq<Request>)
    requires qs != [] && IdsApart(qs)
    requires forall id :: id in s.flags ==> CreatedBy(s, qs[..|qs| - 1], id)
    ensures
      var q := qs[|qs| - 1];
      Creates(q) && q.w.newId in s.flags ==> s.flags[q.w.newId].tenant == q.w.caller.tenant
  {
    var n := |qs| - 1;
    var q := qs[n];
    if Creates(q) && q.w.newId in s.flags {
      var id := q.w.newId;
      var i :| 0 <= i < n && Creates(qs[..n][i]) && qs[..n][i].w.newId == id
               && qs[..n][i].w.caller.tenant == s.flags[id].tenant;
      assert qs[i] == qs[..n][i];
    }
  }
}
