/** The endpoints as they run. A write works on a session over the committed database, commits it or
    rolls it back, and then drops cache keys; an evaluation reads through the cache. Each endpoint does
    to database and cache, and answers, exactly what `Requests.Serve` says. */
module Service {
  import opened Base
  import opened Engine
  import opened Store
  import opened Compiled
  import opened FlagCache
  import opened Audit
  import opened Requests

  class FlagService {
    const platform: Platform
    const cache: Cache
    /** The committed database, and the current transaction's view of it. */
    var committed: Store
    var session: Store

    ghost predicate Valid()
      reads this
    {
      session == committed && Inv(committed)
    }

    /** What outlives a request. */
    ghost function Now(): World
      reads this, cache
    {
      World(committed, cache.entries)
    }

    constructor (platform: Platform, ttl: nat)
      ensures Valid() && Now() == World(EMPTY, map[])
      ensures fresh(cache) && cache.ttl == ttl && this.platform == platform
    {
      this.platform := platform;
      cache := new Cache(ttl);
      committed, session := EMPTY, EMPTY;
    }

    method Rollback()
      modifies this`session
      ensures session == committed
    {
      session := committed;
    }

    /** Commits the session unless the database turns it down, for a check constraint or for any
        reason of its own (`accepts` is false). */
    method Commit(accepts: bool) returns (ok: bool)
      modifies this`committed
      ensures ok <==> accepts && forall k :: k in session.configs ==> ConfigAllowed(session.configs[k])
      ensures committed == if ok then session else old(committed)
    {
      ok := accepts && forall k | k in session.configs :: ConfigAllowed(session.configs[k]);
      if ok {
        committed := session;
      }
    }

    /** `_get_flag_or_404`: None is the 404. */
    method FindFlag(tenant: Uuid, key: string) returns (id: Option<Uuid>)
      requires Inv(session)
      ensures id == Lookup(session, tenant, key)
    {
      var found := set i | i in session.flags && session.flags[i].tenant == tenant && session.flags[i].key == key;
      if found == {} {
        id := None;
        forall i ensures !IsRow(session, tenant, key, i) {
          assert i !in found;
        }
      } else {
        var i :| i in found;
        id := Some(i);
        LookupIs(session, tenant, key, i);
      }
    }

    method CreateFlag(c: Caller, path: Uuid, p: FlagCreate, newId: Uuid, accepts: bool, delWorks: bool)
      returns (r: Response)
      requires Valid()
      modifies this, cache
      ensures Valid()
      ensures
        var q := WriteReq(CreateReq(c, path, p, newId, accepts), delWorks);
        (Now(), Written(r)) == Serve(platform, cache.ttl, old(Now()), q)
    {
      NothingDropped(cache.entries);
      if path != c.tenant { return Fail(404); }
      if !ValidCreate(p) { return Fail(422); }
      var taken := FindFlag(c.tenant, p.key);
      if newId in session.flags || taken.Some? {
        Rollback();
        return Fail(409);
      }
      session := session.(flags := session.flags[newId := NewFlag(c.tenant, p)]);
      var seed := SeedConfig(c.tenant, p.ftype, p.defaultValue);
      SeedAll(newId, seed);
      session := session.(log := session.log + [CreatedRecord(c, newId, p)]);
      assert session == Created(committed, c, p, newId);
      CreatedKeepsInv(committed, c, p, newId);
      AllAllowed(session);
      var ok := Commit(accepts);
      if !ok {
        Rollback();
        return Fail(500);
      }
      r := BodyOf(committed, newId);
      cache.Invalidate(c.tenant, None, delWorks);
    }

    /** Adds one config row per environment. */
    method SeedAll(id: Uuid, seed: Config)
      modifies this`session
      ensures session == old(session).(configs := old(session).configs + SeedConfigs(id, seed))
    {
      ghost var base := session.configs;
      for i := 0 to |ENVS|
        invariant session.flags == old(session).flags && session.log == old(session).log
        invariant forall j, e: Env :: (j, e) in session.configs <==> (j, e) in base || (j == id && e in ENVS[..i])
        invariant forall j, e: Env :: (j, e) in session.configs ==>
          session.configs[(j, e)] == if j == id && e in ENVS[..i] then seed else base[(j, e)]
      {
        session := session.(configs := session.configs[(id, ENVS[i]) := seed]);
        assert ENVS[..i + 1] == ENVS[..i] + [ENVS[i]];
      }
      assert ENVS[..|ENVS|] == ENVS;
      forall e: Env ensures e in ENVS { EveryEnvListed(e); }
      forall k ensures k in session.configs <==> k in base + SeedConfigs(id, seed) { assert (k.0, k.1) == k; }
      forall k | k in session.configs ensures session.configs[k] == (base + SeedConfigs(id, seed))[k] {
        assert (k.0, k.1) == k;
      }
      assert session.configs == base + SeedConfigs(id, seed);
    }

    method UpdateFlag(c: Caller, path: Uuid, key: string, p: FlagUpdate, accepts: bool, delWorks: bool)
      returns (r: Response)
      requires Valid()
      modifies this, cache
      ensures Valid()
      ensures
        var q := WriteReq(UpdateReq(c, path, key, p, accepts), delWorks);
        (Now(), Written(r)) == Serve(platform, cache.ttl, old(Now()), q)
    {
      NothingDropped(cache.entries);
      if path != c.tenant { return Fail(404); }
      if !ValidUpdate(p) { return Fail(422); }
      var found := FindFlag(c.tenant, key);
      if found.None? { return Fail(404); }
      var id := found.value;
      ghost var s := committed;

      var refusal, flagChanges := ApplyUpdate(c, id, p);
      if refusal.Some? {
        Rollback();
        return Fail(refusal.value);
      }
      OtherConfigsAllowed(s, c, id, p);
      var ok := Commit(accepts);
      if !ok {
        Rollback();
        return Fail(500);
      }
      UpdatedKeepsInv(s, c, id, p);
      r := BodyOf(committed, id);
      cache.Invalidate(c.tenant, if flagChanges != map[] then None else p.environment, delWorks);
    }

    /** The body of `update_flag` between finding the flag and committing. A refusal may come after
        the session has already been written to. */
    method ApplyUpdate(c: Caller, id: Uuid, p: FlagUpdate) returns (refusal: Option<int>, flagChanges: Patch)
      requires id in session.flags
      modifies this`session
      ensures refusal == Refusal(old(session), id, p)
      ensures refusal.None? ==>
        session == Updated(old(session), c, id, p) && flagChanges == FlagPatch(old(session), id, p)
    {
      ghost var s := session;
      var ok, changes := FlagLevelChanges(p, session.flags[id].ftype);
      if !ok { return Some(422), map[]; }
      flagChanges := WriteChanges(c, id, None, changes);
      if p.environment.Some? {
        if (id, p.environment.value) !in session.configs { return Some(404), flagChanges; }
        ok, changes := ConfigLevelChanges(p, session.flags[id].ftype);
        if !ok { return Some(422), flagChanges; }
        assert Row(session, id, p.environment) == Row(s, id, p.environment);
        var _ := WriteChanges(c, id, p.environment, changes);
      }
      refusal := None;
    }

    /** Drops what did not change; if anything is left, sets it on the row and adds its record. */
    method WriteChanges(c: Caller, id: Uuid, env: Option<Env>, changes: Patch) returns (kept: Patch)
      requires HasRow(session, id, env)
      requires FitsAll(Row(session, id, env), changes)
      modifies this`session
      ensures kept == DropUnchanged(Row(old(session), id, env), changes)
      ensures session == WriteScope(old(session), c, id, env, kept)
    {
      var row := Row(session, id, env);
      kept := DropUnchanged(row, changes);
      if kept != map[] {
        var record := UpdateRecord(session, c, id, env, kept);
        var row' := SetAttrs(row, kept);
        session := PutRow(session, id, env, row').(log := session.log + [record]);
      }
    }

    method ArchiveFlag(c: Caller, path: Uuid, key: string, now: string, accepts: bool, delWorks: bool)
      returns (r: Response)
      requires Valid()
      modifies this, cache
      ensures Valid()
      ensures
        var q := WriteReq(ArchiveReq(c, path, key, now, accepts), delWorks);
        (Now(), Written(r)) == Serve(platform, cache.ttl, old(Now()), q)
    {
      NothingDropped(cache.entries);
      if path != c.tenant { return Fail(404); }
      var found := FindFlag(c.tenant, key);
      if found.None? { return Fail(404); }
      var id := found.value;
      if session.flags[id].archivedAt.None? {
        session := session.(flags := session.flags[id := session.flags[id].(archivedAt := Some(now))]);
        session := session.(log := session.log + [ArchiveRecord(c, id, now)]);
        assert session == Archived(committed, c, id, now);
        ArchivedKeepsInv(committed, c, id, now);
        AllAllowed(session);
        var ok := Commit(accepts);
        if !ok {
          Rollback();
          return Fail(500);
        }
        cache.Invalidate(c.tenant, None, delWorks);
      }
      r := BodyOf(committed, id);
    }

    /** `evaluate_flags`, and `evaluate_bulk` when `keys` is None; `rows` is what the query would return. */
    method Evaluate(c: Caller, bodyTenant: Uuid, env: Env, userId: string, ctx: Context, keys: Option<seq<string>>,
                    now: int, rows: seq<Snapshot>, getWorks: bool, decodes: bool, setWorks: bool)
      returns (a: Answer)
      requires Valid() && Lists(rows, Compile(committed, CacheKey(c.tenant, env)))
      modifies cache
      ensures Valid()
      ensures
        var q := EvalReq(c, bodyTenant, env, userId, ctx, keys, now, rows, getWorks && decodes, setWorks);
        (Now(), a) == Serve(platform, cache.ttl, old(Now()), q)
    {
      if bodyTenant != c.tenant { return Denied(403); }
      var snapshots := cache.LoadFlagSet(committed, CacheKey(c.tenant, env), now, rows, getWorks, decodes, setWorks);
      var results := EvaluateAll(platform, Select(snapshots, keys), userId, ctx);
      a := Flags(Collect(results));
    }

    method FlagHistory(c: Caller, path: Uuid, key: string, limit: nat) returns (a: Answer)
      requires Valid()
      ensures (Now(), a) == Serve(platform, cache.ttl, Now(), HistoryReq(c, path, key, limit))
    {
      if path != c.tenant { return Denied(404); }
      if limit < 1 || limit > 200 { return Denied(422); }
      var found := FindFlag(c.tenant, key);
      if found.None? { return Denied(404); }
      a := Records(History(session.log, c.tenant, found.value, limit));
    }
  }

  /** The flag-scoped changes a payload asks for; not ok is the 422. */
  method FlagLevelChanges(p: FlagUpdate, t: FlagType) returns (ok: bool, changes: Patch)
    ensures ok <==> SlotHasType(p.defaultValue, t)
    ensures ok ==> changes == Changes(p, FLAG_FIELDS)
  {
    changes := map[];
    if p.name.Given? { changes := changes[NameField := Scalar(Str(p.name.v))]; }
    if !p.description.Unset? {
      changes := changes[DescriptionField := if p.description.Nulled? then Null else Scalar(Str(p.description.v))];
    }
    if !p.defaultValue.Unset? {
      if !SlotHasType(p.defaultValue, t) { return false, changes; }
      changes := changes[DefaultField := Scalar(p.defaultValue.v)];
    }
    ok := true;
  }

  /** The environment-scoped changes a payload asks for; not ok is the 422. */
  method ConfigLevelChanges(p: FlagUpdate, t: FlagType) returns (ok: bool, changes: Patch)
    ensures ok <==> SlotHasType(p.value, t)
    ensures ok ==> changes == Changes(p, CONFIG_FIELDS)
  {
    changes := map[];
    if p.enabled.Given? { changes := changes[EnabledField := Scalar(Bool(p.enabled.v))]; }
    if p.rollout.Given? { changes := changes[RolloutField := Scalar(Int(p.rollout.v))]; }
    if p.rules.Given? { changes := changes[RulesField := RuleList(p.rules.v)]; }
    if !p.value.Unset? {
      if !SlotHasType(p.value, t) { return false, changes; }
      changes := changes[ValueField := Scalar(p.value.v)];
    }
    ok := true;
  }

  lemma EveryEnvListed(e: Env)
    ensures e in ENVS
  {
    assert ENVS[0] == Development && ENVS[1] == Staging && ENVS[2] == Production;
  }

  lemma AllAllowed(s: Store)
    requires Inv(s)
    ensures forall k :: k in s.configs ==> ConfigAllowed(s.configs[k])
  {
    forall k | k in s.configs ensures ConfigAllowed(s.configs[k]) {
      assert (k.0, k.1) == k;
      assert ConfigOk(s.flags[k.0], s.configs[(k.0, k.1)]);
    }
  }

  /** Only the config row an update writes can break a check constraint. */
  lemma OtherConfigsAllowed(s: Store, c: Caller, id: Uuid, p: FlagUpdate)
    requires Inv(s) && id in s.flags
    requires p.environment.Some? ==> (id, p.environment.value) in s.configs
    ensures
      var s' := Updated(s, c, id, p);
      (forall k :: k in s'.configs ==> ConfigAllowed(s'.configs[k])) <==>
        (p.environment.Some? ==> ConfigAllowed(s'.configs[(id, p.environment.value)]))
  {
    AllAllowed(s);
    UpdatedRows(s, c, id, p);
  }

  /** The row when all changed attributes but those in `todo` have been set. */
  ghost predicate Halfway(e: Entity, e': Entity, changes: Patch, todo: set<Field>) {
    && SameIdentity(e, e')
    && forall k :: Get(e', k) == if k in changes && k !in todo then changes[k] else Get(e, k)
  }

  lemma HalfwayStep(e: Entity, e': Entity, changes: Patch, todo: set<Field>, k: Field)
    requires FitsAll(e, changes) && Halfway(e, e', changes, todo) && k in todo && k in changes
    ensures Halfway(e, SetAttr(e', k, changes[k]), changes, todo - {k})
  {
    hide SetAttr, Get;
    assert Fits(e', k, changes[k]) by { assert Fits(e, k, changes[k]); }
    SetGet(e', k, changes[k]);
  }

  lemma HalfwayDone(e: Entity, e': Entity, changes: Patch)
    requires FitsAll(e, changes) && Halfway(e, e', changes, {})
    ensures e' == Apply(e, changes)
  {
    hide Apply, Get;
    forall k ensures Get(e', k) == Get(Apply(e, changes), k) {
      ApplyGet(e, changes, k);
    }
    ApplyKeepsIdentity(e, changes);
    RowsEqual(e', Apply(e, changes));
  }

  /** `for k, v in changes.items(): setattr(row, k, v)`, in whatever order the dict yields. */
  method SetAttrs(e: Entity, changes: Patch) returns (e': Entity)
    requires FitsAll(e, changes)
    ensures e' == Apply(e, changes)
  {
    hide Apply, SetAttr, Get, FitsAll;
    e' := e;
    var todo := changes.Keys;
    while todo != {}
      invariant todo <= changes.Keys && Halfway(e, e', changes, todo)
      decreases todo
    {
      var k :| k in todo;
      HalfwayStep(e, e', changes, todo, k);
      e' := SetAttr(e', k, changes[k]);
      todo := todo - {k};
    }
    HalfwayDone(e, e', changes);
  }

  lemma SetGet(e: Entity, k: Field, d: Datum)
    requires Fits(e, k, d)
    ensures forall j :: Get(SetAttr(e, k, d), j) == if j == k then d else Get(e, j)
    ensures SameIdentity(e, SetAttr(e, k, d))
  {
  }
}
