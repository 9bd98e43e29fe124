/** Writers that overlap: each works out its changes, and the cache keys it will drop, from rows it read
    before others committed, and then commits over the store as it is by then. */
module Overlap {
  import opened Base
  import opened Engine
  import opened Store
  import opened Compiled

  /** A commit that leaves a well-formed store and changes the compiled sets only under keys it will drop. */
  ghost predicate Covers(before: Store, after: Store, dels: set<CacheKey>) {
    Inv(after) && forall k :: k !in dels ==> Compile(after, k) == Compile(before, k)
  }

  /** The store a commit would leave differs from the current one only under keys it owes a DEL for. */
  lemma CommitCovered(st: Store, w: Write)
    requires Inv(st)
    ensures Covers(st, Handle(st, w).store, Handle(st, w).dels)
  {
    HandleKeepsInv(st, w);
    forall k | k !in Handle(st, w).dels ensures Compile(Handle(st, w).store, k) == Compile(st, k) {
      InvalidationSuffices(st, w, k);
    }
  }

  /** One scope of a late update: the patch and its record come from `s0`, the rows it is applied to from `s`. */
  function WriteLate(s0: Store, s: Store, c: Caller, id: Uuid, env: Option<Env>, p: Patch): Store
    requires HasRow(s0, id, env) && HasRow(s, id, env)
  {
    if p == map[] then s
    else PutRow(s, id, env, Apply(Row(s, id, env), p)).(log := s.log + [UpdateRecord(s0, c, id, env, p)])
  }

  /** An update that read its rows from `s0` and commits over `s`. */
  function UpdatedLate(s0: Store, s: Store, c: Caller, id: Uuid, p: FlagUpdate): Store
    requires HasRow(s0, id, None) && HasRow(s, id, None)
    requires p.environment.Some? ==> HasRow(s0, id, p.environment) && HasRow(s, id, p.environment)
  {
    var s1 := WriteLate(s0, s, c, id, None, FlagPatch(s0, id, p));
    if p.environment.None? then s1 else WriteLate(s0, s1, c, id, p.environment, ConfigPatch(s0, id, p))
  }

  function DelsFor(s0: Store, c: Caller, id: Uuid, p: FlagUpdate): set<CacheKey>
    requires id in s0.flags
  {
    if FlagPatch(s0, id, p) != map[] || p.environment.None? then AllKeys(c.tenant)
    else {CacheKey(c.tenant, p.environment.value)}
  }

  lemma LogSwapped(t: Store, u: Store)
    requires Inv(t) && u.flags == t.flags && u.configs == t.configs && |u.log| == |t.log|
    requires forall i :: 0 <= i < |u.log| ==> u.log[i].flagId == t.log[i].flagId && u.log[i].tenant == t.log[i].tenant
    ensures Inv(u)
  {
    hide FlagOk, ConfigOk;
  }

  lemma WriteLateKeepsInv(s0: Store, s: Store, c: Caller, id: Uuid, env: Option<Env>, p: Patch)
    requires Inv(s) && HasRow(s0, id, env) && HasRow(s, id, env) && c.tenant == s.flags[id].tenant
    requires FitsAll(Row(s, id, env), p)
    requires DefaultField in p ==> HasType(AsValue(p[DefaultField]), s.flags[id].ftype)
    requires ValueField in p ==> HasType(AsValue(p[ValueField]), s.flags[id].ftype)
    requires RulesField in p ==> ValidRules(AsRules(p[RulesField]))
    requires env.Some? ==> ConfigAllowed(Apply(Row(s, id, env), p).config)
    ensures Inv(WriteLate(s0, s, c, id, env, p))
  {
    WriteScopeKeepsInv(s, c, id, env, p);
    hide Apply, FitsAll, ValidRules, HasType, ConfigAllowed, OldValues, Inv;
    LogSwapped(WriteScope(s, c, id, env, p), WriteLate(s0, s, c, id, env, p));
  }

  lemma FitsLater(x: Entity, y: Entity, p: Patch)
    requires SameIdentity(x, y) && FitsAll(x, p)
    ensures FitsAll(y, p)
  {
    forall k | k in p ensures Fits(y, k, p[k]) {
      assert Fits(x, k, p[k]);
    }
  }

  lemma LateScopeKeepsInv(s0: Store, s: Store, c: Caller, id: Uuid, env: Option<Env>, p: Patch)
    requires Inv(s) && HasRow(s0, id, env) && HasRow(s, id, env) && c.tenant == s.flags[id].tenant
    requires SameIdentity(Row(s0, id, env), Row(s, id, env)) && FitsAll(Row(s0, id, env), p)
    requires DefaultField in p ==> HasType(AsValue(p[DefaultField]), s.flags[id].ftype)
    requires ValueField in p ==> HasType(AsValue(p[ValueField]), s.flags[id].ftype)
    requires RulesField in p ==> ValidRules(AsRules(p[RulesField]))
    requires env.Some? ==> ConfigAllowed(WriteLate(s0, s, c, id, env, p).configs[(id, env.value)])
    ensures Inv(WriteLate(s0, s, c, id, env, p))
    ensures
      var s' := WriteLate(s0, s, c, id, env, p);
      env.None? ==> s'.configs == s.configs && HasRow(s', id, None)
                    && s'.flags[id].tenant == s.flags[id].tenant && s'.flags[id].ftype == s.flags[id].ftype
  {
    hide FitsAll, Inv, HasType, ValidRules, ConfigAllowed, Apply;
    FitsLater(Row(s0, id, env), Row(s, id, env), p);
    ApplyKeepsIdentity(Row(s, id, env), p);
    if p != map[] {
      WriteLateKeepsInv(s0, s, c, id, env, p);
    }
  }

  lemma LateUpdateKeepsInv(s0: Store, s: Store, c: Caller, id: Uuid, p: FlagUpdate)
    requires Inv(s0) && Inv(s) && id in s0.flags && id in s.flags && ValidUpdate(p)
    requires SameIdentity(Row(s0, id, None), Row(s, id, None)) && s.flags[id].tenant == c.tenant
    requires Refusal(s0, id, p).None?
    requires p.environment.Some? ==> ConfigAllowed(UpdatedLate(s0, s, c, id, p).configs[(id, p.environment.value)])
    ensures Inv(UpdatedLate(s0, s, c, id, p))
  {
    var fp, cp := FlagPatch(s0, id, p), ConfigPatch(s0, id, p);
    PatchesFit(s0, id, p);
    PatchTypes(s0, id, p);
    hide FlagPatch, ConfigPatch, Inv, ValidUpdate, ValidRules, FitsAll, HasType, WriteLate, ConfigAllowed;
    hide Refusal, SlotHasType, AsRules, AsValue;
    LateScopeKeepsInv(s0, s, c, id, None, fp);
    if p.environment.Some? {
      ConfigsShareIdentity(s0, s, id, p.environment.value);
      LateScopeKeepsInv(s0, WriteLate(s0, s, c, id, None, fp), c, id, p.environment, cp);
    }
  }

  /** An update that read its rows before others committed still drops every key whose set it changes: what
      it writes, and which keys it drops, both come from the one comparison it made. */
  lemma LateUpdateCovers(s0: Store, s: Store, c: Caller, id: Uuid, p: FlagUpdate)
    requires Inv(s0) && Inv(s) && id in s0.flags && id in s.flags && ValidUpdate(p)
    requires SameIdentity(Row(s0, id, None), Row(s, id, None)) && s.flags[id].tenant == c.tenant
    requires Refusal(s0, id, p).None?
    requires p.environment.Some? ==> ConfigAllowed(UpdatedLate(s0, s, c, id, p).configs[(id, p.environment.value)])
    ensures Covers(s, UpdatedLate(s0, s, c, id, p), DelsFor(s0, c, id, p))
  {
    LateUpdateKeepsInv(s0, s, c, id, p);
    var s2 := UpdatedLate(s0, s, c, id, p);
    hide Compile, ConfigAllowed, ValidUpdate, UpdatedLate, DelsFor;
    forall k | k !in DelsFor(s0, c, id, p) ensures Compile(s2, k) == Compile(s, k) {
      LateSetUnchanged(s0, s, c, id, p, k);
    }
  }

  lemma ConfigsShareIdentity(s0: Store, s: Store, id: Uuid, e: Env)
    requires Inv(s0) && Inv(s) && id in s0.flags && id in s.flags && s0.flags[id].tenant == s.flags[id].tenant
    ensures HasRow(s0, id, Some(e)) && HasRow(s, id, Some(e))
    ensures SameIdentity(Row(s0, id, Some(e)), Row(s, id, Some(e)))
  {
    assert ConfigOk(s0.flags[id], s0.configs[(id, e)]);
    assert ConfigOk(s.flags[id], s.configs[(id, e)]);
  }

  lemma LateSetUnchanged(s0: Store, s: Store, c: Caller, id: Uuid, p: FlagUpdate, k: CacheKey)
    requires Inv(s) && HasRow(s0, id, None) && HasRow(s, id, None) && s.flags[id].tenant == c.tenant
    requires p.environment.Some? ==> HasRow(s0, id, p.environment) && HasRow(s, id, p.environment)
    requires k !in DelsFor(s0, c, id, p)
    ensures Compile(UpdatedLate(s0, s, c, id, p), k) == Compile(s, k)
  {
    hide Compile, Apply, FlagPatch, ConfigPatch, OldValues;
    AllKeysCover(k);
    ApplyKeepsIdentity(Row(s, id, None), FlagPatch(s0, id, p));
    ApplyNothing(Row(s, id, None));
    SameRowsSameSet(s, UpdatedLate(s0, s, c, id, p), k);
  }

  lemma WriteLateKeepsRest(s0: Store, s: Store, c: Caller, id: Uuid, env: Option<Env>, p: Patch, k: Field)
    requires HasRow(s0, id, env) && HasRow(s, id, env)
    requires SameIdentity(Row(s0, id, env), Row(s, id, env)) && FitsAll(Row(s0, id, env), p)
    ensures
      var s' := WriteLate(s0, s, c, id, env, p);
      && HasRow(s', id, env) && Get(Row(s', id, env), k) == At(p, k, Get(Row(s, id, env), k))
      && (if env.None? then s'.configs == s.configs && s'.flags == s.flags[id := s'.flags[id]]
          else s'.flags == s.flags && s'.configs == s.configs[(id, env.value) := s'.configs[(id, env.value)]])
  {
    FitsLater(Row(s0, id, env), Row(s, id, env), p);
    ApplyGet(Row(s, id, env), p, k);
    ApplyKeepsIdentity(Row(s, id, env), p);
    hide Apply, FitsAll, Get, OldValues;
  }

  /** A late update moves the attributes of its patches, each to the value sent, and leaves every other
      attribute and every other row as the store has them by then, whatever the writer had read. */
  lemma LateUpdateKeepsRest(s0: Store, s: Store, c: Caller, id: Uuid, p: FlagUpdate, k: Field)
    requires Inv(s0) && Inv(s) && id in s0.flags && id in s.flags
    requires SameIdentity(Row(s0, id, None), Row(s, id, None))
    ensures HasRow(s0, id, p.environment) && HasRow(s, id, p.environment)
    ensures
      var s' := UpdatedLate(s0, s, c, id, p);
      && HasRow(s', id, None) && HasRow(s', id, p.environment)
      && Get(Row(s', id, None), k) == At(FlagPatch(s0, id, p), k, Get(Row(s, id, None), k))
      && (p.environment.Some? ==>
            Get(Row(s', id, p.environment), k) == At(ConfigPatch(s0, id, p), k, Get(Row(s, id, p.environment), k)))
      && s'.flags == s.flags[id := s'.flags[id]]
      && s'.configs == (if p.environment.None? then s.configs
                        else s.configs[(id, p.environment.value) := s'.configs[(id, p.environment.value)]])
  {
    if p.environment.Some? {
      ConfigsShareIdentity(s0, s, id, p.environment.value);
    }
    PatchesFit(s0, id, p);
    hide FlagPatch, ConfigPatch, WriteLate, FitsAll, Get, Inv, SameIdentity;
    WriteLateKeepsRest(s0, s, c, id, None, FlagPatch(s0, id, p), k);
    if p.environment.Some? {
      var s1 := WriteLate(s0, s, c, id, None, FlagPatch(s0, id, p));
      assert Row(s1, id, p.environment) == Row(s, id, p.environment);
      WriteLateKeepsRest(s0, s1, c, id, p.environment, ConfigPatch(s0, id, p), k);
    }
  }

  // ----- Whole requests -----

  /** Every flag of `s0` is still in `s`, with the tenant, key and type it had. */
  ghost predicate Descends(s0: Store, s: Store) {
    forall id :: id in s0.flags ==> id in s.flags && SameIdentity(FlagRow(s0.flags[id]), FlagRow(s.flags[id]))
  }

  /** A request that read its rows from `seen` and commits over `s`. A creation reads none. */
  ghost function HandleLate(seen: Store, s: Store, w: Write): Outcome
    requires Inv(seen) && Inv(s) && Descends(seen, s)
  {
    match w
    case CreateReq(_, _, _, _, _) => Handle(s, w)
    case UpdateReq(c, path, key, p, ok) =>
      if path != c.tenant then Rejected(s, 404)
      else if !ValidUpdate(p) then Rejected(s, 422)
      else if Lookup(seen, c.tenant, key).None? then Rejected(s, 404)
      else UpdateFoundLate(seen, s, c, Lookup(seen, c.tenant, key).value, p, ok)
    case ArchiveReq(c, path, key, now, ok) =>
      if path != c.tenant || Lookup(seen, c.tenant, key).None? then Rejected(s, 404)
      else
        var id := Lookup(seen, c.tenant, key).value;
        if seen.flags[id].archivedAt.Some? then Outcome(s, BodyOf(s, id), false, {})
        else if !ok then Rejected(s, 500)
        else Outcome(Archived(s, c, id, now), BodyOf(Archived(s, c, id, now), id), true, AllKeys(c.tenant))
  }

  ghost function UpdateFoundLate(seen: Store, s: Store, c: Caller, id: Uuid, p: FlagUpdate, commits: bool): Outcome
    requires Inv(seen) && Inv(s) && Descends(seen, s) && id in seen.flags
  {
    if Refusal(seen, id, p).Some? then Rejected(s, Refusal(seen, id, p).value)
    else
      var s' := UpdatedLate(seen, s, c, id, p);
      if !commits || (p.environment.Some? && !ConfigAllowed(s'.configs[(id, p.environment.value)])) then
        Rejected(s, 500)
      else Outcome(s', BodyOf(s', id), true, DelsFor(seen, c, id, p))
  }

  lemma UpdatedLateIsUpdated(s: Store, c: Caller, id: Uuid, p: FlagUpdate)
    requires id in s.flags && (p.environment.Some? ==> (id, p.environment.value) in s.configs)
    ensures UpdatedLate(s, s, c, id, p) == Updated(s, c, id, p)
  {
    hide Apply, FlagPatch, ConfigPatch;
    var s1 := WriteScope(s, c, id, None, FlagPatch(s, id, p));
    assert p.environment.Some? ==> Row(s1, id, p.environment) == Row(s, id, p.environment);
  }

  /** A late writer that missed nothing is an ordinary one. */
  lemma LateIsOrdinaryWhenCurrent(s: Store, w: Write)
    requires Inv(s)
    ensures Descends(s, s) && HandleLate(s, s, w) == Handle(s, w)
  {
    hide Updated, UpdatedLate, FlagPatch, ConfigPatch;
    if w.UpdateReq? && Lookup(s, w.caller.tenant, w.key).Some? {
      var id := Lookup(s, w.caller.tenant, w.key).value;
      if Refusal(s, id, w.update).None? {
        UpdatedLateIsUpdated(s, w.caller, id, w.update);
      }
    }
  }

  lemma ArchivalCovers(s: Store, c: Caller, id: Uuid, now: string)
    requires Inv(s) && id in s.flags && s.flags[id].tenant == c.tenant
    ensures Covers(s, Archived(s, c, id, now), AllKeys(c.tenant)) && Descends(s, Archived(s, c, id, now))
  {
    var s' := Archived(s, c, id, now);
    ArchivedKeepsInv(s, c, id, now);
    forall k | k !in AllKeys(c.tenant) ensures Compile(s', k) == Compile(s, k) {
      AllKeysCover(k);
      SameRowsSameSet(s, s', k);
    }
  }

  lemma LateUpdateDescends(s0: Store, s: Store, c: Caller, id: Uuid, p: FlagUpdate)
    requires HasRow(s0, id, None) && HasRow(s, id, None)
    requires p.environment.Some? ==> HasRow(s0, id, p.environment) && HasRow(s, id, p.environment)
    ensures Descends(s, UpdatedLate(s0, s, c, id, p))
  {
    hide Apply, FlagPatch, ConfigPatch, OldValues;
    ApplyKeepsIdentity(Row(s, id, None), FlagPatch(s0, id, p));
  }

  lemma DescendsItself(s: Store)
    ensures Descends(s, s)
  {
  }

  lemma CreationDescends(s: Store, c: Caller, p: FlagCreate, newId: Uuid)
    requires newId !in s.flags
    ensures Descends(s, Created(s, c, p, newId))
  {
  }

  lemma HandleDescends(s: Store, w: Write)
    requires Inv(s)
    ensures Descends(s, Handle(s, w).store)
  {
    hide Updated, Created, Archived, FlagPatch, ConfigPatch, ValidCreate, ValidUpdate, BodyOf, Compile, Covers;
    DescendsItself(s);
    hide Descends, Inv;
    if Handle(s, w).committed {
      match w
      case CreateReq(c, _, p, newId, _) => CreationDescends(s, c, p, newId);
      case UpdateReq(c, _, key, p, _) =>
        var id := Lookup(s, c.tenant, key).value;
        UpdatedLateIsUpdated(s, c, id, p);
        LateUpdateDescends(s, s, c, id, p);
      case ArchiveReq(c, _, key, now, _) => ArchivalCovers(s, c, Lookup(s, c.tenant, key).value, now);
    }
  }

  lemma UpdateFoundLateCovers(seen: Store, s: Store, c: Caller, id: Uuid, p: FlagUpdate, commits: bool)
    requires Inv(seen) && Inv(s) && Descends(seen, s) && id in seen.flags && ValidUpdate(p)
    requires seen.flags[id].tenant == c.tenant
    ensures
      var o := UpdateFoundLate(seen, s, c, id, p, commits);
      Covers(s, o.store, o.dels) && Descends(s, o.store)
  {
    hide UpdatedLate, DelsFor, Compile, ConfigAllowed, ValidUpdate;
    if UpdateFoundLate(seen, s, c, id, p, commits).committed {
      LateUpdateCovers(seen, s, c, id, p);
      LateUpdateDescends(seen, s, c, id, p);
    }
  }

  /** Whatever a writer read, as long as what it read are forebears of the rows it writes: its commit keeps the
      store invariant, changes compiled sets only under keys it drops, and every flag keeps its identity. Two
      archivals of one flag that both found it active are among these. */
  lemma LateCovers(seen: Store, s: Store, w: Write)
    requires Inv(seen) && Inv(s) && Descends(seen, s)
    ensures
      var o := HandleLate(seen, s, w);
      Covers(s, o.store, o.dels) && Descends(s, o.store)
  {
    hide Inv, UpdateFoundLate, Compile;
    match w
    case CreateReq(_, _, _, _, _) =>
      CommitCovered(s, w);
      HandleDescends(s, w);
    case UpdateReq(c, path, key, p, ok) =>
      if ValidUpdate(p) && Lookup(seen, c.tenant, key).Some? {
        UpdateFoundLateCovers(seen, s, c, Lookup(seen, c.tenant, key).value, p, ok);
      }
    case ArchiveReq(c, path, key, now, ok) =>
      if Lookup(seen, c.tenant, key).Some? {
        ArchivalCovers(s, c, Lookup(seen, c.tenant, key).value, now);
      }
  }

  /** A late archival goes by what its writer saw: of two that both found the flag active, both commit, the later
      one replaces the time of archiving, and the log gets a second record of it. */
  lemma BothArchivalsCommit(seen: Store, s: Store, c: Caller, key: string, now: string, id: Uuid)
    requires Inv(seen) && Inv(s) && Descends(seen, s) && IsRow(seen, c.tenant, key, id)
    ensures
      var o := HandleLate(seen, s, ArchiveReq(c, c.tenant, key, now, true));
      && (o.committed <==> seen.flags[id].archivedAt.None?)
      && (o.committed ==>
            && id in s.flags && o.store.flags == s.flags[id := s.flags[id].(archivedAt := Some(now))]
            && |o.store.log| == |s.log| + 1 && o.store.log[|s.log|].action == FlagArchived)
  {
    LookupIs(seen, c.tenant, key, id);
    hide Inv;
  }
}
