/** What an update leaves behind: how the stored value relates to the value sent, that repeating
    a PUT is a no-op, which records it writes, and how a percentage ramp moves users. */
module Updates {
  import opened Base
  import opened Engine
  import opened Store
  import opened Compiled
  import opened Targeting

  // ----- Stored against sent -----

  lemma AppliedVersusSent(e: Entity, changes: Patch, k: Field)
    requires FitsAll(e, DropUnchanged(e, changes)) && k in changes
    ensures
      var after := Get(Apply(e, DropUnchanged(e, changes)), k);
      && PyEqDatum(after, changes[k])
      && (after == changes[k] <==> Get(e, k) == changes[k] || !PyEqDatum(Get(e, k), changes[k]))
  {
    ApplyGet(e, DropUnchanged(e, changes), k);
    PyEqIsEquivalence(changes[k], changes[k], changes[k]);
  }

  /** The stored value of one attribute, null where there is no such row. */
  function Stored(s: Store, id: Uuid, env: Option<Env>, k: Field): Datum {
    if HasRow(s, id, env) then Get(Row(s, id, env), k) else Null
  }

  /** Whether a payload asks for a value in attribute `k` of the flag's row, or of its config in `env`. */
  predicate AsksFor(p: FlagUpdate, k: Field, env: Option<Env>) {
    if env.None? then k in Changes(p, FLAG_FIELDS) else env == p.environment && k in Changes(p, CONFIG_FIELDS)
  }

  lemma UpdatedVersusSent(s: Store, c: Caller, id: Uuid, p: FlagUpdate, k: Field, env: Option<Env>)
    requires id in s.flags && (p.environment.Some? ==> (id, p.environment.value) in s.configs)
    requires AsksFor(p, k, env)
    ensures
      var before, after := Stored(s, id, env, k), Stored(Updated(s, c, id, p), id, env, k);
      && Sent(p, k).Some? && PyEqDatum(after, Sent(p, k).value)
      && (after == Sent(p, k).value <==> before == Sent(p, k).value || !PyEqDatum(before, Sent(p, k).value))
  {
    UpdatedRows(s, c, id, p);
    PatchesFit(s, id, p);
    AppliedVersusSent(Row(s, id, env), Changes(p, if env.None? then FLAG_FIELDS else CONFIG_FIELDS), k);
  }

  lemma CommittedUpdate(s: Store, c: Caller, path: Uuid, key: string, p: FlagUpdate, commits: bool) returns (id: Uuid)
    requires HandleUpdate(s, c, path, key, p, commits).committed
    ensures IsRow(s, c.tenant, key, id) && (p.environment.Some? ==> (id, p.environment.value) in s.configs)
    ensures HandleUpdate(s, c, path, key, p, commits).store == Updated(s, c, id, p)
  {
    id := Lookup(s, c.tenant, key).value;
  }

  /** After a successful PUT every sent attribute is stored as a value Python calls equal. It is the
      value sent, to the letter, exactly when the old value was that already or Python told the two
      apart: a change between equal spellings (1 and True, 1 and 1.0) is dropped without a trace. */
  lemma StoredVersusSent(s: Store, c: Caller, path: Uuid, key: string, p: FlagUpdate, commits: bool,
                         id: Uuid, k: Field, env: Option<Env>)
    requires Inv(s) && HandleUpdate(s, c, path, key, p, commits).committed && IsRow(s, c.tenant, key, id)
    ensures AsksFor(p, k, env) ==>
      var before, after := Stored(s, id, env, k), Stored(HandleUpdate(s, c, path, key, p, commits).store, id, env, k);
      && Sent(p, k).Some? && PyEqDatum(after, Sent(p, k).value)
      && (after == Sent(p, k).value <==> before == Sent(p, k).value || !PyEqDatum(before, Sent(p, k).value))
  {
    var id' := CommittedUpdate(s, c, path, key, p, commits);
    LookupIs(s, c.tenant, key, id);
    LookupIs(s, c.tenant, key, id');
    if AsksFor(p, k, env) {
      UpdatedVersusSent(s, c, id, p, k, env);
    }
  }

  /** In a boolean or text flag a default or a value that was sent is stored to the letter: only numbers
      and the insides of rules have spellings that Python confuses. */
  lemma TypedValuesAreExact(s: Store, c: Caller, path: Uuid, key: string, p: FlagUpdate, commits: bool,
                            id: Uuid, k: Field, env: Option<Env>)
    requires Inv(s) && HandleUpdate(s, c, path, key, p, commits).committed && IsRow(s, c.tenant, key, id)
    requires k in {DefaultField, ValueField} && s.flags[id].ftype != Number
    ensures AsksFor(p, k, env) ==>
      Sent(p, k) == Some(Stored(HandleUpdate(s, c, path, key, p, commits).store, id, env, k))
  {
    if AsksFor(p, k, env) {
      StoredVersusSent(s, c, path, key, p, commits, id, k, env);
      LookupIs(s, c.tenant, key, id);
      SentHasType(s, c, path, key, p, commits, k);
      OldHasType(s, id, k, env);
      TypedEquality(Stored(s, id, env, k).v, Sent(p, k).value.v, s.flags[id].ftype);
    }
  }

  lemma SentHasType(s: Store, c: Caller, path: Uuid, key: string, p: FlagUpdate, commits: bool, k: Field)
    requires HandleUpdate(s, c, path, key, p, commits).committed
    requires k in {DefaultField, ValueField} && Sent(p, k).Some? && (k == ValueField ==> p.environment.Some?)
    ensures Lookup(s, c.tenant, key).Some?
    ensures Sent(p, k).value.Scalar? && HasType(Sent(p, k).value.v, s.flags[Lookup(s, c.tenant, key).value].ftype)
  {
    hide Updated, Changes;
  }

  lemma OldHasType(s: Store, id: Uuid, k: Field, env: Option<Env>)
    requires Inv(s) && HasRow(s, id, env) && id in s.flags && k == (if env.None? then DefaultField else ValueField)
    ensures Stored(s, id, env, k).Scalar? && HasType(Stored(s, id, env, k).v, s.flags[id].ftype)
  {
    assert env.Some? ==> ConfigOk(s.flags[id], s.configs[(id, env.value)]);
  }

  lemma SentRules(p: FlagUpdate)
    requires p.environment.Some? && p.rules.Given?
    ensures AsksFor(p, RulesField, p.environment) && Sent(p, RulesField) == Some(RuleList(p.rules.v))
  {
  }

  lemma RulesAfter(s: Store, c: Caller, path: Uuid, key: string, p: FlagUpdate, commits: bool, id: Uuid)
    requires Inv(s) && HandleUpdate(s, c, path, key, p, commits).committed && IsRow(s, c.tenant, key, id)
    requires p.environment.Some? && p.rules.Given?
    ensures
      var s', k := HandleUpdate(s, c, path, key, p, commits).store, (id, p.environment.value);
      && k in s.configs && k in s'.configs && PyEqDatum(RuleList(s'.configs[k].rules), RuleList(p.rules.v))
      && (s'.configs[k].rules == p.rules.v <==>
            s.configs[k].rules == p.rules.v || !PyEqDatum(RuleList(s.configs[k].rules), RuleList(p.rules.v)))
  {
    ConfigStays(s, c, path, key, p, commits, id);
    SentRules(p);
    StoredRules(s, id, p.environment.value);
    StoredRules(HandleUpdate(s, c, path, key, p, commits).store, id, p.environment.value);
    hide HandleUpdate, Updated, AsksFor, Sent, Inv, PyEqDatum, Stored;
    StoredVersusSent(s, c, path, key, p, commits, id, RulesField, p.environment);
  }

  lemma StoredRules(s: Store, id: Uuid, e: Env)
    requires (id, e) in s.configs
    ensures Stored(s, id, Some(e), RulesField) == RuleList(s.configs[(id, e)].rules)
  {
  }

  lemma ConfigStays(s: Store, c: Caller, path: Uuid, key: string, p: FlagUpdate, commits: bool, id: Uuid)
    requires Inv(s) && HandleUpdate(s, c, path, key, p, commits).committed && IsRow(s, c.tenant, key, id)
    requires p.environment.Some?
    ensures (id, p.environment.value) in s.configs
    ensures (id, p.environment.value) in HandleUpdate(s, c, path, key, p, commits).store.configs
  {
    var id' := CommittedUpdate(s, c, path, key, p, commits);
    LookupIs(s, c.tenant, key, id);
    LookupIs(s, c.tenant, key, id');
    hide HandleUpdate, Updated, FlagPatch, ConfigPatch, Inv;
    UpdatedRows(s, c, id, p);
  }

  /** Rules of texts and bools, sent over rules of texts and bools, are stored to the letter; so a change to
      any operand, operator, attribute or value of them is never dropped. */
  lemma PlainRulesAreExact(s: Store, c: Caller, path: Uuid, key: string, p: FlagUpdate, commits: bool, id: Uuid)
    requires Inv(s) && HandleUpdate(s, c, path, key, p, commits).committed && IsRow(s, c.tenant, key, id)
    requires p.environment.Some? && p.rules.Given? && (id, p.environment.value) in s.configs
    requires RulesOfOneSpelling(p.rules.v) && RulesOfOneSpelling(s.configs[(id, p.environment.value)].rules)
    ensures
      var s', k := HandleUpdate(s, c, path, key, p, commits).store, (id, p.environment.value);
      k in s'.configs && s'.configs[k].rules == p.rules.v
  {
    hide HandleUpdate, Inv, PyEqDatum, RulesOfOneSpelling;
    RulesAfter(s, c, path, key, p, commits, id);
    PyEqRulesExact(s.configs[(id, p.environment.value)].rules, p.rules.v);
  }

  /** Whatever numbers the rules hold, as long as their operators compare whole values: after the PUT every
      user in every context is targeted as the rules sent would target them, stored or dropped. */
  lemma SentRulesTarget(pf: Platform, s: Store, c: Caller, path: Uuid, key: string, p: FlagUpdate, commits: bool,
                        id: Uuid, userId: string, ctx: Context)
    requires Inv(s) && HandleUpdate(s, c, path, key, p, commits).committed && IsRow(s, c.tenant, key, id)
    requires p.environment.Some? && p.rules.Given? && s.flags[id].archivedAt.None?
    requires forall i :: 0 <= i < |p.rules.v| ==> ByEquality(p.rules.v[i])
    ensures
      var s', k := HandleUpdate(s, c, path, key, p, commits).store, CacheKey(c.tenant, p.environment.value);
      && Joins(s', k, id)
      && var x := Snap(s', k, id);
      && var e, f := Evaluate(pf, x.(rules := p.rules.v), userId, ctx), Evaluate(pf, x, userId, ctx);
      && e.reason == f.reason && PyEqOpt(e.value, f.value)
  {
    RulesAfter(s, c, path, key, p, commits, id);
    StaysJoined(s, c, path, key, p, commits, id);
    var s', k := HandleUpdate(s, c, path, key, p, commits).store, CacheKey(c.tenant, p.environment.value);
    PyEqIsEquivalence(RuleList(Snap(s', k, id).rules), RuleList(p.rules.v), Null);
    hide HandleUpdate, Inv, PyEqDatum, Evaluate;
    EqualListsTargetAlike(pf, Snap(s', k, id).(rules := p.rules.v), Snap(s', k, id).rules, userId, ctx);
  }

  lemma StaysJoined(s: Store, c: Caller, path: Uuid, key: string, p: FlagUpdate, commits: bool, id: Uuid)
    requires Inv(s) && HandleUpdate(s, c, path, key, p, commits).committed && IsRow(s, c.tenant, key, id)
    requires p.environment.Some? && s.flags[id].archivedAt.None?
    ensures Joins(HandleUpdate(s, c, path, key, p, commits).store, CacheKey(c.tenant, p.environment.value), id)
  {
    var id' := CommittedUpdate(s, c, path, key, p, commits);
    LookupIs(s, c.tenant, key, id);
    LookupIs(s, c.tenant, key, id');
    hide HandleUpdate, Updated, FlagPatch, ConfigPatch, Inv;
    UpdatedRows(s, c, id, p);
    PatchKeepsRest(s, id, p);
  }

  // ----- Which updates go through -----

  lemma UnsentStays(e: Entity, changes: Patch, k: Field)
    requires FitsAll(e, DropUnchanged(e, changes)) && k !in changes
    ensures Get(Apply(e, DropUnchanged(e, changes)), k) == Get(e, k)
  {
    ApplyGet(e, DropUnchanged(e, changes), k);
  }

  lemma PatchedAllowedIff(before: Config, p: FlagUpdate)
    requires ConfigAllowed(before) && ValidUpdate(p)
    requires FitsAll(ConfigRow(before), DropUnchanged(ConfigRow(before), Changes(p, CONFIG_FIELDS)))
    ensures
      var after := Apply(ConfigRow(before), DropUnchanged(ConfigRow(before), Changes(p, CONFIG_FIELDS)));
      after.ConfigRow? && (ConfigAllowed(after.config) <==> (p.rules.Given? ==> |p.rules.v| <= 50))
  {
    hide DropUnchanged, Apply, FitsAll, PyEqRule, ValidRules;
    var row, changes := ConfigRow(before), Changes(p, CONFIG_FIELDS);
    var after := Apply(row, DropUnchanged(row, changes));
    ApplyKeepsIdentity(row, DropUnchanged(row, changes));
    if p.rules.Given? {
      AppliedVersusSent(row, changes, RulesField);
    } else {
      UnsentStays(row, changes, RulesField);
    }
    if p.rollout.Given? {
      AppliedVersusSent(row, changes, RolloutField);
    } else {
      UnsentStays(row, changes, RolloutField);
    }
    assert Get(after, RulesField) == RuleList(after.config.rules);
    assert Get(after, RolloutField) == Scalar(Int(after.config.rollout));
  }

  lemma ConfigAllowedIff(s: Store, c: Caller, id: Uuid, p: FlagUpdate)
    requires Inv(s) && id in s.flags && ValidUpdate(p)
    requires p.environment.Some? && (id, p.environment.value) in s.configs
    ensures ConfigAllowed(Updated(s, c, id, p).configs[(id, p.environment.value)])
       <==> (p.rules.Given? ==> |p.rules.v| <= 50)
  {
    UpdatedRows(s, c, id, p);
    PatchesFit(s, id, p);
    var before := s.configs[(id, p.environment.value)];
    assert ConfigOk(s.flags[id], before);
    hide Updated, Inv, DropUnchanged, Apply, FitsAll, ConfigOk, ConfigAllowed, Changes, ValidUpdate;
    PatchedAllowedIff(before, p);
  }

  /** An update of an existing flag that passes validation and the type checks goes through if and only if
      the database takes the commit and the payload sends at most 50 rules; the schema has no such bound, so
      a longer list is refused only at the commit, as a server error. */
  lemma CommittedIff(s: Store, c: Caller, key: string, p: FlagUpdate, commits: bool, id: Uuid)
    requires Inv(s) && IsRow(s, c.tenant, key, id) && ValidUpdate(p)
    requires SlotHasType(p.defaultValue, s.flags[id].ftype) && SlotHasType(p.value, s.flags[id].ftype)
    ensures
      var o := HandleUpdate(s, c, c.tenant, key, p, commits);
      && (o.committed <==> commits && (p.rules.Given? ==> |p.rules.v| <= 50))
      && (!o.committed ==> o.response == Fail(500))
  {
    LookupIs(s, c.tenant, key, id);
    if p.environment.Some? {
      ConfigAllowedIff(s, c, id, p);
    }
  }

  // ----- Idempotence and minimality -----

  lemma NothingLeftToDrop(e: Entity, changes: Patch)
    requires FitsAll(e, DropUnchanged(e, changes))
    ensures DropUnchanged(Apply(e, DropUnchanged(e, changes)), changes) == map[]
  {
    forall k | k in changes ensures PyEqDatum(Get(Apply(e, DropUnchanged(e, changes)), k), changes[k]) {
      AppliedVersusSent(e, changes, k);
    }
  }

  lemma UpdatedTwice(s: Store, c: Caller, id: Uuid, p: FlagUpdate)
    requires Inv(s) && id in s.flags
    requires p.environment.Some? ==> (id, p.environment.value) in s.configs
    ensures
      var s' := Updated(s, c, id, p);
      && id in s'.flags && (p.environment.Some? ==> (id, p.environment.value) in s'.configs)
      && FlagPatch(s', id, p) == map[] && ConfigPatch(s', id, p) == map[] && Updated(s', c, id, p) == s'
  {
    UpdatedRows(s, c, id, p);
    PatchesFit(s, id, p);
    NothingLeftToDrop(Row(s, id, None), Changes(p, FLAG_FIELDS));
    if p.environment.Some? {
      NothingLeftToDrop(Row(s, id, p.environment), Changes(p, CONFIG_FIELDS));
    }
  }

  /** Repeating a PUT changes neither store nor log, and answers the same. */
  lemma PutIsIdempotent(s: Store, c: Caller, path: Uuid, key: string, p: FlagUpdate, commits: bool)
    requires Inv(s)
    ensures
      var first := HandleUpdate(s, c, path, key, p, commits);
      var again := HandleUpdate(first.store, c, path, key, p, commits);
      again.store == first.store && again.response == first.response && again.committed == first.committed
  {
    hide Inv, Updated, Changes, Apply, DropUnchanged;
    var first := HandleUpdate(s, c, path, key, p, commits);
    if first.committed {
      var id := Lookup(s, c.tenant, key).value;
      var s' := first.store;
      UpdateKeepsInv(s, c, path, key, p, commits);
      UpdatedTwice(s, c, id, p);
      UpdatedRows(s, c, id, p);
      PatchKeepsRest(s, id, p);
      LookupIs(s', c.tenant, key, id);
    }
  }

  /** A scope's record is written exactly when its row changes; nothing else in the store moves. */
  lemma RecordsMatchChanges(s: Store, c: Caller, path: Uuid, key: string, p: FlagUpdate, commits: bool)
    requires Inv(s) && HandleUpdate(s, c, path, key, p, commits).committed
    ensures
      var id := Lookup(s, c.tenant, key).value;
      var s' := HandleUpdate(s, c, path, key, p, commits).store;
      && id in s'.flags && (p.environment.Some? ==> (id, p.environment.value) in s'.configs)
      && |s'.log| == |s.log| + (if s'.flags[id] != s.flags[id] then 1 else 0)
                   + (if p.environment.Some?
                         && s'.configs[(id, p.environment.value)] != s.configs[(id, p.environment.value)]
                      then 1 else 0)
      && s'.flags == s.flags[id := s'.flags[id]]
      && s'.configs == (if p.environment.None? then s.configs
                        else s.configs[(id, p.environment.value) := s'.configs[(id, p.environment.value)]])
  {
    hide Inv, Changes, Apply, DropUnchanged;
    var id := Lookup(s, c.tenant, key).value;
    UpdatedRows(s, c, id, p);
    PatchesFit(s, id, p);
    ApplyKeepsIdentity(Row(s, id, None), FlagPatch(s, id, p));
    ChangedIff(Row(s, id, None), Changes(p, FLAG_FIELDS));
    if p.environment.Some? {
      ApplyKeepsIdentity(Row(s, id, p.environment), ConfigPatch(s, id, p));
      ChangedIff(Row(s, id, p.environment), Changes(p, CONFIG_FIELDS));
    }
  }

  lemma ChangedIff(e: Entity, changes: Patch)
    requires FitsAll(e, DropUnchanged(e, changes))
    ensures Apply(e, DropUnchanged(e, changes)) == e <==> DropUnchanged(e, changes) == map[]
  {
    var p := DropUnchanged(e, changes);
    ApplyNothing(e);
    if k :| k in p {
      PatchShows(e, changes, k);
    }
  }

  /** Which keys a committed write drops, told from the stores alone: one environment's when an update
      left every flag row as it was, and all three of the tenant's otherwise. A refused one drops none. */
  lemma DelsFollowTheStores(s: Store, w: Write)
    requires Inv(s)
    ensures
      var o, t := Handle(s, w), w.caller.tenant;
      o.dels == if !o.committed then {}
                else if w.UpdateReq? && w.update.environment.Some? && o.store.flags == s.flags then
                  {CacheKey(t, w.update.environment.value)}
                else AllKeys(t)
  {
    hide Inv, Changes, Apply, DropUnchanged;
    DelsOf(s, w);
    if w.UpdateReq? && Handle(s, w).committed {
      var id := Lookup(s, w.caller.tenant, w.key).value;
      UpdatedRows(s, w.caller, id, w.update);
      PatchesFit(s, id, w.update);
      ApplyKeepsIdentity(Row(s, id, None), FlagPatch(s, id, w.update));
      ChangedIff(Row(s, id, None), Changes(w.update, FLAG_FIELDS));
    }
  }

  // ----- Percentage ramps -----

  function RolloutOnly(e: Env, pct: int): FlagUpdate {
    FlagUpdate(Unset, Unset, Unset, Some(e), Unset, Unset, Given(pct), Unset)
  }

  /** A PUT, by any of the tenant's keys, that names this flag and environment and only the percentage. */
  predicate IsRolloutPut(w: Write, k: CacheKey, key: string) {
    && w.UpdateReq? && w.caller.tenant == w.path == k.tenant && w.key == key && w.commits
    && w.update.rollout.Given? && 0 <= w.update.rollout.v <= 100
    && w.update == RolloutOnly(k.env, w.update.rollout.v)
  }

  /** A request that is not about this flag in this environment: one the database turns down, another
      tenant's, a creation, one that names another flag, or an update of this flag that names neither this
      environment nor a default. */
  predicate Elsewhere(w: Write, k: CacheKey, key: string) {
    || !w.commits || w.caller.tenant != k.tenant || w.CreateReq? || w.key != key
    || (w.UpdateReq? && w.update.environment != Some(k.env) && w.update.defaultValue.Unset?)
  }

  /** Percentage PUTs with any other requests between them that are not about this flag. */
  predicate IsRamp(ws: seq<Write>, k: CacheKey, key: string) {
    forall i :: 0 <= i < |ws| ==> IsRolloutPut(ws[i], k, key) || Elsewhere(ws[i], k, key)
  }

  lemma RolloutPutSets(s: Store, w: Write, k: CacheKey, id: Uuid)
    requires Inv(s) && Joins(s, k, id) && IsRolloutPut(w, k, s.flags[id].key)
    ensures
      var s' := Handle(s, w).store;
      && Joins(s', k, id) && s'.flags[id].key == s.flags[id].key
      && Snap(s', k, id) == Snap(s, k, id).(rollout := w.update.rollout.v)
  {
    hide Updated, Apply, Changes, DropUnchanged;
    LookupIs(s, k.tenant, w.key, id);
    UpdatedRollout(s, w.caller, id, k.env, w.update.rollout.v);
    assert ConfigOk(s.flags[id], s.configs[(id, k.env)]);
  }

  /** This flag's compiled row, here and after `s'`, is the same. */
  ghost predicate SameRow(s: Store, s': Store, k: CacheKey, id: Uuid)
    requires Joins(s, k, id)
  {
    Joins(s', k, id) && s'.flags[id].key == s.flags[id].key && Snap(s', k, id) == Snap(s, k, id)
  }

  lemma UpdateElsewhere(s: Store, c: Caller, id': Uuid, p: FlagUpdate, k: CacheKey, id: Uuid)
    requires Joins(s, k, id) && id' in s.flags && (p.environment.Some? ==> (id', p.environment.value) in s.configs)
    requires id' == id ==> p.environment != Some(k.env) && p.defaultValue.Unset?
    ensures SameRow(s, Updated(s, c, id', p), k, id)
  {
    UpdatedRows(s, c, id', p);
    PatchKeepsRest(s, id', p);
    assert p.defaultValue.Unset? ==> DefaultField !in FlagPatch(s, id', p);
  }

  lemma CreationElsewhere(s: Store, c: Caller, p: FlagCreate, newId: Uuid, k: CacheKey, id: Uuid)
    requires Joins(s, k, id) && newId !in s.flags
    ensures SameRow(s, Created(s, c, p, newId), k, id)
  {
    hide SeedConfig, NewFlag;
  }

  lemma ElsewhereKeepsRow(s: Store, w: Write, k: CacheKey, id: Uuid)
    requires Joins(s, k, id) && Elsewhere(w, k, s.flags[id].key)
    ensures SameRow(s, Handle(s, w).store, k, id)
  {
    hide Updated, Created, FlagPatch, ConfigPatch, ValidCreate, ValidUpdate, BodyOf;
    if Handle(s, w).committed {
      match w
      case CreateReq(c, _, p, newId, _) => CreationElsewhere(s, c, p, newId, k, id);
      case UpdateReq(c, path, key, p, ok) =>
        var id' := CommittedUpdate(s, c, path, key, p, ok);
        UpdateElsewhere(s, c, id', p, k, id);
      case ArchiveReq(_, _, _, _, _) =>
    }
  }

  lemma UpdatedRollout(s: Store, c: Caller, id: Uuid, e: Env, pct: int)
    requires id in s.flags && (id, e) in s.configs
    ensures
      var s' := Updated(s, c, id, RolloutOnly(e, pct));
      && s'.flags == s.flags
      && s'.configs == s.configs[(id, e) := s.configs[(id, e)].(rollout := pct)]
  {
    RolloutChanges(e, pct);
    UpdatedRows(s, c, id, RolloutOnly(e, pct));
    ApplyNothing(Row(s, id, None));
    RolloutPatch(s.configs[(id, e)], pct);
  }

  lemma RolloutChanges(e: Env, pct: int)
    ensures Changes(RolloutOnly(e, pct), FLAG_FIELDS) == map[]
    ensures Changes(RolloutOnly(e, pct), CONFIG_FIELDS) == map[RolloutField := Scalar(Int(pct))]
  {
  }

  lemma RolloutPatch(g: Config, pct: int)
    ensures
      var changes: Patch := map[RolloutField := Scalar(Int(pct))];
      Apply(ConfigRow(g), DropUnchanged(ConfigRow(g), changes)) == ConfigRow(g.(rollout := pct))
  {
  }

  /** The percentage in force after a ramp: that of its last percentage PUT. */
  function InForce(start: int, ws: seq<Write>, k: CacheKey, key: string): int {
    if ws == [] then start
    else
      var n := |ws| - 1;
      if IsRolloutPut(ws[n], k, key) then ws[n].update.rollout.v else InForce(start, ws[..n], k, key)
  }

  /** A ramp moves the flag's row for that environment in its percentage and in nothing else. */
  lemma {:induction false} RampMovesOnlyThePercentage(s: Store, ws: seq<Write>, k: CacheKey, id: Uuid)
    requires Inv(s) && Joins(s, k, id) && IsRamp(ws, k, s.flags[id].key)
    ensures
      var s', key := Run(s, ws), s.flags[id].key;
      && Joins(s', k, id) && s'.flags[id].key == key
      && Snap(s', k, id) == Snap(s, k, id).(rollout := InForce(Snap(s, k, id).rollout, ws, k, key))
  {
    hide Handle, Inv, Elsewhere;
    if ws != [] {
      var n := |ws| - 1;
      RampMovesOnlyThePercentage(s, ws[..n], k, id);
      ReachableInv(s, ws[..n]);
      var w, mid := ws[n], Run(s, ws[..n]);
      if IsRolloutPut(w, k, s.flags[id].key) {
        RolloutPutSets(mid, w, k, id);
      } else {
        ElsewhereKeepsRow(mid, w, k, id);
      }
    }
  }

  ghost predicate NeverLowers(start: int, ws: seq<Write>, k: CacheKey, key: string) {
    forall i :: 0 <= i < |ws| ==> InForce(start, ws[..i], k, key) <= InForce(start, ws[..i + 1], k, key)
  }

  lemma {:induction false} NeverLowersIsMonotone(start: int, ws: seq<Write>, k: CacheKey, key: string, i: nat, j: nat)
    requires NeverLowers(start, ws, k, key) && i <= j <= |ws|
    ensures InForce(start, ws[..i], k, key) <= InForce(start, ws[..j], k, key)
    decreases j
  {
    if i < j {
      NeverLowersIsMonotone(start, ws, k, key, i, j - 1);
      assert InForce(start, ws[..j - 1], k, key) <= InForce(start, ws[..j - 1 + 1], k, key);
    }
  }

  /** Along a ramp that never lowers the percentage, whoever sends its PUTs and whatever happens elsewhere in
      between, a user once in the rollout stays in; between two points of it exactly those users join whom no
      rule claims and whose bucket lies between the two percentages. A PUT that lowers the percentage back to
      the earlier point's gives every user the verdict they had there. */
  lemma RampOnlyAddsUsers(p: Platform, s: Store, ws: seq<Write>, k: CacheKey, id: Uuid, i: nat, j: nat, back: Write,
                          userId: string, ctx: Context)
    requires Inv(s) && Joins(s, k, id) && IsRamp(ws, k, s.flags[id].key) && i <= j <= |ws|
    requires NeverLowers(Snap(s, k, id).rollout, ws, k, s.flags[id].key)
    requires IsRolloutPut(back, k, s.flags[id].key)
    requires back.update.rollout.v == InForce(Snap(s, k, id).rollout, ws[..i], k, s.flags[id].key)
    ensures
      var x, key := Snap(s, k, id), s.flags[id].key;
      var si, sj, sb := Run(s, ws[..i]), Run(s, ws[..j]), Run(s, ws[..j] + [back]);
      && Joins(si, k, id) && Joins(sj, k, id) && Joins(sb, k, id)
      && (Included(p, Snap(si, k, id), userId, ctx) ==> Included(p, Snap(sj, k, id), userId, ctx))
      && (Included(p, Snap(sj, k, id), userId, ctx) && !Included(p, Snap(si, k, id), userId, ctx) <==>
            && x.enabled && NoMatch(p, x.rules, userId, ctx)
            && InForce(x.rollout, ws[..i], k, key) <= BucketFor(p, key, userId) < InForce(x.rollout, ws[..j], k, key))
      && Evaluate(p, Snap(sb, k, id), userId, ctx) == Evaluate(p, Snap(si, k, id), userId, ctx)
  {
    hide Inv, Evaluate, Handle, Run, Elsewhere;
    var x, key := Snap(s, k, id), s.flags[id].key;
    RampMovesOnlyThePercentage(s, ws[..i], k, id);
    RampMovesOnlyThePercentage(s, ws[..j], k, id);
    RampMovesOnlyThePercentage(s, ws[..j] + [back], k, id);
    assert InForce(x.rollout, ws[..j] + [back], k, key) == back.update.rollout.v;
    NeverLowersIsMonotone(x.rollout, ws, k, key, i, j);
    WideningIsAdditive(p, x, InForce(x.rollout, ws[..i], k, key), InForce(x.rollout, ws[..j], k, key), userId, ctx);
  }
}
