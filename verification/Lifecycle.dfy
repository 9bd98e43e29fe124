/** What callers see of a flag from its creation on: statuses, responses, records, and what users are served
    before and after it is first switched on. */
module Lifecycle {
  import opened Base
  import opened Keys
  import opened Engine
  import opened Store
  import opened Compiled
  import opened Updates
  import opened Targeting

  // ----- A new flag is dark, and what switching it on serves -----

  lemma CreatedRows(s: Store, c: Caller, q: FlagCreate, newId: Uuid, e: Env)
    requires newId !in s.flags
    ensures
      var s', k := Created(s, c, q, newId), CacheKey(c.tenant, e);
      && Joins(s', k, newId) && IsRow(s', c.tenant, q.key, newId)
      && Snap(s', k, newId).key == q.key && Snap(s', k, newId).ftype == q.ftype
      && Snap(s', k, newId).defaultValue == q.defaultValue && !Snap(s', k, newId).enabled
      && Snap(s', k, newId).rollout == 100 && Snap(s', k, newId).rules == []
      && Snap(s', k, newId).value == if q.ftype == Boolean then Bool(q.defaultValue == Bool(false)) else q.defaultValue
  {
  }

  /** After a committed creation the flag gives every user its default, as disabled, in all three environments. */
  lemma NewFlagIsDark(p: Platform, s: Store, c: Caller, path: Uuid, q: FlagCreate, newId: Uuid, commits: bool,
                      e: Env, userId: string, ctx: Context)
    requires HandleCreate(s, c, path, q, newId, commits).committed
    ensures
      var s', k := HandleCreate(s, c, path, q, newId, commits).store, CacheKey(c.tenant, e);
      && Joins(s', k, newId)
      && Evaluate(p, Snap(s', k, newId), userId, ctx) == Evaluation(q.key, Some(q.defaultValue), DisabledReason)
  {
    hide Created;
    CreatedRows(s, c, q, newId, e);
  }

  function Switch(c: Caller, key: string, e: Env): Write {
    UpdateReq(c, c.tenant, key, FlagUpdate(Unset, Unset, Unset, Some(e), Given(true), Unset, Unset, Unset), true)
  }

  lemma SwitchPatch(g: Config)
    ensures
      var changes: Patch := map[EnabledField := Scalar(Bool(true))];
      Apply(ConfigRow(g), DropUnchanged(ConfigRow(g), changes)) == ConfigRow(g.(enabled := true))
  {
  }

  lemma SwitchChanges(c: Caller, key: string, e: Env)
    ensures Changes(Switch(c, key, e).update, FLAG_FIELDS) == map[]
    ensures Changes(Switch(c, key, e).update, CONFIG_FIELDS) == map[EnabledField := Scalar(Bool(true))]
  {
  }

  lemma SwitchSets(s: Store, c: Caller, e: Env, id: Uuid)
    requires Inv(s) && id in s.flags && s.flags[id].tenant == c.tenant
    ensures (id, e) in s.configs
    ensures
      var w := Switch(c, s.flags[id].key, e);
      && Handle(s, w).committed && Handle(s, w).store.flags == s.flags
      && Handle(s, w).store.configs == s.configs[(id, e) := s.configs[(id, e)].(enabled := true)]
  {
    var w := Switch(c, s.flags[id].key, e);
    CommittedIff(s, c, w.key, w.update, true, id);
    LookupIs(s, c.tenant, w.key, id);
    hide Inv, Updated, Apply, FlagPatch, ConfigPatch, ConfigAllowed, ValidUpdate;
    SwitchedRows(s, c, e, id);
  }

  lemma SwitchedRows(s: Store, c: Caller, e: Env, id: Uuid)
    requires id in s.flags && (id, e) in s.configs
    ensures
      var s' := Updated(s, c, id, Switch(c, s.flags[id].key, e).update);
      s'.flags == s.flags && s'.configs == s.configs[(id, e) := s.configs[(id, e)].(enabled := true)]
  {
    var p := Switch(c, s.flags[id].key, e).update;
    SwitchChanges(c, s.flags[id].key, e);
    SwitchPatch(s.configs[(id, e)]);
    ApplyNothing(Row(s, id, None));
    UpdatedRows(s, c, id, p);
    hide Updated, Apply, Changes;
    assert FlagPatch(s, id, p) == map[];
  }

  /** One more PUT that only sends `enabled: true` for one environment: every user there is now served the
      opposite of a boolean flag's default, and the default itself of a text or number flag, as part of the
      rollout; in the other two environments everybody still gets the default, as disabled. */
  lemma SwitchingOnServes(p: Platform, s: Store, c: Caller, path: Uuid, q: FlagCreate, newId: Uuid, op: Caller,
                          e: Env, f: Env, userId: string, ctx: Context)
    requires Inv(s) && op.tenant == c.tenant
    ensures HandleCreate(s, c, path, q, newId, true).committed ==>
      var s1 := HandleCreate(s, c, path, q, newId, true).store;
      var o, k := Handle(s1, Switch(op, q.key, e)), CacheKey(c.tenant, f);
      && o.committed && Joins(o.store, k, newId)
      && Evaluate(p, Snap(o.store, k, newId), userId, ctx) ==
           if f != e then Evaluation(q.key, Some(q.defaultValue), DisabledReason)
           else if q.ftype == Boolean then Evaluation(q.key, Some(Bool(q.defaultValue == Bool(false))), InRollout)
           else Evaluation(q.key, Some(q.defaultValue), InRollout)
  {
    HandleKeepsInv(s, CreateReq(c, path, q, newId, true));
    var s1 := HandleCreate(s, c, path, q, newId, true).store;
    hide Created, Handle, Inv, ValidCreate, BucketFor;
    if HandleCreate(s, c, path, q, newId, true).committed {
      CreatedRows(s, c, q, newId, f);
      SwitchSets(s1, op, e, newId);
    }
  }

  // ----- What an update leaves in the rows -----

  /** A sent value in place of the old one: the same value, or one with another spelling if the old one was
      equal to it already. */
  predicate Takes(old_: Value, sent: Slot<Value>, new_: Value) {
    if sent.Given? then new_ == sent.v || (new_ == old_ && Plain(old_) == Plain(sent.v)) else new_ == old_
  }

  lemma FlagAfter(f: Flag, p: FlagUpdate)
    requires FitsAll(FlagRow(f), DropUnchanged(FlagRow(f), Changes(p, FLAG_FIELDS)))
    ensures
      var e := Apply(FlagRow(f), DropUnchanged(FlagRow(f), Changes(p, FLAG_FIELDS)));
      && e.FlagRow?
      && e.flag == f.(name := if p.name.Given? then p.name.v else f.name,
                      description := if p.description.Unset? then f.description
                                     else if p.description.Nulled? then None else Some(p.description.v),
                      defaultValue := e.flag.defaultValue)
      && Takes(f.defaultValue, p.defaultValue, e.flag.defaultValue)
  {
    if p.defaultValue.Given? {
      PyEqIffPlain(f.defaultValue, p.defaultValue.v);
    }
  }

  lemma ConfigAfter(g: Config, p: FlagUpdate)
    requires FitsAll(ConfigRow(g), DropUnchanged(ConfigRow(g), Changes(p, CONFIG_FIELDS)))
    ensures
      var e := Apply(ConfigRow(g), DropUnchanged(ConfigRow(g), Changes(p, CONFIG_FIELDS)));
      && e.ConfigRow?
      && e.config == g.(enabled := if p.enabled.Given? then p.enabled.v else g.enabled,
                        rollout := if p.rollout.Given? then p.rollout.v else g.rollout,
                        value := e.config.value, rules := e.config.rules)
      && Takes(g.value, p.value, e.config.value)
      && (if !p.rules.Given? then e.config.rules == g.rules
          else e.config.rules == p.rules.v
               || (e.config.rules == g.rules && PlainDatum(RuleList(g.rules)) == PlainDatum(RuleList(p.rules.v))))
  {
    if p.value.Given? {
      PyEqIffPlain(g.value, p.value.v);
    }
    if p.rules.Given? {
      PyEqDatumIffPlain(RuleList(g.rules), RuleList(p.rules.v));
    }
    hide Plain, PlainDatum, PyEqRule, PyEq;
  }

  /** After a committed update, row by row: what was sent is there, an explicit null clears the description and
      nothing else, what was not sent is as before, and no other row has moved. */
  lemma UpdateInPlainTerms(s: Store, c: Caller, path: Uuid, key: string, p: FlagUpdate, commits: bool, id: Uuid)
    requires Inv(s) && HandleUpdate(s, c, path, key, p, commits).committed && IsRow(s, c.tenant, key, id)
    ensures
      var s', f := HandleUpdate(s, c, path, key, p, commits).store, s.flags[id];
      && id in s'.flags && s'.flags == s.flags[id := s'.flags[id]]
      && s'.flags[id] == f.(name := if p.name.Given? then p.name.v else f.name,
                            description := if p.description.Unset? then f.description
                                           else if p.description.Nulled? then None else Some(p.description.v),
                            defaultValue := s'.flags[id].defaultValue)
      && Takes(f.defaultValue, p.defaultValue, s'.flags[id].defaultValue)
      && (p.environment.None? ==> s'.configs == s.configs)
      && (p.environment.Some? ==>
            var j := (id, p.environment.value);
            && j in s.configs && j in s'.configs && s'.configs == s.configs[j := s'.configs[j]]
            && var g, h := s.configs[j], s'.configs[j];
            && h == g.(enabled := if p.enabled.Given? then p.enabled.v else g.enabled,
                       rollout := if p.rollout.Given? then p.rollout.v else g.rollout,
                       value := h.value, rules := h.rules)
            && Takes(g.value, p.value, h.value)
            && (if !p.rules.Given? then h.rules == g.rules
                else h.rules == p.rules.v
                     || (h.rules == g.rules && PlainDatum(RuleList(g.rules)) == PlainDatum(RuleList(p.rules.v)))))
  {
    var id' := CommittedUpdate(s, c, path, key, p, commits);
    LookupIs(s, c.tenant, key, id);
    LookupIs(s, c.tenant, key, id');
    UpdatedRows(s, c, id, p);
    PatchesFit(s, id, p);
    hide HandleUpdate, Updated, Apply, DropUnchanged, Changes, FitsAll, Inv, Takes, PlainDatum;
    FlagAfter(s.flags[id], p);
    if p.environment.Some? {
      ConfigAfter(s.configs[(id, p.environment.value)], p);
    }
  }

  // ----- Responses -----

  /** What a successful write answers with: the flag as stored, under its id, with the config stored for each
      environment. A creation shows what was sent, an archival an archived flag. */
  lemma ResponseShowsStore(s: Store, w: Write)
    requires Inv(s) && Handle(s, w).response.Body?
    ensures
      var o := Handle(s, w);
      var r := o.response;
      && r.id in o.store.flags && r.flag == o.store.flags[r.id]
      && r.flag.tenant == w.caller.tenant && r.flag.key == (if w.CreateReq? then w.create.key else w.key)
      && (forall e: Env :: e in r.configs && (r.id, e) in o.store.configs && r.configs[e] == o.store.configs[(r.id, e)])
      && (w.CreateReq? ==>
            && r.id == w.newId && r.flag.name == w.create.name && r.flag.description == w.create.description
            && r.flag.ftype == w.create.ftype && r.flag.defaultValue == w.create.defaultValue
            && r.flag.archivedAt.None?)
      && (w.ArchiveReq? ==> r.flag.archivedAt.Some?)
  {
    HandleKeepsInv(s, w);
    match w
    case CreateReq(c, path, q, newId, ok) =>
      hide ValidCreate, FlagOk, ConfigOk, SeedConfigs, SeedConfig;
    case ArchiveReq(c, path, key, now, ok) =>
      hide FlagOk, ConfigOk;
    case UpdateReq(c, path, key, p, ok) =>
      UpdateShowsStore(s, c, path, key, p, ok);
  }

  lemma UpdateShowsStore(s: Store, c: Caller, path: Uuid, key: string, p: FlagUpdate, commits: bool)
    requires Inv(s) && HandleUpdate(s, c, path, key, p, commits).response.Body?
    ensures
      var o := HandleUpdate(s, c, path, key, p, commits);
      var r := o.response;
      && r.id in o.store.flags && r.flag == o.store.flags[r.id] && r.flag.tenant == c.tenant && r.flag.key == key
      && forall e: Env :: e in r.configs && (r.id, e) in o.store.configs && r.configs[e] == o.store.configs[(r.id, e)]
  {
    UpdateKeepsInv(s, c, path, key, p, commits);
    var id := CommittedUpdate(s, c, path, key, p, commits);
    UpdatedResponse(s, c, path, key, p, commits);
    LookupIs(s, c.tenant, key, id);
    UpdatedRows(s, c, id, p);
    ApplyKeepsIdentity(Row(s, id, None), FlagPatch(s, id, p));
    ConfigEverywhere(HandleUpdate(s, c, path, key, p, commits).store, id);
    hide HandleUpdate, Updated, FlagPatch, ConfigPatch, Apply, Inv, Lookup;
  }

  lemma ConfigEverywhere(s: Store, id: Uuid)
    requires Inv(s)
    ensures id in s.flags ==> forall e: Env :: (id, e) in s.configs
  {
    hide FlagOk, ConfigOk;
  }

  lemma UpdatedResponse(s: Store, c: Caller, path: Uuid, key: string, p: FlagUpdate, commits: bool)
    requires HandleUpdate(s, c, path, key, p, commits).committed
    ensures
      var o := HandleUpdate(s, c, path, key, p, commits);
      && o.response.Body? && Lookup(s, c.tenant, key) == Some(o.response.id) && o.response.id in o.store.flags
      && o.response.flag == o.store.flags[o.response.id]
      && forall e: Env :: (o.response.id, e) in o.store.configs ==>
           e in o.response.configs && o.response.configs[e] == o.store.configs[(o.response.id, e)]
  {
    hide Updated, FlagPatch, ConfigPatch, Apply;
    UpdatedRows(s, c, Lookup(s, c.tenant, key).value, p);
  }

  // ----- Records -----

  /** Every record a request adds names the key that made it and that key's tenant. */
  lemma RecordsNameCaller(s: Store, w: Write)
    ensures s.log <= Handle(s, w).store.log
    ensures forall i :: |s.log| <= i < |Handle(s, w).store.log| ==>
      && Handle(s, w).store.log[i].actor == w.caller.keyId
      && Handle(s, w).store.log[i].tenant == w.caller.tenant
  {
    hide ValidCreate, ValidUpdate, FlagPatch, ConfigPatch, Apply, OldValues, BodyOf, SeedConfigs;
  }

  /** The record a creation adds: its dict holds the four fields sent, the type by its API name, and neither
      the description nor anything about the configs. */
  lemma CreationRecordReads(s: Store, c: Caller, path: Uuid, q: FlagCreate, newId: Uuid, commits: bool)
    requires HandleCreate(s, c, path, q, newId, commits).committed
    ensures
      var log := HandleCreate(s, c, path, q, newId, commits).store.log;
      && |log| == |s.log| + 1
      && var r := log[|s.log|];
      && r.flagId == newId && r.env.None? && r.action.FlagCreated? && r.oldValue.None?
      && r.newValue.Keys == {KeyField, NameField, TypeField, DefaultField}
      && r.newValue[KeyField] == Scalar(Str(q.key)) && r.newValue[NameField] == Scalar(Str(q.name))
      && r.newValue[DefaultField] == Scalar(q.defaultValue)
      && r.newValue[TypeField] ==
           Scalar(Str(if q.ftype.Boolean? then "boolean" else if q.ftype.Text? then "string" else "number"))
  {
    hide ValidCreate, SeedConfigs;
  }

  // ----- Statuses -----

  ghost predicate FlagExists(s: Store, tenant: Uuid, key: string) {
    exists id :: IsRow(s, tenant, key, id)
  }

  /** A key of 1 to 255 letters, digits, dots, underscores and dashes, a name of 1 to 255 characters, and a
      default that is a bool, a text or a number as the type says. */
  predicate SoundCreate(q: FlagCreate) {
    && 1 <= |q.key| <= 255 && 1 <= |q.name| <= 255
    && (forall i :: 0 <= i < |q.key| ==>
          || 'a' <= q.key[i] <= 'z' || 'A' <= q.key[i] <= 'Z' || '0' <= q.key[i] <= '9' || q.key[i] in ['.', '_', '-'])
    && (q.ftype == Boolean ==> q.defaultValue.Bool?) && (q.ftype == Text ==> q.defaultValue.Str?)
    && (q.ftype == Number ==> q.defaultValue.Int? || q.defaultValue.Float?)
  }

  /** 404 for another tenant's path, 422 for an unsound payload, 409 for a key the tenant already uses (or an
      id already drawn), 500 when the database refuses; otherwise the flag is created. */
  lemma CreateStatus(s: Store, c: Caller, path: Uuid, q: FlagCreate, newId: Uuid, commits: bool)
    ensures
      var o := HandleCreate(s, c, path, q, newId, commits);
      var taken := newId in s.flags || FlagExists(s, c.tenant, q.key);
      && (o.response == Fail(404) <==> path != c.tenant)
      && (o.response == Fail(422) <==> path == c.tenant && !SoundCreate(q))
      && (o.response == Fail(409) <==> path == c.tenant && SoundCreate(q) && taken)
      && (o.response == Fail(500) <==> path == c.tenant && SoundCreate(q) && !taken && !commits)
      && (o.committed <==> path == c.tenant && SoundCreate(q) && !taken && commits)
  {
    assert ValidCreate(q) <==> SoundCreate(q);
    assert FlagExists(s, c.tenant, q.key) <==> Lookup(s, c.tenant, q.key).Some?;
    hide ValidCreate, SoundCreate, Created, FlagExists, Lookup;
  }

  /** Names and percentages in range, rules with known operators, and an environment named whenever any of the
      four environment fields was sent, with a value or with null. */
  predicate SoundUpdate(p: FlagUpdate) {
    && (p.name.Given? ==> 1 <= |p.name.v| <= 255)
    && (p.rollout.Given? ==> 0 <= p.rollout.v <= 100)
    && (p.rules.Given? ==> forall i :: 0 <= i < |p.rules.v| ==>
          && p.rules.v[i].attribute.Some? && p.rules.v[i].value.Some?
          && p.rules.v[i].operator in {Some("in"), Some("not_in"), Some("eq"), Some("neq"),
                                       Some("contains"), Some("starts_with"), Some("ends_with")})
    && (p.environment.None? ==> p.enabled.Unset? && p.value.Unset? && p.rollout.Unset? && p.rules.Unset?)
  }

  /** A sent value that is null or not of the flag's type. */
  predicate Mistyped(v: Slot<Value>, t: FlagType) {
    v.Nulled? || (v.Given? && match t
                              case Boolean => !v.v.Bool?
                              case Text => !v.v.Str?
                              case Number => !v.v.Int? && !v.v.Float?)
  }

  lemma SoundIsValid(p: FlagUpdate)
    ensures ValidUpdate(p) <==> SoundUpdate(p)
  {
    if p.rules.Given? {
      forall i | 0 <= i < |p.rules.v|
        ensures ValidRule(p.rules.v[i]) <==>
          && p.rules.v[i].attribute.Some? && p.rules.v[i].value.Some?
          && p.rules.v[i].operator in {Some("in"), Some("not_in"), Some("eq"), Some("neq"),
                                       Some("contains"), Some("starts_with"), Some("ends_with")}
      {
        var o := p.rules.v[i].operator;
        assert o.Some? ==> (o.value in OPERATORS <==> o in {Some("in"), Some("not_in"), Some("eq"), Some("neq"),
                                                            Some("contains"), Some("starts_with"), Some("ends_with")});
      }
    }
  }

  lemma MistypedIff(v: Slot<Value>, t: FlagType)
    ensures Mistyped(v, t) <==> !SlotHasType(v, t)
  {
  }

  /** An update's status, from the payload, the flag it names and the database's word on the commit alone. */
  lemma UpdateStatus(s: Store, c: Caller, path: Uuid, key: string, p: FlagUpdate, commits: bool, id: Uuid)
    requires Inv(s) && (FlagExists(s, c.tenant, key) ==> IsRow(s, c.tenant, key, id))
    ensures
      var o := HandleUpdate(s, c, path, key, p, commits);
      var found := IsRow(s, c.tenant, key, id);
      var mistyped := found && (Mistyped(p.defaultValue, s.flags[id].ftype)
                                || (p.environment.Some? && Mistyped(p.value, s.flags[id].ftype)));
      var oversized := p.rules.Given? && |p.rules.v| > 50;
      && (o.response == Fail(404) <==> path != c.tenant || (SoundUpdate(p) && !found))
      && (o.response == Fail(422) <==> path == c.tenant && (!SoundUpdate(p) || mistyped))
      && (o.response == Fail(500) <==>
            path == c.tenant && SoundUpdate(p) && found && !mistyped && (!commits || oversized))
      && (o.committed <==> path == c.tenant && SoundUpdate(p) && found && !mistyped && commits && !oversized)
  {
    SoundIsValid(p);
    assert FlagExists(s, c.tenant, key) <==> Lookup(s, c.tenant, key).Some?;
    if IsRow(s, c.tenant, key, id) {
      LookupIs(s, c.tenant, key, id);
      MistypedIff(p.defaultValue, s.flags[id].ftype);
      MistypedIff(p.value, s.flags[id].ftype);
      hide ValidUpdate, SoundUpdate, SlotHasType, Mistyped, Updated, FlagExists, Lookup;
      if ValidUpdate(p) && Refusal(s, id, p).None? && p.environment.Some? {
        ConfigAllowedIff(s, c, id, p);
      }
    }
  }

  lemma ArchiveStatus(s: Store, c: Caller, path: Uuid, key: string, now: string, commits: bool, id: Uuid)
    requires Inv(s) && (FlagExists(s, c.tenant, key) ==> IsRow(s, c.tenant, key, id))
    ensures
      var o := HandleArchive(s, c, path, key, now, commits);
      var found := path == c.tenant && IsRow(s, c.tenant, key, id);
      && (o.response == Fail(404) <==> !found)
      && (o.response == Fail(500) <==> found && s.flags[id].archivedAt.None? && !commits)
      && (o.committed <==> found && s.flags[id].archivedAt.None? && commits)
      && (o.response.Body? <==> found && (s.flags[id].archivedAt.Some? || commits))
  {
    assert FlagExists(s, c.tenant, key) <==> Lookup(s, c.tenant, key).Some?;
    if IsRow(s, c.tenant, key, id) {
      LookupIs(s, c.tenant, key, id);
    }
  }

  /** No field that is sent with a value is ignored: after a committed update each of them is stored, as a
      value Python calls equal, in the flag's row or in that of the environment the payload names. */
  lemma NothingSentIsIgnored(s: Store, c: Caller, path: Uuid, key: string, p: FlagUpdate, commits: bool,
                             id: Uuid, k: Field)
    requires Inv(s) && HandleUpdate(s, c, path, key, p, commits).committed && IsRow(s, c.tenant, key, id)
    requires Sent(p, k).Some?
    ensures
      var env := if k in FLAG_FIELDS then None else p.environment;
      (k in FLAG_FIELDS || env.Some?)
      && PyEqDatum(Stored(HandleUpdate(s, c, path, key, p, commits).store, id, env, k), Sent(p, k).value)
  {
    var env := if k in FLAG_FIELDS then None else p.environment;
    SentIsAskedFor(p, k);
    CommittedIsValid(s, c, path, key, p, commits);
    hide HandleUpdate, Inv, PyEqDatum, Sent;
    StoredVersusSent(s, c, path, key, p, commits, id, k, env);
  }

  lemma CommittedIsValid(s: Store, c: Caller, path: Uuid, key: string, p: FlagUpdate, commits: bool)
    requires HandleUpdate(s, c, path, key, p, commits).committed
    ensures ValidUpdate(p)
  {
  }

  lemma SentIsAskedFor(p: FlagUpdate, k: Field)
    requires Sent(p, k).Some?
    ensures k in FLAG_FIELDS ==> AsksFor(p, k, None)
    ensures k !in FLAG_FIELDS && p.environment.Some? ==> AsksFor(p, k, p.environment)
    ensures k !in FLAG_FIELDS ==>
      (k == EnabledField && p.enabled.Given?) || (k == ValueField && p.value.Given?)
      || (k == RolloutField && p.rollout.Given?) || (k == RulesField && p.rules.Given?)
  {
  }
}
