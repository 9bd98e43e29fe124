/** What the store can come to hold: every well-formed row, and runs that show where the code keeps less
    than its own words promise. */
module Reachable {
  import opened Base
  import opened Keys
  import opened Engine
  import opened Store
  import opened Audit
  import opened Compiled
  import opened Updates

  const OPERATOR: Uuid := "key"
  const FLAG_ID: Uuid := "id"

  function By(k: CacheKey): Caller {
    Caller(OPERATOR, k.tenant)
  }

  // ----- What the database takes -----

  /** The database's own verdict on a flag's default or a config's value, and on a rule list (its size, say). */
  datatype Database = Database(value: Value -> bool, rules: seq<Rule> -> bool)

  /** A database that takes every bool and number, and an empty rule list. */
  ghost predicate Plain(db: Database) {
    db.rules([]) && forall v: Value :: !v.Str? ==> db.value(v)
  }

  predicate TakesFlag(db: Database, f: Flag) {
    db.value(f.defaultValue)
  }

  predicate TakesConfig(db: Database, c: Config) {
    db.value(c.value) && db.rules(c.rules)
  }

  /** Every row that a step writes, anew or over another, passes the database's checks. */
  ghost predicate Passes(db: Database, s: Store, s': Store) {
    && (forall id :: id in s'.flags && (id !in s.flags || s.flags[id] != s'.flags[id]) ==> TakesFlag(db, s'.flags[id]))
    && (forall k :: k in s'.configs && (k !in s.configs || s.configs[k] != s'.configs[k]) ==>
          TakesConfig(db, s'.configs[k]))
  }

  /** A run in which the database let through no row that it does not take. */
  ghost predicate Taken(db: Database, ws: seq<Write>) {
    ws == [] || (Taken(db, ws[..|ws| - 1]) && Passes(db, Run(EMPTY, ws[..|ws| - 1]), Run(EMPTY, ws)))
  }

  ghost predicate TakesAll(db: Database, s: Store) {
    && (forall id :: id in s.flags ==> TakesFlag(db, s.flags[id]))
    && (forall k :: k in s.configs ==> TakesConfig(db, s.configs[k]))
  }

  lemma {:induction false} TakenRunsHoldTakenRows(db: Database, ws: seq<Write>)
    requires Taken(db, ws)
    ensures TakesAll(db, Run(EMPTY, ws))
  {
    hide Handle;
    if ws != [] {
      TakenRunsHoldTakenRows(db, ws[..|ws| - 1]);
    }
  }

  lemma TakenStep(db: Database, ws: seq<Write>, w: Write)
    requires Taken(db, ws) && Passes(db, Run(EMPTY, ws), Run(EMPTY, ws + [w]))
    ensures Taken(db, ws + [w])
  {
    assert (ws + [w])[..|ws|] == ws;
  }

  /** The database takes this row, in both its tables. */
  predicate TakesRow(db: Database, x: Snapshot) {
    db.value(x.defaultValue) && db.value(x.value) && db.rules(x.rules)
  }

  // ----- Every well-formed row -----

  function CreateFor(k: CacheKey, x: Snapshot): FlagCreate {
    FlagCreate(x.key, "n", None, x.ftype, x.defaultValue)
  }

  function Creation(k: CacheKey, x: Snapshot): Write {
    CreateReq(By(k), k.tenant, CreateFor(k, x), FLAG_ID, true)
  }

  /** All four fields of one environment at once, with `v` as the value. */
  function Setting(k: CacheKey, x: Snapshot, v: Value): FlagUpdate {
    FlagUpdate(Unset, Unset, Unset, Some(k.env), Given(x.enabled), Given(v), Given(x.rollout), Given(x.rules))
  }

  function Put(k: CacheKey, x: Snapshot, v: Value): Write {
    UpdateReq(By(k), k.tenant, x.key, Setting(k, x, v), true)
  }

  /** A value of the type of `v` that a PUT of `v` is sure to replace. */
  function Stepping(v: Value): Value {
    if v.Int? then Int(v.i + 1) else if v.Float? then Float(v.r + 1.0) else v
  }

  /** The flag `id` stands for the row `x` under `k`, in its flag-level part at least. */
  ghost predicate Hosts(s: Store, k: CacheKey, id: Uuid, x: Snapshot) {
    && Joins(s, k, id)
    && s.flags[id].key == x.key && s.flags[id].ftype == x.ftype && s.flags[id].defaultValue == x.defaultValue
  }

  lemma CreationHosts(db: Database, k: CacheKey, x: Snapshot)
    requires Plain(db) && Storable(x) && TakesRow(db, x)
    ensures
      var s := Run(EMPTY, [Creation(k, x)]);
      && Inv(s) && Hosts(s, k, FLAG_ID, x) && Snap(s, k, FLAG_ID).rules == []
      && Taken(db, [Creation(k, x)])
  {
    var w := Creation(k, x);
    ReachableInv(EMPTY, [w]);
    assert [w][..0] == [];
    assert Run(EMPTY, [w]) == Handle(EMPTY, w).store;
    assert Lookup(EMPTY, k.tenant, x.key).None?;
    assert Handle(EMPTY, w).store == Created(EMPTY, By(k), CreateFor(k, x), FLAG_ID);
    assert Passes(db, EMPTY, Created(EMPTY, By(k), CreateFor(k, x), FLAG_ID));
  }

  lemma PutCommits(s: Store, k: CacheKey, id: Uuid, x: Snapshot, v: Value)
    requires Inv(s) && Storable(x) && HasType(v, x.ftype) && Hosts(s, k, id, x)
    ensures
      var o := HandleUpdate(s, By(k), k.tenant, x.key, Setting(k, x, v), true);
      && o.committed && o.store == Updated(s, By(k), id, Setting(k, x, v))
  {
    hide Updated;
    CommittedIff(s, By(k), x.key, Setting(k, x, v), true, id);
    LookupIs(s, k.tenant, x.key, id);
  }

  lemma SettingKeepsFlags(s: Store, k: CacheKey, id: Uuid, x: Snapshot, v: Value)
    requires id in s.flags && (id, k.env) in s.configs
    ensures Updated(s, By(k), id, Setting(k, x, v)).flags == s.flags
    ensures
      var s' := Updated(s, By(k), id, Setting(k, x, v));
      (id, k.env) in s'.configs && s'.configs == s.configs[(id, k.env) := s'.configs[(id, k.env)]]
  {
    hide Updated, Apply, ConfigPatch;
    UpdatedRows(s, By(k), id, Setting(k, x, v));
    NoFlagLevelChange(k, x, v);
    ApplyNothing(Row(s, id, None));
  }

  lemma NoFlagLevelChange(k: CacheKey, x: Snapshot, v: Value)
    ensures Changes(Setting(k, x, v), FLAG_FIELDS) == map[]
  {
  }

  function SentBy(x: Snapshot, v: Value, f: Field): Datum {
    match f
    case EnabledField => Scalar(Bool(x.enabled))
    case ValueField => Scalar(v)
    case RolloutField => Scalar(Int(x.rollout))
    case _ => RuleList(x.rules)
  }

  lemma SettingSends(k: CacheKey, x: Snapshot, v: Value, f: Field)
    requires f in CONFIG_FIELDS
    ensures AsksFor(Setting(k, x, v), f, Some(k.env)) && Sent(Setting(k, x, v), f) == Some(SentBy(x, v, f))
  {
  }

  lemma PutStoresField(s: Store, k: CacheKey, id: Uuid, x: Snapshot, v: Value, f: Field)
    requires Inv(s) && Storable(x) && HasType(v, x.ftype) && Hosts(s, k, id, x) && f in CONFIG_FIELDS
    ensures
      var s' := Handle(s, Put(k, x, v)).store;
      && s'.flags == s.flags && (id, k.env) in s'.configs
      && var before, after := Get(Row(s, id, Some(k.env)), f), Get(Row(s', id, Some(k.env)), f);
      && PyEqDatum(after, SentBy(x, v, f))
      && (after == SentBy(x, v, f) <==> before == SentBy(x, v, f) || !PyEqDatum(before, SentBy(x, v, f)))
  {
    var p := Setting(k, x, v);
    PutCommits(s, k, id, x, v);
    SettingKeepsFlags(s, k, id, x, v);
    SettingSends(k, x, v, f);
    hide Updated, AsksFor, Sent, Inv, HandleUpdate, PyEqDatum, Get, Storable, CONFIG_FIELDS;
    StoredVersusSent(s, By(k), k.tenant, x.key, p, true, id, f, Some(k.env));
  }

  lemma PutStores(s: Store, k: CacheKey, id: Uuid, x: Snapshot, v: Value)
    requires Inv(s) && Storable(x) && HasType(v, x.ftype) && Hosts(s, k, id, x)
    ensures
      var s' := Handle(s, Put(k, x, v)).store;
      && Hosts(s', k, id, x)
      && var y, y' := Snap(s, k, id), Snap(s', k, id);
      && y'.enabled == x.enabled && y'.rollout == x.rollout
      && PyEq(y'.value, v) && (y.value == v || !PyEq(y.value, v) ==> y'.value == v)
      && (y.rules == [] || y.rules == x.rules ==> y'.rules == x.rules)
  {
    hide Inv, Handle, PyEqRule, Storable, HasType;
    PutStoresField(s, k, id, x, v, EnabledField);
    PutStoresField(s, k, id, x, v, ValueField);
    PutStoresField(s, k, id, x, v, RolloutField);
    PutStoresField(s, k, id, x, v, RulesField);
  }

  lemma PutMovesOneRow(s: Store, k: CacheKey, id: Uuid, x: Snapshot, v: Value)
    requires Inv(s) && Storable(x) && HasType(v, x.ftype) && Hosts(s, k, id, x)
    ensures
      var s' := Handle(s, Put(k, x, v)).store;
      && (id, k.env) in s'.configs
      && s'.flags == s.flags && s'.configs == s.configs[(id, k.env) := s'.configs[(id, k.env)]]
  {
    PutCommits(s, k, id, x, v);
    SettingKeepsFlags(s, k, id, x, v);
    hide HandleUpdate, Updated, Setting, Inv;
  }

  lemma RowIsStorable(s: Store, k: CacheKey, id: Uuid)
    requires Inv(s) && Joins(s, k, id)
    ensures Storable(Snap(s, k, id))
  {
    CompiledShape(s, k);
    assert Snap(s, k, id) in Compile(s, k);
  }

  /** A PUT of such a row, with a value the database takes, passes. */
  lemma PutPasses(db: Database, s: Store, k: CacheKey, id: Uuid, x: Snapshot, v: Value)
    requires Plain(db) && Inv(s) && Storable(x) && TakesRow(db, x) && HasType(v, x.ftype) && Hosts(s, k, id, x)
    requires (v.Str? ==> v == x.value) && (Snap(s, k, id).rules == [] || Snap(s, k, id).rules == x.rules)
    ensures Passes(db, s, Handle(s, Put(k, x, v)).store)
  {
    hide Inv, Handle, Storable, HasType;
    PutStores(s, k, id, x, v);
    PutMovesOneRow(s, k, id, x, v);
    var y := Snap(Handle(s, Put(k, x, v)).store, k, id);
    assert y.value.Str? ==> y.value == v;
  }

  /** Every row the invariant allows and the database takes is one that three requests bring about. */
  lemma StorableIsReachable(db: Database, k: CacheKey, x: Snapshot) returns (ws: seq<Write>)
    requires Plain(db) && Storable(x) && TakesRow(db, x)
    ensures Joins(Run(EMPTY, ws), k, FLAG_ID) && Snap(Run(EMPTY, ws), k, FLAG_ID) == x
    ensures Taken(db, ws)
  {
    var w1, w2, w3 := Creation(k, x), Put(k, x, Stepping(x.value)), Put(k, x, x.value);
    ws := [w1] + [w2] + [w3];
    var s1, s2 := Run(EMPTY, [w1]), Run(EMPTY, [w1] + [w2]);
    hide Handle, Run, Inv, PyEq, Compile, Passes, Taken;
    RunStep(EMPTY, [w1], w2);
    RunStep(EMPTY, [w1] + [w2], w3);
    ReachableInv(EMPTY, [w1] + [w2]);
    CreationHosts(db, k, x);
    PutStores(s1, k, FLAG_ID, x, Stepping(x.value));
    RowIsStorable(s2, k, FLAG_ID);
    PutStores(s2, k, FLAG_ID, x, x.value);
    SteppingDiffers(Snap(s2, k, FLAG_ID).value, x.value, x.ftype);
    PutPasses(db, s1, k, FLAG_ID, x, Stepping(x.value));
    PutPasses(db, s2, k, FLAG_ID, x, x.value);
    TakenStep(db, [w1], w2);
    TakenStep(db, [w1] + [w2], w3);
  }

  lemma SteppingDiffers(y: Value, v: Value, t: FlagType)
    requires HasType(v, t) && HasType(y, t) && PyEq(y, Stepping(v))
    ensures y == v || !PyEq(y, v)
  {
    if t != Number {
      TypedEquality(y, v, t);
    }
  }

  lemma RowIsTaken(db: Database, s: Store, k: CacheKey, x: Snapshot)
    requires TakesAll(db, s) && x in Compile(s, k)
    ensures TakesRow(db, x)
  {
    var id := Origin(s, k, x);
  }

  /** Whatever else the database checks of values and rule lists: the compiled rows of the stores it lets the
      service reach are exactly the well-formed rows that it takes. */
  lemma ReachableRowsAreStorable(db: Database, k: CacheKey, x: Snapshot)
    requires Plain(db)
    ensures (exists ws :: Taken(db, ws) && x in Compile(Run(EMPTY, ws), k)) <==> Storable(x) && TakesRow(db, x)
  {
    hide Taken, TakesRow, TakesAll, Storable, Run, Inv;
    if Storable(x) && TakesRow(db, x) {
      var ws := StorableIsReachable(db, k, x);
      assert x in Compile(Run(EMPTY, ws), k);
    }
    if ws :| Taken(db, ws) && x in Compile(Run(EMPTY, ws), k) {
      ReachableInv(EMPTY, ws);
      CompiledShape(Run(EMPTY, ws), k);
      TakenRunsHoldTakenRows(db, ws);
      RowIsTaken(db, Run(EMPTY, ws), k, x);
    }
  }

  // ----- Runs that show less than is said -----

  /** The flag that leaks on without its pinned attribute is one the service can be brought to hold. */
  lemma LeakIsReachable(p: Platform, db: Database, k: CacheKey) returns (ws: seq<Write>)
    requires Plain(db) && db.rules(PinnedOff().rules)
    ensures
      var s := Run(EMPTY, ws);
      && Taken(db, ws) && Joins(s, k, FLAG_ID)
      && Evaluate(p, Snap(s, k, FLAG_ID), "u", map["plan" := ScalarAttr(Str("free"))]).value == Some(Bool(false))
      && Evaluate(p, Snap(s, k, FLAG_ID), "u", map[]).value == Some(Bool(true))
  {
    MissingAttributeTurnsFlagOn(p);
    ws := StorableIsReachable(db, k, PinnedOff());
  }

  function Wrong(): Rule {
    Rule(Some("plan"), Some("eq"), [Str("pro")], Some(Int(1)))
  }

  function Right(): Rule {
    Wrong().(value := Some(Bool(true)))
  }

  function WithRule(r: Rule): Snapshot {
    Snapshot("f", Boolean, Bool(false), true, Bool(true), 0, [r], false)
  }

  function Correction(k: CacheKey): Write {
    UpdateReq(By(k), k.tenant, "f",
              FlagUpdate(Unset, Unset, Unset, Some(k.env), Unset, Unset, Unset, Given([Right()])), true)
  }

  lemma RuleServes(p: Platform, r: Rule)
    requires r == Wrong() || r == Right()
    ensures Evaluate(p, WithRule(r), "u", map["plan" := ScalarAttr(Str("pro"))]).value == r.value
  {
    var ctx: Context := map["plan" := ScalarAttr(Str("pro"))];
    assert AttrEq(Actual(r, "u", ctx), r.values[0]);
    assert Scan(p, [r], "u", ctx) == Some(r);
  }

  lemma CorrectionPatches(s: Store, k: CacheKey)
    requires Joins(s, k, FLAG_ID) && s.configs[(FLAG_ID, k.env)].rules == [Wrong()]
    ensures FlagPatch(s, FLAG_ID, Correction(k).update) == map[]
    ensures ConfigPatch(s, FLAG_ID, Correction(k).update) == map[]
  {
    var p := Correction(k).update;
    assert PyEqRule(Wrong(), Right());
    assert Changes(p, FLAG_FIELDS) == map[];
    assert forall f :: f in Changes(p, CONFIG_FIELDS) ==> f == RulesField;
  }

  lemma CorrectionIsDropped(s: Store, k: CacheKey)
    requires Inv(s) && Joins(s, k, FLAG_ID) && Snap(s, k, FLAG_ID) == WithRule(Wrong())
    ensures Handle(s, Correction(k)).committed && Handle(s, Correction(k)).store == s
  {
    var p := Correction(k).update;
    assert ValidRule(Right());
    CorrectionPatches(s, k);
    hide FlagPatch, ConfigPatch, Inv, ValidRule;
    CommittedIff(s, By(k), "f", p, true, FLAG_ID);
    LookupIs(s, k.tenant, "f", FLAG_ID);
  }

  /** Correcting a boolean flag's rule from 1 to true is dropped by a reachable store: the PUT succeeds, store
      and log stay as they are, and the matching user is still served the number, not true. */
  lemma CorrectedRuleIsDropped(p: Platform, db: Database, k: CacheKey) returns (ws: seq<Write>)
    requires Plain(db) && db.rules([Wrong()])
    ensures Taken(db, ws + [Correction(k)])
    ensures
      var s, s' := Run(EMPTY, ws), Run(EMPTY, ws + [Correction(k)]);
      var ctx: Context := map["plan" := ScalarAttr(Str("pro"))];
      && Handle(s, Correction(k)).committed && s' == s && Joins(s, k, FLAG_ID)
      && Evaluate(p, Snap(s', k, FLAG_ID), "u", ctx).value == Some(Int(1))
      && Evaluate(p, Snap(s', k, FLAG_ID).(rules := [Right()]), "u", ctx).value == Some(Bool(true))
  {
    hide Run, Taken, Handle, Inv, Evaluate;
    ws := StorableIsReachable(db, k, WithRule(Wrong()));
    ReachableInv(EMPTY, ws);
    RunStep(EMPTY, ws, Correction(k));
    CorrectionIsDropped(Run(EMPTY, ws), k);
    TakenStep(db, ws, Correction(k));
    RuleServes(p, Wrong());
    RuleServes(p, Right());
  }

  function CreateDescribed(k: CacheKey): Write {
    CreateReq(By(k), k.tenant, FlagCreate("f", "n", Some("d"), Boolean, Bool(false)), FLAG_ID, true)
  }

  /** One creation with a description is enough for replay to lose something. */
  lemma ReplayLosesDescription(k: CacheKey)
    ensures
      var s := Run(EMPTY, [CreateDescribed(k)]);
      && FLAG_ID in s.flags && s.flags[FLAG_ID].description == Some("d")
      && FLAG_ID in Replay(s.log).flags && Replay(s.log).flags[FLAG_ID].description == None
  {
    var w := CreateDescribed(k);
    DescribedRun(k);
    ReplayRebuildsStore([w]);
    hide Run, Handle;
    assert !Audit.Described(Run(EMPTY, [w]).log, FLAG_ID);
  }

  function Retirement(k: CacheKey): Write {
    ArchiveReq(By(k), k.tenant, "f", "now", true)
  }

  lemma DescribedRun(k: CacheKey)
    ensures Run(EMPTY, [CreateDescribed(k)]) == Created(EMPTY, By(k), CreateDescribed(k).create, FLAG_ID)
  {
    assert [CreateDescribed(k)][..0] == [];
    assert Lookup(EMPTY, k.tenant, "f").None?;
  }

  lemma Retired(s: Store, k: CacheKey)
    requires Inv(s) && IsRow(s, k.tenant, "f", FLAG_ID) && s.flags[FLAG_ID].archivedAt.None?
    ensures Handle(s, Retirement(k)).store == Archived(s, By(k), FLAG_ID, "now")
  {
    LookupIs(s, k.tenant, "f", FLAG_ID);
  }

  lemma RetirementRun(k: CacheKey)
    ensures
      var w := CreateDescribed(k);
      Run(EMPTY, [w] + [Retirement(k)]) == Archived(Created(EMPTY, By(k), w.create, FLAG_ID), By(k), FLAG_ID, "now")
  {
    DescribedRun(k);
    hide Run, Inv, Handle;
    RunStep(EMPTY, [CreateDescribed(k)], Retirement(k));
    ReachableInv(EMPTY, [CreateDescribed(k)]);
    Retired(Run(EMPTY, [CreateDescribed(k)]), k);
  }

  /** An archived flag is left out even when it is asked for: after one creation and one archival the response
      has no entry for it, though the flag's default is there to be served. */
  lemma ArchivedFlagIsLeftOut(p: Platform, k: CacheKey, rows: seq<Snapshot>, userId: string, ctx: Context)
    requires Lists(rows, Compile(Run(EMPTY, [CreateDescribed(k)] + [Retirement(k)]), k))
    ensures
      var s := Run(EMPTY, [CreateDescribed(k)] + [Retirement(k)]);
      && FLAG_ID in s.flags && s.flags[FLAG_ID].tenant == k.tenant && s.flags[FLAG_ID].key == "f"
      && s.flags[FLAG_ID].archivedAt.Some? && s.flags[FLAG_ID].defaultValue == Bool(false)
      && "f" !in EvaluateRows(p, rows, userId, ctx, Some(["f"]))
  {
    RetirementRun(k);
    hide Run;
    AnsweredIffActive(p, [CreateDescribed(k)] + [Retirement(k)], k, rows, userId, ctx, Some(["f"]), FLAG_ID);
  }
}
