/** The tenant-scoped flag store, its audit log, and what each write request does to them:
    the specification against which the service's methods are proved. */
module Store {
  import opened Base
  import opened Keys
  import opened Engine

  // ----- Rows -----

  datatype Flag = Flag(tenant: Uuid, key: string, ftype: FlagType, name: string,
                       description: Option<string>, defaultValue: Value, archivedAt: Option<string>)

  datatype Config = Config(tenant: Uuid, enabled: bool, value: Value, rollout: int, rules: seq<Rule>)

  /** An ORM object whose attributes are read and set by name. */
  datatype Entity = FlagRow(flag: Flag) | ConfigRow(config: Config)

  datatype Field = KeyField | TypeField | NameField | DescriptionField | DefaultField | ArchivedField
                 | EnabledField | ValueField | RolloutField | RulesField

  /** A dict from attribute names to values: a set of changes, or one side of an audit record. */
  type Patch = map<Field, Datum>

  function TextDatum(t: Option<string>): Datum { if t.Some? then Scalar(Str(t.value)) else Null }
  function AsText(d: Datum): string { if d.Scalar? && d.v.Str? then d.v.s else "" }
  function AsOptText(d: Datum): Option<string> { if d.Scalar? && d.v.Str? then Some(d.v.s) else None }
  function AsValue(d: Datum): Value { if d.Scalar? then d.v else Str("") }
  function AsBool(d: Datum): bool { d.Scalar? && d.v.Bool? && d.v.b }
  function AsInt(d: Datum): int { if d.Scalar? && d.v.Int? then d.v.i else 0 }
  function AsRules(d: Datum): seq<Rule> { if d.RuleList? then d.rs else [] }

  /** getattr */
  function Get(e: Entity, k: Field): Datum {
    match e
    case FlagRow(f) =>
      (match k
       case KeyField => Scalar(Str(f.key))
       case TypeField => Scalar(Str(TypeName(f.ftype)))
       case NameField => Scalar(Str(f.name))
       case DescriptionField => TextDatum(f.description)
       case DefaultField => Scalar(f.defaultValue)
       case ArchivedField => TextDatum(f.archivedAt)
       case _ => Null)
    case ConfigRow(c) =>
      (match k
       case EnabledField => Scalar(Bool(c.enabled))
       case ValueField => Scalar(c.value)
       case RolloutField => Scalar(Int(c.rollout))
       case RulesField => RuleList(c.rules)
       case _ => Null)
  }

  /** setattr */
  function SetAttr(e: Entity, k: Field, d: Datum): Entity {
    match e
    case FlagRow(f) =>
      (match k
       case NameField => FlagRow(f.(name := AsText(d)))
       case DescriptionField => FlagRow(f.(description := AsOptText(d)))
       case DefaultField => FlagRow(f.(defaultValue := AsValue(d)))
       case ArchivedField => FlagRow(f.(archivedAt := AsOptText(d)))
       case _ => e)
    case ConfigRow(c) =>
      (match k
       case EnabledField => ConfigRow(c.(enabled := AsBool(d)))
       case ValueField => ConfigRow(c.(value := AsValue(d)))
       case RolloutField => ConfigRow(c.(rollout := AsInt(d)))
       case RulesField => ConfigRow(c.(rules := AsRules(d)))
       case _ => e)
  }

  /** Whether `d` is a value that attribute `k` of this row can hold. */
  predicate Fits(e: Entity, k: Field, d: Datum) {
    match e
    case FlagRow(_) =>
      || (k == NameField && d.Scalar? && d.v.Str?)
      || (k in {DescriptionField, ArchivedField} && (d.Null? || (d.Scalar? && d.v.Str?)))
      || (k == DefaultField && d.Scalar?)
    case ConfigRow(_) =>
      || (k == EnabledField && d.Scalar? && d.v.Bool?)
      || (k == ValueField && d.Scalar?)
      || (k == RolloutField && d.Scalar? && d.v.Int?)
      || (k == RulesField && d.RuleList?)
  }

  predicate FitsAll(e: Entity, p: Patch) {
    forall k :: k in p ==> Fits(e, k, p[k])
  }

  function At(p: Patch, k: Field, otherwise: Datum): Datum {
    if k in p then p[k] else otherwise
  }

  /** The row after every attribute named in `p` has been set. */
  function Apply(e: Entity, p: Patch): Entity {
    match e
    case FlagRow(f) =>
      FlagRow(f.(name := AsText(At(p, NameField, Get(e, NameField))),
                 description := AsOptText(At(p, DescriptionField, Get(e, DescriptionField))),
                 defaultValue := AsValue(At(p, DefaultField, Get(e, DefaultField))),
                 archivedAt := AsOptText(At(p, ArchivedField, Get(e, ArchivedField)))))
    case ConfigRow(c) =>
      ConfigRow(c.(enabled := AsBool(At(p, EnabledField, Get(e, EnabledField))),
                   value := AsValue(At(p, ValueField, Get(e, ValueField))),
                   rollout := AsInt(At(p, RolloutField, Get(e, RolloutField))),
                   rules := AsRules(At(p, RulesField, Get(e, RulesField)))))
  }

  /** Exactly the named attributes change, each to the named value. */
  lemma ApplyGet(e: Entity, p: Patch, k: Field)
    requires FitsAll(e, p)
    ensures Get(Apply(e, p), k) == At(p, k, Get(e, k))
  {
    assert k in p ==> Fits(e, k, p[k]);
  }

  /** Rows of one kind with the same tenant and, for flags, the same key and type. */
  predicate SameIdentity(x: Entity, y: Entity) {
    if x.FlagRow? then
      y.FlagRow? && x.flag.tenant == y.flag.tenant && x.flag.key == y.flag.key && x.flag.ftype == y.flag.ftype
    else y.ConfigRow? && x.config.tenant == y.config.tenant
  }

  /** Two rows that agree on identity and on every attribute are the same row. */
  lemma RowsEqual(x: Entity, y: Entity)
    requires SameIdentity(x, y)
    requires forall k :: Get(x, k) == Get(y, k)
    ensures x == y
  {
    assert Get(x, NameField) == Get(y, NameField);
    assert Get(x, DescriptionField) == Get(y, DescriptionField);
    assert Get(x, DefaultField) == Get(y, DefaultField);
    assert Get(x, ArchivedField) == Get(y, ArchivedField);
    assert Get(x, EnabledField) == Get(y, EnabledField);
    assert Get(x, ValueField) == Get(y, ValueField);
    assert Get(x, RolloutField) == Get(y, RolloutField);
    assert Get(x, RulesField) == Get(y, RulesField);
  }

  // ----- The database -----

  datatype Action = FlagCreated | FlagUpdated | FlagArchived | ConfigUpdated

  datatype Record = Record(tenant: Uuid, flagId: Uuid, env: Option<Env>, action: Action,
                           oldValue: Option<Patch>, newValue: Patch, actor: Uuid)

  /** Three tables: flags and configs by primary key, and the log in id order. */
  datatype Store = Store(flags: map<Uuid, Flag>, configs: map<(Uuid, Env), Config>, log: seq<Record>)

  const EMPTY: Store := Store(map[], map[], [])

  predicate HasRow(s: Store, id: Uuid, env: Option<Env>) {
    if env.None? then id in s.flags else (id, env.value) in s.configs
  }

  function Row(s: Store, id: Uuid, env: Option<Env>): Entity
    requires HasRow(s, id, env)
  {
    if env.None? then FlagRow(s.flags[id]) else ConfigRow(s.configs[(id, env.value)])
  }

  function PutRow(s: Store, id: Uuid, env: Option<Env>, e: Entity): Store
    requires e.FlagRow? <==> env.None?
  {
    if env.None? then s.(flags := s.flags[id := e.flag]) else s.(configs := s.configs[(id, env.value) := e.config])
  }

  // ----- Requests -----

  /** The authenticated API key: its id and the tenant it belongs to. */
  datatype Caller = Caller(keyId: Uuid, tenant: Uuid)

  /** A payload field: not sent, sent as null, or sent with a value. */
  datatype Slot<T> = Unset | Nulled | Given(v: T)

  datatype FlagCreate = FlagCreate(key: string, name: string, description: Option<string>,
                                   ftype: FlagType, defaultValue: Value)

  datatype FlagUpdate = FlagUpdate(name: Slot<string>, description: Slot<string>, defaultValue: Slot<Value>,
                                   environment: Option<Env>, enabled: Slot<bool>, value: Slot<Value>,
                                   rollout: Slot<int>, rules: Slot<seq<Rule>>)

  /** `newId` is the UUID drawn for a new row, `now` the clock text, and `commits` whether the
      database accepts the commit; `path` is the tenant named in the URL. */
  datatype Write =
    | CreateReq(caller: Caller, path: Uuid, create: FlagCreate, newId: Uuid, commits: bool)
    | UpdateReq(caller: Caller, path: Uuid, key: string, update: FlagUpdate, commits: bool)
    | ArchiveReq(caller: Caller, path: Uuid, key: string, now: string, commits: bool)

  datatype CacheKey = CacheKey(tenant: Uuid, env: Env)

  datatype Response = Body(id: Uuid, flag: Flag, configs: map<Env, Config>) | Fail(status: int)

  /** `dels` are the cache keys the request drops afterwards; `committed` tells whether the
      request reached a successful commit. */
  datatype Outcome = Outcome(store: Store, response: Response, committed: bool, dels: set<CacheKey>)

  predicate ValidCreate(p: FlagCreate) {
    ValidFlagKey(p.key) && 1 <= |p.name| <= 255 && HasType(p.defaultValue, p.ftype)
  }

  predicate ValidUpdate(p: FlagUpdate) {
    && (p.name.Given? ==> 1 <= |p.name.v| <= 255)
    && (p.rollout.Given? ==> 0 <= p.rollout.v <= 100)
    && (p.rules.Given? ==> ValidRules(p.rules.v))
    && (!p.enabled.Unset? || !p.value.Unset? || !p.rollout.Unset? || !p.rules.Unset? ==> p.environment.Some?)
  }

  /** The type check on a sent value; an explicit null has no type. */
  predicate SlotHasType(v: Slot<Value>, t: FlagType) {
    v.Unset? || (v.Given? && HasType(v.v, t))
  }

  const FLAG_FIELDS: set<Field> := {NameField, DescriptionField, DefaultField}
  const CONFIG_FIELDS: set<Field> := {EnabledField, RolloutField, RulesField, ValueField}

  /** The value a payload asks attribute `k` to take. An explicit null asks for something only
      in `description`. */
  function Sent(p: FlagUpdate, k: Field): Option<Datum> {
    match k
    case NameField => if p.name.Given? then Some(Scalar(Str(p.name.v))) else None
    case DescriptionField =>
      (match p.description
       case Unset => None
       case Nulled => Some(Null)
       case Given(t) => Some(Scalar(Str(t))))
    case DefaultField => if p.defaultValue.Given? then Some(Scalar(p.defaultValue.v)) else None
    case EnabledField => if p.enabled.Given? then Some(Scalar(Bool(p.enabled.v))) else None
    case RolloutField => if p.rollout.Given? then Some(Scalar(Int(p.rollout.v))) else None
    case RulesField => if p.rules.Given? then Some(RuleList(p.rules.v)) else None
    case ValueField => if p.value.Given? then Some(Scalar(p.value.v)) else None
    case _ => None
  }

  function Changes(p: FlagUpdate, fields: set<Field>): Patch {
    map k | k in fields && Sent(p, k).Some? :: Sent(p, k).value
  }

  function DropUnchanged(e: Entity, changes: Patch): Patch {
    map k | k in changes && !PyEqDatum(Get(e, k), changes[k]) :: changes[k]
  }

  function OldValues(e: Entity, p: Patch): Patch {
    map k | k in p :: Get(e, k)
  }

  function SeedValue(t: FlagType, d: Value): Value {
    if t == Boolean then Bool(d.Bool? && !d.b) else d
  }

  // ----- What each request does -----

  ghost predicate IsRow(s: Store, tenant: Uuid, key: string, id: Uuid) {
    id in s.flags && s.flags[id].tenant == tenant && s.flags[id].key == key
  }

  /** The row with this tenant and key, if any. */
  ghost function Lookup(s: Store, tenant: Uuid, key: string): (r: Option<Uuid>)
    ensures r.None? <==> forall id :: !IsRow(s, tenant, key, id)
    ensures r.Some? ==> IsRow(s, tenant, key, r.value)
  {
    if exists id :: IsRow(s, tenant, key, id) then
      var id :| IsRow(s, tenant, key, id);
      Some(id)
    else None
  }

  function AllKeys(tenant: Uuid): set<CacheKey> {
    {CacheKey(tenant, Development), CacheKey(tenant, Staging), CacheKey(tenant, Production)}
  }

  function BodyOf(s: Store, id: Uuid): Response
    requires id in s.flags
  {
    Body(id, s.flags[id], map e: Env | (id, e) in s.configs :: s.configs[(id, e)])
  }

  function Rejected(s: Store, status: int): Outcome {
    Outcome(s, Fail(status), false, {})
  }

  /** The check constraints of the config table. */
  predicate ConfigAllowed(c: Config) {
    0 <= c.rollout <= 100 && |c.rules| <= 50
  }

  function NewFlag(tenant: Uuid, p: FlagCreate): Flag {
    Flag(tenant, p.key, p.ftype, p.name, p.description, p.defaultValue, None)
  }

  function SeedConfig(tenant: Uuid, t: FlagType, d: Value): Config {
    Config(tenant, false, SeedValue(t, d), 100, [])
  }

  function SeedConfigs(id: Uuid, c: Config): (m: map<(Uuid, Env), Config>)
    ensures forall i, e: Env :: (i, e) in m <==> i == id
    ensures forall e: Env :: m[(id, e)] == c
  {
    map e: Env | true :: (id, e) := c
  }

  function CreatedRecord(c: Caller, id: Uuid, p: FlagCreate): Record {
    Record(c.tenant, id, None, FlagCreated, None,
           map[KeyField := Scalar(Str(p.key)), NameField := Scalar(Str(p.name)),
               TypeField := Scalar(Str(TypeName(p.ftype))), DefaultField := Scalar(p.defaultValue)],
           c.keyId)
  }

  function Created(s: Store, c: Caller, p: FlagCreate, newId: Uuid): Store {
    Store(s.flags[newId := NewFlag(c.tenant, p)],
          s.configs + SeedConfigs(newId, SeedConfig(c.tenant, p.ftype, p.defaultValue)),
          s.log + [CreatedRecord(c, newId, p)])
  }

  ghost function HandleCreate(s: Store, c: Caller, path: Uuid, p: FlagCreate, newId: Uuid, commits: bool): Outcome {
    if path != c.tenant then Rejected(s, 404)
    else if !ValidCreate(p) then Rejected(s, 422)
    else if newId in s.flags || Lookup(s, c.tenant, p.key).Some? then Rejected(s, 409)
    else if !commits then Rejected(s, 500)
    else
      var s' := Created(s, c, p, newId);
      Outcome(s', BodyOf(s', newId), true, AllKeys(c.tenant))
  }

  function UpdateRecord(s: Store, c: Caller, id: Uuid, env: Option<Env>, p: Patch): Record
    requires HasRow(s, id, env)
  {
    Record(c.tenant, id, env, if env.None? then FlagUpdated else ConfigUpdated,
           Some(OldValues(Row(s, id, env), p)), p, c.keyId)
  }

  /** Writes one scope and its audit record; an empty patch writes nothing. */
  function WriteScope(s: Store, c: Caller, id: Uuid, env: Option<Env>, p: Patch): Store
    requires HasRow(s, id, env)
  {
    if p == map[] then s
    else PutRow(s, id, env, Apply(Row(s, id, env), p)).(log := s.log + [UpdateRecord(s, c, id, env, p)])
  }

  function FlagPatch(s: Store, id: Uuid, p: FlagUpdate): Patch
    requires id in s.flags
  {
    DropUnchanged(Row(s, id, None), Changes(p, FLAG_FIELDS))
  }

  function ConfigPatch(s: Store, id: Uuid, p: FlagUpdate): Patch
    requires p.environment.Some? ==> (id, p.environment.value) in s.configs
  {
    if p.environment.None? then map[] else DropUnchanged(Row(s, id, p.environment), Changes(p, CONFIG_FIELDS))
  }

  function Updated(s: Store, c: Caller, id: Uuid, p: FlagUpdate): Store
    requires id in s.flags
    requires p.environment.Some? ==> (id, p.environment.value) in s.configs
  {
    var s1 := WriteScope(s, c, id, None, FlagPatch(s, id, p));
    if p.environment.None? then s1 else WriteScope(s1, c, id, p.environment, ConfigPatch(s, id, p))
  }

  /** The status with which an update of an existing flag is refused, in the order of the checks. */
  function Refusal(s: Store, id: Uuid, p: FlagUpdate): Option<int>
    requires id in s.flags
  {
    if !SlotHasType(p.defaultValue, s.flags[id].ftype) then Some(422)
    else if p.environment.None? then None
    else if (id, p.environment.value) !in s.configs then Some(404)
    else if !SlotHasType(p.value, s.flags[id].ftype) then Some(422)
    else None
  }

  function UpdateFound(s: Store, c: Caller, id: Uuid, p: FlagUpdate, commits: bool): Outcome
    requires id in s.flags
  {
    if Refusal(s, id, p).Some? then Rejected(s, Refusal(s, id, p).value)
    else
      var s' := Updated(s, c, id, p);
      if !commits || (p.environment.Some? && !ConfigAllowed(s'.configs[(id, p.environment.value)])) then
        Rejected(s, 500)
      else Outcome(s', BodyOf(s', id), true,
                   if FlagPatch(s, id, p) != map[] || p.environment.None? then AllKeys(c.tenant)
                   else {CacheKey(c.tenant, p.environment.value)})
  }

  ghost function HandleUpdate(s: Store, c: Caller, path: Uuid, key: string, p: FlagUpdate, commits: bool): Outcome {
    if path != c.tenant then Rejected(s, 404)
    else if !ValidUpdate(p) then Rejected(s, 422)
    else if Lookup(s, c.tenant, key).None? then Rejected(s, 404)
    else
      UpdateFound(s, c, Lookup(s, c.tenant, key).value, p, commits)
  }

  function ArchivePatch(now: string): Patch {
    map[ArchivedField := Scalar(Str(now))]
  }

  function ArchiveRecord(c: Caller, id: Uuid, now: string): Record {
    Record(c.tenant, id, None, FlagArchived, Some(map[ArchivedField := Null]), ArchivePatch(now), c.keyId)
  }

  function Archived(s: Store, c: Caller, id: Uuid, now: string): Store
    requires id in s.flags
  {
    Store(s.flags[id := s.flags[id].(archivedAt := Some(now))], s.configs, s.log + [ArchiveRecord(c, id, now)])
  }

  ghost function HandleArchive(s: Store, c: Caller, path: Uuid, key: string, now: string, commits: bool): Outcome {
    if path != c.tenant || Lookup(s, c.tenant, key).None? then Rejected(s, 404)
    else
      var id := Lookup(s, c.tenant, key).value;
      if s.flags[id].archivedAt.Some? then Outcome(s, BodyOf(s, id), false, {})
      else if !commits then Rejected(s, 500)
      else
        var s' := Archived(s, c, id, now);
        Outcome(s', BodyOf(s', id), true, AllKeys(c.tenant))
  }

  ghost function Handle(s: Store, w: Write): Outcome {
    match w
    case CreateReq(c, path, p, newId, ok) => HandleCreate(s, c, path, p, newId, ok)
    case UpdateReq(c, path, key, p, ok) => HandleUpdate(s, c, path, key, p, ok)
    case ArchiveReq(c, path, key, now, ok) => HandleArchive(s, c, path, key, now, ok)
  }

  /** All or nothing: a refused request, for whatever reason and however far it got, leaves flags, configs
      and log alone and drops no cache key; and nothing but a commit ever changes the store. */
  lemma RefusalLeavesNoTrace(s: Store, w: Write)
    ensures
      var o := Handle(s, w);
      && (o.response.Fail? ==> o.store == s && o.dels == {} && !o.committed)
      && (!o.committed ==> o.store == s && o.dels == {})
  {
  }

  /** The store after a serial run of writes. */
  ghost function Run(s: Store, ws: seq<Write>): Store {
    if ws == [] then s else Handle(Run(s, ws[..|ws| - 1]), ws[|ws| - 1]).store
  }

  lemma RunStep(s: Store, ws: seq<Write>, w: Write)
    ensures Run(s, ws + [w]) == Handle(Run(s, ws), w).store
  {
    assert (ws + [w])[..|ws|] == ws;
  }

  lemma {:induction false} RunConcat(s: Store, a: seq<Write>, b: seq<Write>)
    ensures Run(s, a + b) == Run(Run(s, a), b)
  {
    if b == [] {
      assert a + b == a;
    } else {
      var n := |b| - 1;
      assert (a + b)[..|a + b| - 1] == a + b[..n];
      RunConcat(s, a, b[..n]);
    }
  }

  // ----- What every reachable store satisfies -----

  ghost predicate FlagOk(f: Flag) {
    ValidFlagKey(f.key) && HasType(f.defaultValue, f.ftype)
  }

  ghost predicate ConfigOk(f: Flag, c: Config) {
    c.tenant == f.tenant && HasType(c.value, f.ftype) && ConfigAllowed(c) && ValidRules(c.rules)
  }

  predicate SameName(f: Flag, g: Flag) {
    f.tenant == g.tenant && f.key == g.key
  }

  /** Keys are unique per tenant; every flag has exactly one config per environment, in its
      tenant; values carry the flag's type; the log speaks only of existing flags. */
  ghost predicate Inv(s: Store) {
    && (forall i, j :: i in s.flags && j in s.flags && SameName(s.flags[i], s.flags[j]) ==> i == j)
    && (forall id, e: Env :: (id, e) in s.configs <==> id in s.flags)
    && (forall id :: id in s.flags ==> FlagOk(s.flags[id]))
    && (forall id, e: Env :: (id, e) in s.configs && id in s.flags ==> ConfigOk(s.flags[id], s.configs[(id, e)]))
    && (forall i :: 0 <= i < |s.log| ==>
          s.log[i].flagId in s.flags && s.log[i].tenant == s.flags[s.log[i].flagId].tenant)
  }

  lemma LookupIs(s: Store, tenant: Uuid, key: string, id: Uuid)
    requires Inv(s) && IsRow(s, tenant, key, id)
    ensures Lookup(s, tenant, key) == Some(id)
  {
  }

  lemma PatchesFit(s: Store, id: Uuid, p: FlagUpdate)
    requires id in s.flags
    requires p.environment.Some? ==> (id, p.environment.value) in s.configs
    ensures FitsAll(Row(s, id, None), FlagPatch(s, id, p))
    ensures p.environment.Some? ==> FitsAll(Row(s, id, p.environment), ConfigPatch(s, id, p))
  {
  }

  lemma NameIsNew(s: Store, f: Flag)
    requires Lookup(s, f.tenant, f.key).None?
    ensures forall i :: i in s.flags ==> !SameName(s.flags[i], f)
  {
    forall i | i in s.flags ensures !SameName(s.flags[i], f) {
      assert !IsRow(s, f.tenant, f.key, i);
    }
  }

  lemma AddedKeepsInv(s: Store, s': Store, id: Uuid, f: Flag, g: Config, r: Record)
    requires Inv(s) && id !in s.flags && (forall i :: i in s.flags ==> !SameName(s.flags[i], f))
    requires s' == Store(s.flags[id := f], s.configs + SeedConfigs(id, g), s.log + [r])
    requires FlagOk(f) && ConfigOk(f, g) && r.flagId == id && r.tenant == f.tenant
    ensures Inv(s')
  {
    hide FlagOk, ConfigOk, SeedConfigs;
    assert forall e: Env :: (id, e) in s'.configs && s'.configs[(id, e)] == g;
    assert forall i, e: Env :: i != id && (i, e) in s.configs ==> s'.configs[(i, e)] == s.configs[(i, e)];
    forall i | 0 <= i < |s'.log|
      ensures s'.log[i].flagId in s'.flags && s'.log[i].tenant == s'.flags[s'.log[i].flagId].tenant
    {
      assert i < |s.log| ==> s'.log[i] == s.log[i];
    }
  }

  lemma CreatedKeepsInv(s: Store, c: Caller, p: FlagCreate, newId: Uuid)
    requires Inv(s) && newId !in s.flags && ValidCreate(p)
    requires Lookup(s, c.tenant, p.key).None?
    ensures Inv(Created(s, c, p, newId))
  {
    hide Inv;
    var f, g := NewFlag(c.tenant, p), SeedConfig(c.tenant, p.ftype, p.defaultValue);
    NameIsNew(s, f);
    AddedKeepsInv(s, Created(s, c, p, newId), newId, f, g, CreatedRecord(c, newId, p));
  }

  lemma AppliedFlagOk(f: Flag, p: Patch)
    requires FlagOk(f) && FitsAll(FlagRow(f), p)
    requires DefaultField in p ==> HasType(AsValue(p[DefaultField]), f.ftype)
    ensures FlagOk(Apply(FlagRow(f), p).flag)
  {
  }

  lemma AppliedConfigOk(f: Flag, c: Config, p: Patch)
    requires ConfigOk(f, c) && FitsAll(ConfigRow(c), p) && ConfigAllowed(Apply(ConfigRow(c), p).config)
    requires ValueField in p ==> HasType(AsValue(p[ValueField]), f.ftype)
    requires RulesField in p ==> ValidRules(AsRules(p[RulesField]))
    ensures ConfigOk(f, Apply(ConfigRow(c), p).config)
  {
  }

  lemma WriteScopeKeepsInv(s: Store, c: Caller, id: Uuid, env: Option<Env>, p: Patch)
    requires Inv(s) && HasRow(s, id, env) && c.tenant == s.flags[id].tenant && FitsAll(Row(s, id, env), p)
    requires DefaultField in p ==> HasType(AsValue(p[DefaultField]), s.flags[id].ftype)
    requires ValueField in p ==> HasType(AsValue(p[ValueField]), s.flags[id].ftype)
    requires RulesField in p ==> ValidRules(AsRules(p[RulesField]))
    requires env.Some? ==> ConfigAllowed(Apply(Row(s, id, env), p).config)
    ensures Inv(WriteScope(s, c, id, env, p))
  {
    hide Apply, FitsAll, ValidRules, HasType, ConfigAllowed, OldValues;
    ApplyKeepsIdentity(Row(s, id, env), p);
    if env.None? {
      AppliedFlagOk(s.flags[id], p);
    } else {
      assert ConfigOk(s.flags[id], s.configs[(id, env.value)]);
      AppliedConfigOk(s.flags[id], s.configs[(id, env.value)], p);
    }
  }

  lemma PatchTypes(s: Store, id: Uuid, p: FlagUpdate)
    requires id in s.flags && ValidUpdate(p)
    requires p.environment.Some? ==> (id, p.environment.value) in s.configs
    requires SlotHasType(p.defaultValue, s.flags[id].ftype)
    requires p.environment.Some? ==> SlotHasType(p.value, s.flags[id].ftype)
    ensures
      var fp, cp := FlagPatch(s, id, p), ConfigPatch(s, id, p);
      && fp.Keys <= FLAG_FIELDS && cp.Keys <= CONFIG_FIELDS
      && (DefaultField in fp ==> HasType(AsValue(fp[DefaultField]), s.flags[id].ftype))
      && (ValueField in cp ==> HasType(AsValue(cp[ValueField]), s.flags[id].ftype))
      && (RulesField in cp ==> ValidRules(AsRules(cp[RulesField])))
  {
  }

  /** Both scopes of an update, as rows: the flag row and at most one config row change. */
  lemma UpdatedRows(s: Store, c: Caller, id: Uuid, p: FlagUpdate)
    requires id in s.flags
    requires p.environment.Some? ==> (id, p.environment.value) in s.configs
    ensures
      var s' := Updated(s, c, id, p);
      && s'.flags == s.flags[id := Apply(Row(s, id, None), FlagPatch(s, id, p)).flag]
      && s'.configs == (if p.environment.None? then s.configs
                        else
                          var applied := Apply(Row(s, id, p.environment), ConfigPatch(s, id, p));
                          s.configs[(id, p.environment.value) := applied.config])
  {
    hide DropUnchanged, Changes, Apply, OldValues;
    ApplyNothing(Row(s, id, None));
    if p.environment.Some? {
      ApplyNothing(Row(s, id, p.environment));
    }
  }

  /** A patch never touches a row's kind, tenant, key or type. */
  lemma ApplyKeepsIdentity(e: Entity, p: Patch)
    ensures SameIdentity(e, Apply(e, p))
  {
  }

  lemma ApplyNothing(e: Entity)
    ensures Apply(e, map[]) == e
  {
  }

  lemma UpdatedKeepsInv(s: Store, c: Caller, id: Uuid, p: FlagUpdate)
    requires Inv(s) && id in s.flags && c.tenant == s.flags[id].tenant && ValidUpdate(p)
    requires SlotHasType(p.defaultValue, s.flags[id].ftype)
    requires p.environment.Some? ==> SlotHasType(p.value, s.flags[id].ftype)
    requires p.environment.Some? ==> ConfigAllowed(Updated(s, c, id, p).configs[(id, p.environment.value)])
    ensures Inv(Updated(s, c, id, p))
  {
    hide Changes, DropUnchanged, Apply;
    PatchesFit(s, id, p);
    PatchTypes(s, id, p);
    UpdatedRows(s, c, id, p);
    var fp, cp := FlagPatch(s, id, p), ConfigPatch(s, id, p);
    var s1 := WriteScope(s, c, id, None, fp);
    WriteScopeKeepsInv(s, c, id, None, fp);
    if p.environment.Some? {
      assert Row(s1, id, p.environment) == Row(s, id, p.environment);
      WriteScopeKeepsInv(s1, c, id, p.environment, cp);
    }
  }

  lemma UpdateKeepsInv(s: Store, c: Caller, path: Uuid, key: string, p: FlagUpdate, commits: bool)
    requires Inv(s)
    ensures Inv(HandleUpdate(s, c, path, key, p, commits).store)
  {
    if HandleUpdate(s, c, path, key, p, commits).committed {
      UpdatedKeepsInv(s, c, Lookup(s, c.tenant, key).value, p);
    }
  }

  lemma HandleKeepsInv(s: Store, w: Write)
    requires Inv(s)
    ensures Inv(Handle(s, w).store)
  {
    match w
    case CreateReq(c, path, p, newId, ok) =>
      if Handle(s, w).committed {
        CreatedKeepsInv(s, c, p, newId);
      }
    case UpdateReq(c, path, key, p, ok) => UpdateKeepsInv(s, c, path, key, p, ok);
    case ArchiveReq(c, path, key, now, ok) =>
      if Handle(s, w).committed {
        ArchivedKeepsInv(s, c, Lookup(s, c.tenant, key).value, now);
      }
  }

  lemma ArchivedKeepsInv(s: Store, c: Caller, id: Uuid, now: string)
    requires Inv(s) && id in s.flags && s.flags[id].tenant == c.tenant
    ensures Inv(Archived(s, c, id, now))
  {
  }

  /** Every store that any serial run of requests can reach satisfies the invariant. */
  lemma {:induction false} ReachableInv(s: Store, ws: seq<Write>)
    requires Inv(s)
    ensures Inv(Run(s, ws))
  {
    if ws != [] {
      ReachableInv(s, ws[..|ws| - 1]);
      HandleKeepsInv(Run(s, ws[..|ws| - 1]), ws[|ws| - 1]);
    }
  }
}
