/** The compiled flag set of one tenant and environment: what the cache holds, which writes
    change it, and what an evaluation makes of it. */
module Compiled {
  import opened Base
  import opened Keys
  import opened Engine
  import opened Store

  function SnapshotOf(f: Flag, c: Config): Snapshot {
    Snapshot(f.key, f.ftype, f.defaultValue, c.enabled, c.value, c.rollout, c.rules, false)
  }

  /** The join's row condition: the tenant's flag, active, with a config for the environment. */
  predicate Joins(s: Store, k: CacheKey, id: Uuid) {
    && id in s.flags && s.flags[id].tenant == k.tenant && s.flags[id].archivedAt.None?
    && (id, k.env) in s.configs
  }

  function Snap(s: Store, k: CacheKey, id: Uuid): Snapshot
    requires Joins(s, k, id)
  {
    SnapshotOf(s.flags[id], s.configs[(id, k.env)])
  }

  /** The rows of the join, without an order: the query asks for none. */
  function Compile(s: Store, k: CacheKey): set<Snapshot> {
    set id | id in s.flags && Joins(s, k, id) :: Snap(s, k, id)
  }

  /** The flag a compiled row comes from. */
  lemma Origin(s: Store, k: CacheKey, x: Snapshot) returns (id: Uuid)
    requires x in Compile(s, k)
    ensures Joins(s, k, id) && Snap(s, k, id) == x
  {
    id :| id in s.flags && Joins(s, k, id) && Snap(s, k, id) == x;
  }

  predicate OneRowPerKey(c: set<Snapshot>) {
    forall x, y :: x in c && y in c && x.key == y.key ==> x == y
  }

  /** What a compiled row can be: an allowed key, values of the declared type, a percentage, at most 50
      well-formed rules. The query sets `archived` to False whatever the row. */
  predicate Storable(x: Snapshot) {
    && ValidFlagKey(x.key) && HasType(x.defaultValue, x.ftype) && HasType(x.value, x.ftype)
    && 0 <= x.rollout <= 100 && |x.rules| <= 50 && ValidRules(x.rules) && !x.archived
  }

  lemma CompiledShape(s: Store, k: CacheKey)
    requires Inv(s)
    ensures OneRowPerKey(Compile(s, k))
    ensures forall x :: x in Compile(s, k) ==> Storable(x)
  {
    var c := Compile(s, k);
    forall x, y | x in c && y in c && x.key == y.key ensures x == y {
      var i := Origin(s, k, x);
      var j := Origin(s, k, y);
      assert SameName(s.flags[i], s.flags[j]);
    }
    forall x | x in c ensures Storable(x) {
      var i := Origin(s, k, x);
      assert FlagOk(s.flags[i]) && ConfigOk(s.flags[i], s.configs[(i, k.env)]);
    }
  }

  // ----- Which writes change it -----

  lemma SameRowsSameSet(s: Store, s': Store, k: CacheKey)
    requires forall id :: Joins(s, k, id) <==> Joins(s', k, id)
    requires forall id :: Joins(s, k, id) && Joins(s', k, id) ==> Snap(s, k, id) == Snap(s', k, id)
    ensures Compile(s, k) == Compile(s', k)
  {
    forall x | x in Compile(s, k) ensures x in Compile(s', k) {
      var id := Origin(s, k, x);
      assert Joins(s', k, id);
    }
    forall x | x in Compile(s', k) ensures x in Compile(s, k) {
      var id := Origin(s', k, x);
      assert Joins(s, k, id);
    }
  }

  /** A row whose snapshot differs, or that joins on one side only, shows in the set. */
  lemma DifferentRowDifferentSet(s: Store, s': Store, k: CacheKey, id: Uuid)
    requires Inv(s) && Joins(s', k, id)
    requires id in s.flags ==> SameName(s.flags[id], s'.flags[id])
    requires id !in s.flags ==> Lookup(s, k.tenant, s'.flags[id].key).None?
    requires Joins(s, k, id) ==> Snap(s, k, id) != Snap(s', k, id)
    ensures Compile(s, k) != Compile(s', k)
  {
    var x := Snap(s', k, id);
    assert x in Compile(s', k);
    if x in Compile(s, k) {
      var j := Origin(s, k, x);
      assert IsRow(s, k.tenant, s'.flags[id].key, j);
      assert id in s.flags ==> SameName(s.flags[id], s.flags[j]);
    }
  }

  /** When exactly a request changes the compiled set under key `k`: creating a flag or archiving
      an active one changes all three of the tenant's sets; an update changes a set when the flag is
      active and its default changed, or the config of that environment did. */
  ghost predicate ChangesSet(s: Store, w: Write, k: CacheKey) {
    && Handle(s, w).committed && k.tenant == w.caller.tenant
    && match w
       case CreateReq(_, _, _, _, _) => true
       case ArchiveReq(_, _, _, _, _) => true
       case UpdateReq(c, _, key, p, _) =>
         var id := Lookup(s, c.tenant, key).value;
         && s.flags[id].archivedAt.None?
         && (DefaultField in FlagPatch(s, id, p) || (p.environment == Some(k.env) && ConfigPatch(s, id, p) != map[]))
  }

  lemma PatchShows(e: Entity, changes: Patch, k: Field)
    requires FitsAll(e, DropUnchanged(e, changes)) && k in DropUnchanged(e, changes)
    ensures Get(Apply(e, DropUnchanged(e, changes)), k) != Get(e, k)
  {
    var p := DropUnchanged(e, changes);
    ApplyGet(e, p, k);
    PyEqIsEquivalence(p[k], p[k], p[k]);
  }

  lemma UpdatedSetUnchanged(s: Store, c: Caller, id: Uuid, p: FlagUpdate, k: CacheKey)
    requires Inv(s) && id in s.flags && s.flags[id].tenant == c.tenant
    requires k.tenant == c.tenant && s.flags[id].archivedAt.None? ==>
               DefaultField !in FlagPatch(s, id, p) && (p.environment == Some(k.env) ==> ConfigPatch(s, id, p) == map[])
    ensures Compile(Updated(s, c, id, p), k) == Compile(s, k)
  {
    hide Updated, Changes, DropUnchanged, Compile;
    UpdatedRows(s, c, id, p);
    PatchesFit(s, id, p);
    PatchKeepsRest(s, id, p);
    if p.environment.Some? { ApplyNothing(Row(s, id, p.environment)); }
    SameRowsSameSet(s, Updated(s, c, id, p), k);
  }

  lemma PatchKeepsRest(s: Store, id: Uuid, p: FlagUpdate)
    requires id in s.flags
    ensures
      var f, g := s.flags[id], Apply(Row(s, id, None), FlagPatch(s, id, p)).flag;
      && SameName(f, g) && f.ftype == g.ftype && f.archivedAt == g.archivedAt
      && (DefaultField !in FlagPatch(s, id, p) ==> f.defaultValue == g.defaultValue)
  {
  }

  lemma UpdatedSetChanged(s: Store, c: Caller, id: Uuid, p: FlagUpdate, k: CacheKey)
    requires Inv(s) && id in s.flags && s.flags[id].tenant == c.tenant == k.tenant && s.flags[id].archivedAt.None?
    requires DefaultField in FlagPatch(s, id, p) || (p.environment == Some(k.env) && ConfigPatch(s, id, p) != map[])
    ensures Compile(Updated(s, c, id, p), k) != Compile(s, k)
  {
    UpdatedRows(s, c, id, p);
    PatchesFit(s, id, p);
    PatchKeepsRest(s, id, p);
    var s' := Updated(s, c, id, p);
    if DefaultField in FlagPatch(s, id, p) {
      PatchShows(Row(s, id, None), Changes(p, FLAG_FIELDS), DefaultField);
    } else {
      var f :| f in ConfigPatch(s, id, p);
      PatchShows(Row(s, id, p.environment), Changes(p, CONFIG_FIELDS), f);
      var c0, c1 := s.configs[(id, k.env)], s'.configs[(id, k.env)];
      assert Get(ConfigRow(c0), f) != Get(ConfigRow(c1), f);
      assert c0.tenant == c1.tenant;
    }
    DifferentRowDifferentSet(s, s', k, id);
  }

  /** The compiled set under a key changes exactly when `ChangesSet` says so. */
  lemma SetChangesIff(s: Store, w: Write, k: CacheKey)
    requires Inv(s)
    ensures Compile(Handle(s, w).store, k) != Compile(s, k) <==> ChangesSet(s, w, k)
  {
    hide Inv, Compile, Updated, Created, Archived, ValidCreate, ValidUpdate, Refusal;
    if Handle(s, w).committed {
      match w
      case CreateReq(c, path, p, newId, ok) => CreatedSetChanges(s, c, p, newId, k);
      case ArchiveReq(c, path, key, now, ok) => ArchivedSetChanges(s, c, Lookup(s, c.tenant, key).value, now, k);
      case UpdateReq(c, path, key, p, ok) =>
        var id := Lookup(s, c.tenant, key).value;
        if ChangesSet(s, w, k) {
          UpdatedSetChanged(s, c, id, p, k);
        } else {
          UpdatedSetUnchanged(s, c, id, p, k);
        }
    }
  }

  lemma CreatedSetChanges(s: Store, c: Caller, p: FlagCreate, newId: Uuid, k: CacheKey)
    requires Inv(s) && newId !in s.flags && Lookup(s, c.tenant, p.key).None?
    ensures Compile(Created(s, c, p, newId), k) != Compile(s, k) <==> k.tenant == c.tenant
  {
    var s' := Created(s, c, p, newId);
    if k.tenant == c.tenant {
      DifferentRowDifferentSet(s, s', k, newId);
    } else {
      SameRowsSameSet(s, s', k);
    }
  }

  lemma ArchivedSetChanges(s: Store, c: Caller, id: Uuid, now: string, k: CacheKey)
    requires Inv(s) && id in s.flags && s.flags[id].tenant == c.tenant && s.flags[id].archivedAt.None?
    ensures Compile(Archived(s, c, id, now), k) != Compile(s, k) <==> k.tenant == c.tenant
  {
    var s' := Archived(s, c, id, now);
    if k.tenant == c.tenant {
      var x := Snap(s, k, id);
      assert x in Compile(s, k);
      if x in Compile(s', k) {
        var j := Origin(s', k, x);
        assert s'.flags[j].archivedAt.None? && j != id;
        assert SameName(s.flags[id], s.flags[j]);
      }
    } else {
      SameRowsSameSet(s, s', k);
    }
  }

  /** Every key whose compiled set a request changes is among the keys it deletes; a key it
      does not delete keeps its set; and no key of another tenant is deleted. */
  lemma InvalidationSuffices(s: Store, w: Write, k: CacheKey)
    requires Inv(s)
    ensures Compile(Handle(s, w).store, k) != Compile(s, k) ==> k in Handle(s, w).dels
    ensures k in Handle(s, w).dels ==> k.tenant == w.caller.tenant
  {
    hide Inv, Compile, Handle;
    SetChangesIff(s, w, k);
    AllKeysCover(k);
    DelsOf(s, w);
  }

  lemma DelsOf(s: Store, w: Write)
    ensures
      var o := Handle(s, w);
      var t := w.caller.tenant;
      if !o.committed then o.dels == {}
      else if !w.UpdateReq? then o.dels == AllKeys(t)
      else
        var id := Lookup(s, t, w.key).value;
        o.dels == if FlagPatch(s, id, w.update) != map[] || w.update.environment.None? then AllKeys(t)
                  else {CacheKey(t, w.update.environment.value)}
  {
  }

  lemma AllKeysCover(k: CacheKey)
    ensures k in AllKeys(k.tenant)
  {
    assert k.env.Development? || k.env.Staging? || k.env.Production?;
  }

  // ----- Evaluating it -----

  /** `rows` lists a compiled set in some order, each row once. */
  ghost predicate Lists(rows: seq<Snapshot>, c: set<Snapshot>) {
    && (forall x :: x in rows <==> x in c)
    && forall i, j :: 0 <= i < j < |rows| ==> rows[i] != rows[j]
  }

  predicate Wanted(keys: Option<seq<string>>, key: string) {
    keys.Some? ==> key in keys.value
  }

  /** `[s for s in snapshots if s.key in wanted]`, or all of them without `flag_keys`. */
  function Select(rows: seq<Snapshot>, keys: Option<seq<string>>): seq<Snapshot> {
    if keys.None? then rows
    else if rows == [] then []
    else
      var n := |rows| - 1;
      Select(rows[..n], keys) + if rows[n].key in keys.value then [rows[n]] else []
  }

  /** `{r.key: r.value for r in results}`: a later entry replaces an earlier one. */
  function Collect(es: seq<Evaluation>): map<string, Option<Value>> {
    if es == [] then map[]
    else Collect(es[..|es| - 1])[es[|es| - 1].key := es[|es| - 1].value]
  }

  function EvaluateRows(p: Platform, rows: seq<Snapshot>, userId: string, ctx: Context,
                        keys: Option<seq<string>>): map<string, Option<Value>>
  {
    Collect(EvaluateAll(p, Select(rows, keys), userId, ctx))
  }

  lemma {:induction false} SelectKeeps(rows: seq<Snapshot>, keys: Option<seq<string>>, x: Snapshot)
    ensures x in Select(rows, keys) <==> x in rows && Wanted(keys, x.key)
  {
    if keys.Some? && rows != [] {
      var n := |rows| - 1;
      assert rows == rows[..n] + [rows[n]];
      SelectKeeps(rows[..n], keys, x);
    }
  }

  predicate OneResultPerKey(es: seq<Evaluation>) {
    forall i, j :: 0 <= i < |es| && 0 <= j < |es| && es[i].key == es[j].key ==> es[i] == es[j]
  }

  lemma {:induction false} CollectHas(es: seq<Evaluation>, key: string)
    requires OneResultPerKey(es)
    ensures key in Collect(es) <==> exists i :: 0 <= i < |es| && es[i].key == key
    ensures forall i :: 0 <= i < |es| && es[i].key == key ==> key in Collect(es) && Collect(es)[key] == es[i].value
  {
    if es != [] {
      var n := |es| - 1;
      var init := es[..n];
      assert forall i :: 0 <= i < n ==> init[i] == es[i];
      CollectHas(init, key);
    }
  }

  lemma ResultsKeepKeys(p: Platform, rows: seq<Snapshot>, userId: string, ctx: Context)
    requires forall i, j :: 0 <= i < |rows| && 0 <= j < |rows| && rows[i].key == rows[j].key ==> rows[i] == rows[j]
    ensures OneResultPerKey(EvaluateAll(p, rows, userId, ctx))
    ensures forall i :: 0 <= i < |rows| ==> EvaluateAll(p, rows, userId, ctx)[i].key == rows[i].key
  {
    var es := EvaluateAll(p, rows, userId, ctx);
    forall i | 0 <= i < |rows| ensures es[i].key == rows[i].key {
      assert es[i] == Evaluate(p, rows[i], userId, ctx);
    }
  }

  lemma CollectedResults(p: Platform, rows: seq<Snapshot>, userId: string, ctx: Context, key: string)
    requires forall i, j :: 0 <= i < |rows| && 0 <= j < |rows| && rows[i].key == rows[j].key ==> rows[i] == rows[j]
    ensures
      var r := Collect(EvaluateAll(p, rows, userId, ctx));
      && (key in r <==> exists i :: 0 <= i < |rows| && rows[i].key == key)
      && (forall i :: 0 <= i < |rows| && rows[i].key == key ==> r[key] == Evaluate(p, rows[i], userId, ctx).value)
  {
    ResultsKeepKeys(p, rows, userId, ctx);
    CollectHas(EvaluateAll(p, rows, userId, ctx), key);
  }

  /** Whatever the row order, the response has exactly one entry per wanted row of the set,
      under its key, with the value the engine gives that row. */
  lemma ResponseIsExact(p: Platform, rows: seq<Snapshot>, c: set<Snapshot>, userId: string, ctx: Context,
                        keys: Option<seq<string>>)
    requires OneRowPerKey(c) && forall x :: x in rows <==> x in c
    ensures
      var r := EvaluateRows(p, rows, userId, ctx, keys);
      && (forall key :: key in r <==> exists x :: x in c && x.key == key && Wanted(keys, key))
      && (forall x :: x in c && Wanted(keys, x.key) ==> r[x.key] == Evaluate(p, x, userId, ctx).value)
  {
    var sel := Select(rows, keys);
    forall x ensures x in sel <==> x in c && Wanted(keys, x.key) {
      SelectKeeps(rows, keys, x);
    }
    assert forall i :: 0 <= i < |sel| ==> sel[i] in sel;
    var r := EvaluateRows(p, rows, userId, ctx, keys);
    forall key ensures key in r <==> exists x :: x in c && x.key == key && Wanted(keys, key) {
      CollectedResults(p, sel, userId, ctx, key);
      if x :| x in c && x.key == key && Wanted(keys, key) {
        assert x in sel;
      }
    }
    forall x | x in c && Wanted(keys, x.key) ensures r[x.key] == Evaluate(p, x, userId, ctx).value {
      CollectedResults(p, sel, userId, ctx, x.key);
      assert x in sel;
    }
  }

  /** Two row orders of one set give one response, so a cached list answers as the database would. */
  lemma RowOrderIrrelevant(p: Platform, r1: seq<Snapshot>, r2: seq<Snapshot>, c: set<Snapshot>,
                           userId: string, ctx: Context, keys: Option<seq<string>>)
    requires OneRowPerKey(c)
    requires forall x :: x in r1 <==> x in c
    requires forall x :: x in r2 <==> x in c
    ensures EvaluateRows(p, r1, userId, ctx, keys) == EvaluateRows(p, r2, userId, ctx, keys)
  {
    ResponseIsExact(p, r1, c, userId, ctx, keys);
    ResponseIsExact(p, r2, c, userId, ctx, keys);
    var a, b := EvaluateRows(p, r1, userId, ctx, keys), EvaluateRows(p, r2, userId, ctx, keys);
    forall key | key in a ensures a[key] == b[key] {
      var x :| x in c && x.key == key && Wanted(keys, key);
      assert a[x.key] == b[x.key];
    }
    assert a.Keys == b.Keys;
    assert a == b;
  }

  /** The bulk endpoint: no selection at all. */
  function EvaluateBulk(p: Platform, rows: seq<Snapshot>, userId: string, ctx: Context): map<string, Option<Value>> {
    Collect(EvaluateAll(p, rows, userId, ctx))
  }

  /** Evaluating with a key list is bulk evaluation restricted to those keys. */
  lemma FlagKeysRestrictBulk(p: Platform, rows: seq<Snapshot>, c: set<Snapshot>, userId: string, ctx: Context,
                             keys: seq<string>)
    requires OneRowPerKey(c) && forall x :: x in rows <==> x in c
    ensures EvaluateRows(p, rows, userId, ctx, None) == EvaluateBulk(p, rows, userId, ctx)
    ensures
      var all := EvaluateBulk(p, rows, userId, ctx);
      EvaluateRows(p, rows, userId, ctx, Some(keys)) == map k | k in all && k in keys :: all[k]
  {
    hide Evaluate, Collect;
    ResponseIsExact(p, rows, c, userId, ctx, None);
    ResponseIsExact(p, rows, c, userId, ctx, Some(keys));
    var all := EvaluateRows(p, rows, userId, ctx, None);
    var some := EvaluateRows(p, rows, userId, ctx, Some(keys));
    forall k ensures k in some <==> k in all && k in keys {
      if k in all && k in keys {
        var x :| x in c && x.key == k && Wanted(None, k);
        assert Wanted(Some(keys), k);
      }
      if k in some {
        var x :| x in c && x.key == k && Wanted(Some(keys), k);
        assert Wanted(None, k);
      }
    }
    forall k | k in some ensures some[k] == all[k] {
      var x :| x in c && x.key == k && Wanted(Some(keys), k);
      assert Wanted(None, x.key);
    }
    assert some == map k | k in all && k in keys :: all[k];
  }

  /** From a reachable store to the response: a flag of the tenant has an entry if and only if it is
      active and wanted. An archived flag has none, and in particular not its default. */
  lemma AnsweredIffActive(p: Platform, ws: seq<Write>, k: CacheKey, rows: seq<Snapshot>,
                          userId: string, ctx: Context, keys: Option<seq<string>>, id: Uuid)
    requires Lists(rows, Compile(Run(EMPTY, ws), k))
    requires id in Run(EMPTY, ws).flags && Run(EMPTY, ws).flags[id].tenant == k.tenant
    ensures
      var f := Run(EMPTY, ws).flags[id];
      f.key in EvaluateRows(p, rows, userId, ctx, keys) <==> Wanted(keys, f.key) && f.archivedAt.None?
  {
    var s := Run(EMPTY, ws);
    ReachableInv(EMPTY, ws);
    CompiledShape(s, k);
    ResponseIsExact(p, rows, Compile(s, k), userId, ctx, keys);
    KeyCompiledIffActive(s, k, id);
  }

  lemma KeyCompiledIffActive(s: Store, k: CacheKey, id: Uuid)
    requires Inv(s) && id in s.flags && s.flags[id].tenant == k.tenant
    ensures (exists x :: x in Compile(s, k) && x.key == s.flags[id].key) <==> s.flags[id].archivedAt.None?
  {
    if s.flags[id].archivedAt.None? {
      assert Joins(s, k, id) && Snap(s, k, id) in Compile(s, k);
    } else if x :| x in Compile(s, k) && x.key == s.flags[id].key {
      var j := Origin(s, k, x);
      assert SameName(s.flags[id], s.flags[j]);
    }
  }

  /** Every entry of the response belongs to one of those flags and is the engine's verdict on that flag's
      own row: never ARCHIVED, and of the declared type unless a targeting rule supplied the value. */
  lemma DirectEvaluation(p: Platform, ws: seq<Write>, k: CacheKey, rows: seq<Snapshot>,
                         userId: string, ctx: Context, keys: Option<seq<string>>, key: string) returns (id: Uuid)
    requires Lists(rows, Compile(Run(EMPTY, ws), k))
    requires key in EvaluateRows(p, rows, userId, ctx, keys)
    ensures Joins(Run(EMPTY, ws), k, id) && Run(EMPTY, ws).flags[id].key == key && Wanted(keys, key)
    ensures
      var s := Run(EMPTY, ws);
      var e := Evaluate(p, Snap(s, k, id), userId, ctx);
      && EvaluateRows(p, rows, userId, ctx, keys)[key] == e.value
      && e.reason != ArchivedReason
      && (e.reason != TargetingMatch ==> e.value.Some? && HasType(e.value.value, s.flags[id].ftype))
  {
    var s := Run(EMPTY, ws);
    ReachableInv(EMPTY, ws);
    CompiledShape(s, k);
    ResponseIsExact(p, rows, Compile(s, k), userId, ctx, keys);
    var x :| x in Compile(s, k) && x.key == key && Wanted(keys, key);
    id := Origin(s, k, x);
    Precedence(p, x, userId, ctx);
  }
}
