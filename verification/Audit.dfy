/** The audit log is exact: each record is the difference between two successive stores, so the
    log can be played forward to rebuild the store and backward to undo it. */
module Audit {
  import opened Base
  import opened Store

  // ----- One record -----

  ghost predicate TellsCreation(before: Store, after: Store, r: Record) {
    && r.oldValue == None && r.env == None
    && r.flagId !in before.flags && (forall e: Env :: (r.flagId, e) !in before.configs)
    && r.flagId in after.flags
    && var f := after.flags[r.flagId];
    && after.flags == before.flags[r.flagId := f]
    && f.tenant == r.tenant && f.archivedAt == None
    && r.newValue == map[KeyField := Scalar(Str(f.key)), NameField := Scalar(Str(f.name)),
                         TypeField := Scalar(Str(TypeName(f.ftype))), DefaultField := Scalar(f.defaultValue)]
    && after.configs == before.configs + SeedConfigs(r.flagId, SeedConfig(r.tenant, f.ftype, f.defaultValue))
  }

  /** `was` and `now` are non-empty, name the same attributes, differ (as Python compares) on
      every one of them, and no attribute they do not name changed. */
  ghost predicate IsDiff(x: Entity, y: Entity, was: Patch, now: Patch) {
    && SameIdentity(x, y)
    && now != map[] && was.Keys == now.Keys
    && FitsAll(x, was) && FitsAll(x, now)
    && forall k :: if k in now then Get(x, k) == was[k] && Get(y, k) == now[k] && !PyEqDatum(was[k], now[k])
                   else Get(x, k) == Get(y, k)
  }

  ghost predicate TellsChange(before: Store, after: Store, r: Record) {
    && (r.action == ConfigUpdated <==> r.env.Some?)
    && r.oldValue.Some? && HasRow(before, r.flagId, r.env) && HasRow(after, r.flagId, r.env)
    && var x, y := Row(before, r.flagId, r.env), Row(after, r.flagId, r.env);
    && IsDiff(x, y, r.oldValue.value, r.newValue)
    && after == PutRow(before, r.flagId, r.env, y).(log := after.log)
  }

  /** `after` is `before` plus exactly the change that `r`, its newest record, describes. */
  ghost predicate Tells(before: Store, after: Store, r: Record) {
    && after.log == before.log + [r]
    && if r.action == FlagCreated then TellsCreation(before, after, r) else TellsChange(before, after, r)
  }

  lemma DroppedPatchIsDiff(e: Entity, changes: Patch)
    requires FitsAll(e, DropUnchanged(e, changes)) && DropUnchanged(e, changes) != map[]
    ensures
      var p := DropUnchanged(e, changes);
      IsDiff(e, Apply(e, p), OldValues(e, p), p)
  {
    var p := DropUnchanged(e, changes);
    forall k ensures Get(Apply(e, p), k) == At(p, k, Get(e, k)) {
      ApplyGet(e, p, k);
    }
    forall k | k in p ensures Fits(e, k, Get(e, k)) {
      assert Fits(e, k, p[k]);
    }
  }

  lemma WriteScopeTells(s: Store, c: Caller, id: Uuid, env: Option<Env>, changes: Patch)
    requires HasRow(s, id, env)
    requires
      var p := DropUnchanged(Row(s, id, env), changes);
      p != map[] && FitsAll(Row(s, id, env), p)
    ensures
      var p := DropUnchanged(Row(s, id, env), changes);
      Tells(s, WriteScope(s, c, id, env, p), UpdateRecord(s, c, id, env, p))
  {
    DroppedPatchIsDiff(Row(s, id, env), changes);
  }

  lemma ArchivedTells(s: Store, c: Caller, id: Uuid, now: string)
    requires id in s.flags && s.flags[id].archivedAt.None?
    ensures Tells(s, Archived(s, c, id, now), ArchiveRecord(c, id, now))
  {
    assert ArchivedField in ArchivePatch(now);
  }

  lemma CreatedTells(s: Store, c: Caller, p: FlagCreate, newId: Uuid)
    requires Inv(s) && newId !in s.flags
    ensures Tells(s, Created(s, c, p, newId), CreatedRecord(c, newId, p))
  {
  }

  // ----- From one record to a whole request -----

  /** The stores of a chain, each told from the one before by the record between them. */
  ghost predicate Chain(stores: seq<Store>, rs: seq<Record>) {
    && |stores| == |rs| + 1
    && forall i :: 0 <= i < |rs| ==> Tells(stores[i], stores[i + 1], rs[i])
  }

  ghost predicate ChainFrom(s: Store, stores: seq<Store>, rs: seq<Record>, s': Store) {
    && Chain(stores, rs) && stores[0] == s && stores[|rs|] == s'
    && forall i :: 0 < i < |rs| ==> rs[i].action != FlagCreated
  }

  /** A request appends at most one record per scope, and each of them is exact. */
  lemma HandleTells(s: Store, w: Write) returns (stores: seq<Store>, rs: seq<Record>)
    requires Inv(s)
    ensures ChainFrom(s, stores, rs, Handle(s, w).store) && |rs| <= 2
  {
    hide Tells, Inv, ValidCreate, ValidUpdate, Updated, PyEqDatum;
    hide Lookup, BodyOf, FlagPatch, ConfigPatch, Created, Archived;
    stores, rs := [s], [];
    if Handle(s, w).committed {
      match w
      case CreateReq(c, path, p, newId, ok) =>
        CreatedTells(s, c, p, newId);
        stores, rs := [s, Created(s, c, p, newId)], [CreatedRecord(c, newId, p)];
      case UpdateReq(c, path, key, p, ok) =>
        stores, rs := UpdatedTells(s, c, Lookup(s, c.tenant, key).value, p);
      case ArchiveReq(c, path, key, now, ok) =>
        var id := Lookup(s, c.tenant, key).value;
        ArchivedTells(s, c, id, now);
        stores, rs := [s, Archived(s, c, id, now)], [ArchiveRecord(c, id, now)];
    }
  }

  lemma UpdatedTells(s: Store, c: Caller, id: Uuid, p: FlagUpdate) returns (stores: seq<Store>, rs: seq<Record>)
    requires id in s.flags
    requires p.environment.Some? ==> (id, p.environment.value) in s.configs
    ensures ChainFrom(s, stores, rs, Updated(s, c, id, p)) && |rs| <= 2
  {
    hide PyEqDatum, DropUnchanged, Tells, Changes, Inv, Sent;
    PatchesFit(s, id, p);
    var fp, cp := FlagPatch(s, id, p), ConfigPatch(s, id, p);
    var m := WriteScope(s, c, id, None, fp);
    stores, rs := ScopeTells(s, c, id, None, Changes(p, FLAG_FIELDS));
    if p.environment.Some? {
      assert Row(m, id, p.environment) == Row(s, id, p.environment);
      var stores', rs' := ScopeTells(m, c, id, p.environment, Changes(p, CONFIG_FIELDS));
      stores, rs := stores + stores'[1..], rs + rs';
    }
  }

  /** One scope: one record when something differs, none otherwise. */
  lemma ScopeTells(s: Store, c: Caller, id: Uuid, env: Option<Env>, changes: Patch)
    returns (stores: seq<Store>, rs: seq<Record>)
    requires HasRow(s, id, env) && FitsAll(Row(s, id, env), DropUnchanged(Row(s, id, env), changes))
    ensures
      var p := DropUnchanged(Row(s, id, env), changes);
      var s' := WriteScope(s, c, id, env, p);
      && ChainFrom(s, stores, rs, s') && (forall i :: 0 <= i < |rs| ==> rs[i].action != FlagCreated)
      && |rs| == if p == map[] then 0 else 1
  {
    var p := DropUnchanged(Row(s, id, env), changes);
    if p == map[] {
      stores, rs := [s], [];
    } else {
      WriteScopeTells(s, c, id, env, changes);
      stores, rs := [s, WriteScope(s, c, id, env, p)], [UpdateRecord(s, c, id, env, p)];
    }
  }

  // ----- Backward: undo -----

  /** Takes back the newest record: a created flag goes with its three configs, any other
      record's old values are put back. */
  function UndoLast(s: Store): Store
    requires s.log != []
  {
    var r := s.log[|s.log| - 1];
    var s0 := s.(log := s.log[..|s.log| - 1]);
    if r.action == FlagCreated then
      s0.(flags := s.flags - {r.flagId},
          configs := s.configs - {(r.flagId, Development), (r.flagId, Staging), (r.flagId, Production)})
    else if HasRow(s, r.flagId, r.env) && r.oldValue.Some? then
      PutRow(s0, r.flagId, r.env, Apply(Row(s, r.flagId, r.env), r.oldValue.value))
    else s0
  }

  /** Undoes newest-first until `n` records are left. */
  function UndoTo(s: Store, n: nat): Store
    decreases |s.log|
  {
    if |s.log| <= n then s else UndoTo(UndoLast(s), n)
  }

  lemma DiffUndone(x: Entity, y: Entity, was: Patch, now: Patch)
    requires IsDiff(x, y, was, now)
    ensures Apply(y, was) == x
  {
    assert FitsAll(y, was) by {
      forall k | k in was ensures Fits(y, k, was[k]) { assert Fits(x, k, was[k]); }
    }
    forall k ensures Get(Apply(y, was), k) == Get(x, k) {
      ApplyGet(y, was, k);
    }
    RowsEqual(Apply(y, was), x);
  }

  lemma UndoInvertsRecord(before: Store, after: Store, r: Record)
    requires Tells(before, after, r)
    ensures UndoLast(after) == before && after.log == before.log + [r]
  {
    hide PyEqDatum, FitsAll, SeedConfig;
    assert after.log[|after.log| - 1] == r && after.log[..|after.log| - 1] == before.log;
    if r.action == FlagCreated {
      assert after.flags - {r.flagId} == before.flags;
      var seeded := {(r.flagId, Development), (r.flagId, Staging), (r.flagId, Production)};
      forall k | k in after.configs ensures k in seeded <==> k !in before.configs {
        assert k.1.Development? || k.1.Staging? || k.1.Production?;
        assert (k.0, k.1) == k;
      }
      assert after.configs - seeded == before.configs;
    } else {
      var x, y := Row(before, r.flagId, r.env), Row(after, r.flagId, r.env);
      DiffUndone(x, y, r.oldValue.value, r.newValue);
    }
  }

  lemma {:induction false} UndoComposes(s: Store, m: nat, n: nat)
    requires n <= m
    ensures UndoTo(UndoTo(s, m), n) == UndoTo(s, n)
    decreases |s.log|
  {
    if |s.log| > m {
      UndoComposes(UndoLast(s), m, n);
    }
  }

  lemma {:induction false} UndoInvertsChain(stores: seq<Store>, rs: seq<Record>)
    requires Chain(stores, rs)
    ensures UndoTo(stores[|rs|], |stores[0].log|) == stores[0]
    ensures stores[0].log <= stores[|rs|].log
  {
    hide Tells;
    var n := |rs|;
    if n > 0 {
      UndoInvertsChain(stores[..n], rs[..n - 1]);
      assert stores[..n][n - 1] == stores[n - 1];
      UndoInvertsRecord(stores[n - 1], stores[n], rs[n - 1]);
    }
  }

  /** Restoring old values newest-first takes the store at the end of any serial run back to
      exactly the store at any earlier point of it, descriptions included; and the log at that
      earlier point is a prefix of the final log. */
  lemma {:induction false} UndoRestoresEarlierStore(s: Store, a: seq<Write>, b: seq<Write>)
    requires Inv(s)
    ensures UndoTo(Run(s, a + b), |Run(s, a).log|) == Run(s, a)
    ensures Run(s, a).log <= Run(s, a + b).log
  {
    RunConcat(s, a, b);
    if b != [] {
      var b0, w := b[..|b| - 1], b[|b| - 1];
      var mid := Run(s, a + b0);
      UndoRestoresEarlierStore(s, a, b0);
      assert a + b == (a + b0) + [w];
      RunStep(s, a + b0, w);
      ReachableInv(s, a + b0);
      var stores, rs := HandleTells(mid, w);
      UndoInvertsChain(stores, rs);
      UndoComposes(Run(s, a + b), |mid.log|, |Run(s, a).log|);
    }
  }

  /** Every record of the log is the exact difference between the stores on its two sides. */
  ghost predicate LogIsExact(s: Store) {
    forall i :: 0 <= i < |s.log| ==> Tells(UndoTo(s, i), UndoTo(s, i + 1), s.log[i])
  }

  lemma RecordKeepsLogExact(before: Store, after: Store, r: Record)
    requires LogIsExact(before) && Tells(before, after, r)
    ensures LogIsExact(after)
  {
    UndoInvertsRecord(before, after, r);
    forall i | 0 <= i < |after.log| ensures Tells(UndoTo(after, i), UndoTo(after, i + 1), after.log[i]) {
      assert UndoTo(after, i) == UndoTo(before, i);
      if i < |before.log| {
        assert UndoTo(after, i + 1) == UndoTo(before, i + 1);
        assert after.log[i] == before.log[i];
      }
    }
  }

  lemma {:induction false} ChainKeepsLogExact(stores: seq<Store>, rs: seq<Record>)
    requires Chain(stores, rs) && LogIsExact(stores[0])
    ensures LogIsExact(stores[|rs|])
  {
    var n := |rs|;
    if n > 0 {
      ChainKeepsLogExact(stores[..n], rs[..n - 1]);
      assert stores[..n][n - 1] == stores[n - 1];
      RecordKeepsLogExact(stores[n - 1], stores[n], rs[n - 1]);
    }
  }

  /** In every store that a serial run reaches from the empty one, the log is exact. */
  lemma {:induction false} ReachableLogIsExact(ws: seq<Write>)
    ensures LogIsExact(Run(EMPTY, ws))
  {
    if ws != [] {
      var n := |ws| - 1;
      ReachableLogIsExact(ws[..n]);
      ReachableInv(EMPTY, ws[..n]);
      var stores, rs := HandleTells(Run(EMPTY, ws[..n]), ws[n]);
      ChainKeepsLogExact(stores, rs);
    }
  }

  // ----- Forward: replay -----

  /** The flag a creation record stands for; the record does not carry the description. */
  function FlagOf(r: Record): Flag {
    Flag(r.tenant, AsText(At(r.newValue, KeyField, Null)), TypeOfName(AsText(At(r.newValue, TypeField, Null))),
         AsText(At(r.newValue, NameField, Null)), None, AsValue(At(r.newValue, DefaultField, Null)), None)
  }

  function ReplayRecord(s: Store, r: Record): Store {
    var s0 := s.(log := s.log + [r]);
    if r.action == FlagCreated then
      var f := FlagOf(r);
      s0.(flags := s.flags[r.flagId := f],
          configs := s.configs + SeedConfigs(r.flagId, SeedConfig(r.tenant, f.ftype, f.defaultValue)))
    else if HasRow(s, r.flagId, r.env) then
      PutRow(s0, r.flagId, r.env, Apply(Row(s, r.flagId, r.env), r.newValue))
    else s0
  }

  /** Rebuilds a store from nothing but its log. */
  function Replay(log: seq<Record>): Store {
    if log == [] then EMPTY else ReplayRecord(Replay(log[..|log| - 1]), log[|log| - 1])
  }

  /** Whether some record after the creation of `id` names its description. */
  ghost predicate Described(log: seq<Record>, id: Uuid) {
    exists i :: 0 <= i < |log| && log[i].flagId == id && log[i].env == None && DescriptionField in log[i].newValue
  }

  /** The store with every description that no record names left out. */
  ghost function WithoutUntoldDescriptions(s: Store): Store {
    s.(flags := map id | id in s.flags ::
         if Described(s.log, id) then s.flags[id] else s.flags[id].(description := None))
  }

  lemma DescribedStep(log: seq<Record>, r: Record, id: Uuid)
    ensures Described(log + [r], id) <==>
            Described(log, id) || (r.flagId == id && r.env == None && DescriptionField in r.newValue)
  {
    var l := log + [r];
    if Described(log, id) {
      var i :| 0 <= i < |log| && log[i].flagId == id && log[i].env == None && DescriptionField in log[i].newValue;
      assert l[i] == log[i];
    }
    assert l[|log|] == r;
  }

  lemma FlagOfCreation(before: Store, after: Store, r: Record)
    requires TellsCreation(before, after, r)
    ensures FlagOf(r) == after.flags[r.flagId].(description := None)
  {
  }

  lemma ReplayRebuildsCreation(before: Store, after: Store, r: Record)
    requires Tells(before, after, r) && r.action == FlagCreated && Inv(before)
    ensures ReplayRecord(WithoutUntoldDescriptions(before), r) == WithoutUntoldDescriptions(after)
  {
    FlagOfCreation(before, after, r);
    hide SeedConfig, SeedConfigs, FlagOf, Inv;
    var got, a := ReplayRecord(WithoutUntoldDescriptions(before), r), WithoutUntoldDescriptions(after);
    NeverDescribed(before, r.flagId);
    forall id | id in a.flags ensures id in got.flags && got.flags[id] == a.flags[id] {
      DescribedStep(before.log, r, id);
    }
    assert got.flags == a.flags;
  }

  lemma NeverDescribed(s: Store, id: Uuid)
    requires Inv(s) && id !in s.flags
    ensures !Described(s.log, id)
  {
  }

  lemma DiffReplayed(x: Entity, y: Entity, was: Patch, now: Patch)
    requires IsDiff(x, y, was, now)
    ensures Apply(x, now) == y
  {
    forall k ensures Get(Apply(x, now), k) == Get(y, k) {
      ApplyGet(x, now, k);
    }
    RowsEqual(Apply(x, now), y);
  }

  lemma ReplayRebuildsFlag(before: Store, after: Store, r: Record)
    requires r.flagId in before.flags && r.env.None? && r.action != FlagCreated
    requires
      var applied := Apply(FlagRow(before.flags[r.flagId]), r.newValue);
      after == PutRow(before, r.flagId, None, applied).(log := before.log + [r])
    ensures ReplayRecord(WithoutUntoldDescriptions(before), r) == WithoutUntoldDescriptions(after)
  {
    var b, a := WithoutUntoldDescriptions(before), WithoutUntoldDescriptions(after);
    var got := ReplayRecord(b, r);
    ApplyCommutesWithHiding(before.flags[r.flagId], r.newValue);
    ApplyKeepsIdentity(FlagRow(before.flags[r.flagId]), r.newValue);
    ApplyKeepsIdentity(FlagRow(b.flags[r.flagId]), r.newValue);
    assert a.flags.Keys == after.flags.Keys == before.flags.Keys == got.flags.Keys;
    hide Apply, Described;
    forall id | id in a.flags ensures got.flags[id] == a.flags[id] {
      DescribedStep(before.log, r, id);
      if id != r.flagId {
        assert got.flags[id] == b.flags[id] && after.flags[id] == before.flags[id];
      }
    }
    assert got.flags == a.flags;
  }

  lemma ReplayRebuildsConfig(before: Store, after: Store, r: Record)
    requires r.env.Some? && HasRow(before, r.flagId, r.env) && r.action != FlagCreated
    requires
      var applied := Apply(Row(before, r.flagId, r.env), r.newValue);
      after == PutRow(before, r.flagId, r.env, applied).(log := before.log + [r])
    ensures ReplayRecord(WithoutUntoldDescriptions(before), r) == WithoutUntoldDescriptions(after)
  {
    var b, a := WithoutUntoldDescriptions(before), WithoutUntoldDescriptions(after);
    forall id | id in a.flags ensures b.flags[id] == a.flags[id] {
      DescribedStep(before.log, r, id);
    }
    assert b.flags == a.flags;
  }

  /** Hiding the description before or after a patch makes no difference, unless the patch names it. */
  lemma ApplyCommutesWithHiding(f: Flag, p: Patch)
    ensures
      var hidden := Apply(FlagRow(f.(description := None)), p).flag;
      var shown := Apply(FlagRow(f), p).flag;
      hidden == if DescriptionField in p then shown else shown.(description := None)
  {
  }

  lemma {:induction false} ReplayAlongChain(stores: seq<Store>, rs: seq<Record>)
    requires Chain(stores, rs) && forall i :: 0 < i < |rs| ==> rs[i].action != FlagCreated
    requires Inv(stores[0]) && Replay(stores[0].log) == WithoutUntoldDescriptions(stores[0])
    ensures Replay(stores[|rs|].log) == WithoutUntoldDescriptions(stores[|rs|])
  {
    var n := |rs|;
    if n > 0 {
      ReplayAlongChain(stores[..n], rs[..n - 1]);
      assert stores[..n][n - 1] == stores[n - 1];
      ReplayExtends(stores[n - 1], stores[n], rs[n - 1]);
    }
  }

  /** Replaying the log of any store a serial run reaches rebuilds that store: every flag's key,
      name, type, default and archived state, all fields of all three configs of each, and every
      description that an update has named. */
  lemma {:induction false} ReplayRebuildsStore(ws: seq<Write>)
    ensures Replay(Run(EMPTY, ws).log) == WithoutUntoldDescriptions(Run(EMPTY, ws))
  {
    if ws != [] {
      var n := |ws| - 1;
      ReplayRebuildsStore(ws[..n]);
      ReachableInv(EMPTY, ws[..n]);
      var stores, rs := HandleTells(Run(EMPTY, ws[..n]), ws[n]);
      ReplayAlongChain(stores, rs);
    }
  }

  lemma ReplayExtends(before: Store, after: Store, r: Record)
    requires Replay(before.log) == WithoutUntoldDescriptions(before) && Tells(before, after, r)
    requires r.action == FlagCreated ==> Inv(before)
    ensures Replay(after.log) == WithoutUntoldDescriptions(after)
  {
    if r.action == FlagCreated {
      ReplayRebuildsCreation(before, after, r);
    } else {
      DiffReplayed(Row(before, r.flagId, r.env), Row(after, r.flagId, r.env), r.oldValue.value, r.newValue);
      if r.env.None? {
        ReplayRebuildsFlag(before, after, r);
      } else {
        ReplayRebuildsConfig(before, after, r);
      }
    }
    assert (before.log + [r])[..|before.log|] == before.log;
  }

  /** Exactly when replay gives the store back whole: no flag has a description that was set at
      creation and never updated since. */
  lemma ReplayIsWholeIff(ws: seq<Write>)
    ensures
      var s := Run(EMPTY, ws);
      Replay(s.log) == s <==> forall id :: id in s.flags && s.flags[id].description.Some? ==> Described(s.log, id)
  {
    ReplayRebuildsStore(ws);
    var s := Run(EMPTY, ws);
    var t := WithoutUntoldDescriptions(s);
    if t == s {
      forall id | id in s.flags && s.flags[id].description.Some? ensures Described(s.log, id) {
        assert t.flags[id] == s.flags[id];
      }
    } else {
      assert t.flags != s.flags;
      var id :| id in s.flags && t.flags[id] != s.flags[id];
    }
  }

  // ----- History of one flag -----

  predicate About(r: Record, tenant: Uuid, id: Uuid) {
    r.tenant == tenant && r.flagId == id
  }

  /** That flag's records, oldest first. */
  function FlagLog(log: seq<Record>, tenant: Uuid, id: Uuid): seq<Record> {
    if log == [] then []
    else
      var n := |log| - 1;
      FlagLog(log[..n], tenant, id) + if About(log[n], tenant, id) then [log[n]] else []
  }

  /** `flag_history`: the log read from its newest record back, up to `limit` records kept. */
  function History(log: seq<Record>, tenant: Uuid, id: Uuid, limit: nat): seq<Record> {
    if log == [] || limit == 0 then []
    else
      var n := |log| - 1;
      if About(log[n], tenant, id) then [log[n]] + History(log[..n], tenant, id, limit - 1)
      else History(log[..n], tenant, id, limit)
  }

  /** Position `k` of a history is the k-th newest record of that flag, and a history is short
      only when the flag has no more records. */
  lemma {:induction false} HistoryIsNewestFirst(log: seq<Record>, tenant: Uuid, id: Uuid, limit: nat)
    ensures
      var h, l := History(log, tenant, id, limit), FlagLog(log, tenant, id);
      && |h| == (if limit < |l| then limit else |l|)
      && forall k :: 0 <= k < |h| ==> h[k] == l[|l| - 1 - k]
  {
    if log != [] && limit > 0 {
      var n := |log| - 1;
      HistoryIsNewestFirst(log[..n], tenant, id, if About(log[n], tenant, id) then limit - 1 else limit);
    }
  }

  /** A later log only extends a flag's records, whatever requests came between. */
  lemma {:induction false} FlagLogGrows(log: seq<Record>, more: seq<Record>, tenant: Uuid, id: Uuid)
    ensures FlagLog(log, tenant, id) <= FlagLog(log + more, tenant, id)
  {
    if more == [] {
      assert log + more == log;
    } else {
      var n := |more| - 1;
      assert (log + more)[..|log + more| - 1] == log + more[..n];
      FlagLogGrows(log, more[..n], tenant, id);
    }
  }
}
