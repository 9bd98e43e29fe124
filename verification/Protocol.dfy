/** Readers and writers interleaving over the database and the cache, one atomic step at a time.
    A reader does GET, then on a miss or a failure a query, then SET; a writer does a commit, then
    one DEL. Any call to Redis may be lost, entries may be evicted, and time passes freely. */
module Protocol {
  import opened Base
  import opened Engine
  import opened Store
  import opened Compiled
  import opened FlagCache
  import opened Overlap

  /** What became of the DEL a commit owes; `Delivered` keeps the number of the step that sent it. */
  datatype Fate = Pending | Lost | Delivered(step: nat)

  /** One committed state of the database, when it was committed, and the DEL it owes. */
  datatype Version = Version(store: Store, at: int, dels: set<CacheKey>, fate: Fate)

  /** A request between its steps: the GET missed, or the query's rows are in hand. */
  datatype Reader = Missed(key: CacheKey) | Holding(key: CacheKey, rows: seq<Snapshot>, version: nat, readAt: int)

  /** History of a cache entry: what was read, when, and when and by which step it was stored. */
  datatype Provenance = Provenance(version: nat, readAt: int, storedAt: int, step: nat)

  /** The service as a whole. `versions`, the last two fields of `Holding` and `origins` are history
      only: no step's effect on the cache, the readers' rows or the database depends on them. */
  datatype Sys = Sys(now: int, steps: nat, versions: seq<Version>, cache: Entries,
                     origins: map<CacheKey, Provenance>, readers: map<nat, Reader>)

  /** `Commit` is a write that saw the latest commit; `CommitLate` is one that worked out its changes, and
      the keys it will drop, from the rows in `seen`, which it had read before others committed. */
  datatype Event =
    | Tick(d: nat)
    | Commit(w: Write)
    | CommitLate(seen: Store, w: Write)
    | SendDel(v: nat)
    | LoseDel(v: nat)
    | SendGet(r: nat, key: CacheKey, works: bool)
    | Query(r: nat, rows: seq<Snapshot>)
    | SendSet(r: nat)
    | LoseSet(r: nat)
    | Evict(key: CacheKey)

  const START: Sys := Sys(0, 0, [Version(EMPTY, 0, {}, Lost)], map[], map[], map[])

  function Current(s: Sys): Store
    requires s.versions != []
  {
    s.versions[|s.versions| - 1].store
  }

  predicate OwesDel(s: Sys, v: nat) {
    v < |s.versions| && s.versions[v].fate == Pending
  }

  predicate Holds(s: Sys, r: nat) {
    r in s.readers && s.readers[r].Holding?
  }

  /** What a late writer read: rows that those of today descend from. Every earlier version qualifies. */
  ghost predicate CanHaveSeen(s: Sys, seen: Store)
    requires s.versions != []
  {
    Inv(seen) && Inv(Current(s)) && Descends(seen, Current(s))
  }

  function WithFate(s: Sys, v: nat, f: Fate): Sys
    requires v < |s.versions|
  {
    s.(versions := s.versions[v := s.versions[v].(fate := f)])
  }

  /** One step. An event whose precondition does not hold leaves everything but the step count. */
  ghost function Effect(ttl: nat, s: Sys, e: Event): Sys
    requires s.versions != []
  {
    match e
    case Tick(d) => s.(now := s.now + d)
    case Commit(w) =>
      var o := Handle(Current(s), w);
      if o.committed then s.(versions := s.versions + [Version(o.store, s.now, o.dels, Pending)]) else s
    case CommitLate(seen, w) =>
      if CanHaveSeen(s, seen) then
        var o := HandleLate(seen, Current(s), w);
        if o.committed then s.(versions := s.versions + [Version(o.store, s.now, o.dels, Pending)]) else s
      else s
    case SendDel(v) =>
      if OwesDel(s, v) then
        WithFate(s, v, Delivered(s.steps)).(cache := DelKeys(s.cache, s.versions[v].dels),
                                           origins := s.origins - s.versions[v].dels)
      else s
    case LoseDel(v) => if OwesDel(s, v) then WithFate(s, v, Lost) else s
    case SendGet(r, k, works) =>
      if works && Visible(s.cache, k, s.now) then s else s.(readers := s.readers[r := Missed(k)])
    case Query(r, rows) =>
      if r in s.readers && s.readers[r].Missed? && Lists(rows, Compile(Current(s), s.readers[r].key)) then
        s.(readers := s.readers[r := Holding(s.readers[r].key, rows, |s.versions| - 1, s.now)])
      else s
    case SendSet(r) =>
      if Holds(s, r) then
        var h := s.readers[r];
        s.(cache := SetEntry(s.cache, h.key, h.rows, s.now, ttl),
           origins := s.origins[h.key := Provenance(h.version, h.readAt, s.now, s.steps)], readers := s.readers - {r})
      else s
    case LoseSet(r) => s.(readers := s.readers - {r})
    case Evict(k) => s.(cache := s.cache - {k}, origins := s.origins - {k})
  }

  ghost function Step(ttl: nat, s: Sys, e: Event): Sys
    requires s.versions != []
  {
    var t := Effect(ttl, s, e);
    t.(steps := s.steps + 1)
  }

  /** The state after a sequence of events; every sequence whatsoever is a run. */
  ghost function Reach(ttl: nat, es: seq<Event>): (s: Sys)
    ensures s.versions != []
  {
    if es == [] then START else Step(ttl, Reach(ttl, es[..|es| - 1]), es[|es| - 1])
  }

  // ----- History does not steer -----

  /** What an observer without the history variables sees of a reader: its key, and its rows if any. */
  datatype BareReader = BareReader(key: CacheKey, rows: Option<seq<Snapshot>>)

  /** The state without history: clock, database, owed DELs, cache and readers. */
  datatype Bare = Bare(now: int, commits: nat, store: Store, owed: map<nat, set<CacheKey>>, cache: Entries,
                       readers: map<nat, BareReader>)

  function BareOf(r: Reader): BareReader {
    match r
    case Missed(k) => BareReader(k, None)
    case Holding(k, rows, _, _) => BareReader(k, Some(rows))
  }

  function Erase(s: Sys): Bare
    requires s.versions != []
  {
    Bare(s.now, |s.versions|, Current(s),
         map v: nat | v < |s.versions| && s.versions[v].fate == Pending :: s.versions[v].dels,
         s.cache, map r | r in s.readers :: BareOf(s.readers[r]))
  }

  lemma SameReaders(s: Sys, t: Sys, r: nat)
    requires s.versions != [] && t.versions != [] && Erase(s) == Erase(t)
    ensures r in s.readers <==> r in t.readers
    ensures r in s.readers ==> BareOf(s.readers[r]) == BareOf(t.readers[r])
  {
    assert r in s.readers <==> r in Erase(s).readers;
    assert r in t.readers <==> r in Erase(t).readers;
    assert r in s.readers ==> Erase(s).readers[r] == Erase(t).readers[r];
  }

  lemma SameOwed(s: Sys, t: Sys, v: nat)
    requires s.versions != [] && t.versions != [] && Erase(s) == Erase(t)
    ensures OwesDel(s, v) <==> OwesDel(t, v)
    ensures OwesDel(s, v) ==> s.versions[v].dels == t.versions[v].dels
  {
    assert OwesDel(s, v) <==> v in Erase(s).owed;
    assert OwesDel(t, v) <==> v in Erase(t).owed;
    assert OwesDel(s, v) ==> Erase(s).owed[v] == Erase(t).owed[v];
  }

  lemma EraseReaders(s: Sys, r: nat, x: Reader)
    requires s.versions != []
    ensures Erase(s.(readers := s.readers[r := x])) == Erase(s).(readers := Erase(s).readers[r := BareOf(x)])
    ensures Erase(s.(readers := s.readers - {r})) == Erase(s).(readers := Erase(s).readers - {r})
  {
    assert Erase(s.(readers := s.readers[r := x])).readers == Erase(s).readers[r := BareOf(x)];
    assert Erase(s.(readers := s.readers - {r})).readers == Erase(s).readers - {r};
  }

  lemma EraseCommit(s: Sys, st: Store, dels: set<CacheKey>)
    requires s.versions != []
    ensures
      var b := Erase(s);
      Erase(s.(versions := s.versions + [Version(st, s.now, dels, Pending)]))
        == b.(commits := b.commits + 1, store := st, owed := b.owed[b.commits := dels])
  {
    var s' := s.(versions := s.versions + [Version(st, s.now, dels, Pending)]);
    assert forall v :: 0 <= v < |s.versions| ==> s'.versions[v] == s.versions[v];
    assert Erase(s').owed == Erase(s).owed[|s.versions| := dels];
  }

  lemma EraseFate(s: Sys, v: nat, f: Fate)
    requires OwesDel(s, v) && !f.Pending?
    ensures Erase(WithFate(s, v, f)) == Erase(s).(owed := Erase(s).owed - {v})
  {
    assert Erase(WithFate(s, v, f)).owed == Erase(s).owed - {v};
  }

  /** Two states that differ only in history take the same step to states that differ only in history:
      the version numbers, read times and step numbers below are bookkeeping for the proofs. */
  lemma HistoryIsPassive(ttl: nat, s: Sys, t: Sys, e: Event)
    requires s.versions != [] && t.versions != [] && Erase(s) == Erase(t)
    ensures Erase(Step(ttl, s, e)) == Erase(Step(ttl, t, e))
  {
    hide Erase, Handle, HandleLate, Inv, Descends, Compile;
    EraseIgnoresCount(Effect(ttl, s, e), s.steps + 1);
    EraseIgnoresCount(Effect(ttl, t, e), t.steps + 1);
    EraseParts(s);
    EraseParts(t);
    match e
    case Tick(d) =>
      EraseParts(Effect(ttl, s, e));
      EraseParts(Effect(ttl, t, e));
      EraseClock(s, d);
      EraseClock(t, d);
    case Commit(w) =>
      var o := Handle(Current(s), w);
      EraseCommit(s, o.store, o.dels);
      EraseCommit(t, o.store, o.dels);
    case CommitLate(seen, w) =>
      if CanHaveSeen(s, seen) {
        var o := HandleLate(seen, Current(s), w);
        EraseCommit(s, o.store, o.dels);
        EraseCommit(t, o.store, o.dels);
      }
    case SendDel(v) =>
      SameOwed(s, t, v);
      if OwesDel(s, v) {
        EraseDel(ttl, s, v);
        EraseDel(ttl, t, v);
      }
    case LoseDel(v) =>
      SameOwed(s, t, v);
      if OwesDel(s, v) {
        EraseFate(s, v, Lost);
        EraseFate(t, v, Lost);
      }
    case SendGet(r, k, works) =>
      EraseReaders(s, r, Missed(k));
      EraseReaders(t, r, Missed(k));
    case Query(r, rows) =>
      SameReaders(s, t, r);
      if r in s.readers && s.readers[r].Missed? {
        EraseReaders(s, r, Holding(s.readers[r].key, rows, |s.versions| - 1, s.now));
        EraseReaders(t, r, Holding(t.readers[r].key, rows, |t.versions| - 1, t.now));
      }
    case SendSet(r) =>
      SameReaders(s, t, r);
      if Holds(s, r) {
        var h, g := s.readers[r], t.readers[r];
        EraseReaders(s, r, h);
        EraseReaders(t, r, g);
        EraseCache(s.(readers := s.readers - {r}), SetEntry(s.cache, h.key, h.rows, s.now, ttl),
                   s.origins[h.key := Provenance(h.version, h.readAt, s.now, s.steps)]);
        EraseCache(t.(readers := t.readers - {r}), SetEntry(t.cache, g.key, g.rows, t.now, ttl),
                   t.origins[g.key := Provenance(g.version, g.readAt, t.now, t.steps)]);
      }
    case LoseSet(r) =>
      EraseReaders(s, r, Missed(CacheKey("", Staging)));
      EraseReaders(t, r, Missed(CacheKey("", Staging)));
    case Evict(k) =>
      EraseCache(s, s.cache - {k}, s.origins - {k});
      EraseCache(t, t.cache - {k}, t.origins - {k});
  }

  lemma EraseDel(ttl: nat, s: Sys, v: nat)
    requires OwesDel(s, v)
    ensures
      var b := Erase(s);
      Erase(Effect(ttl, s, SendDel(v))) == b.(owed := b.owed - {v}, cache := DelKeys(b.cache, s.versions[v].dels))
  {
    hide Erase;
    var dels, sent := s.versions[v].dels, WithFate(s, v, Delivered(s.steps));
    EraseParts(s);
    EraseFate(s, v, Delivered(s.steps));
    EraseCache(sent, DelKeys(s.cache, dels), s.origins - dels);
  }

  lemma EraseParts(s: Sys)
    requires s.versions != []
    ensures Erase(s).now == s.now && Erase(s).store == Current(s)
    ensures Erase(s).cache == s.cache && Erase(s).commits == |s.versions|
  {
  }

  lemma EraseClock(s: Sys, d: nat)
    requires s.versions != []
    ensures Erase(s.(now := s.now + d)) == Erase(s).(now := s.now + d)
  {
  }

  lemma EraseIgnoresCount(s: Sys, n: nat)
    requires s.versions != []
    ensures Erase(s.(steps := n)) == Erase(s)
  {
  }

  lemma EraseCache(s: Sys, cache: Entries, origins: map<CacheKey, Provenance>)
    requires s.versions != []
    ensures Erase(s.(cache := cache, origins := origins)) == Erase(s).(cache := cache)
  {
  }

  // ----- The inductive invariant -----

  /** Version `v` was the database's state at some moment of instant `t`. */
  ghost predicate CurrentAt(s: Sys, v: nat, t: int) {
    && v < |s.versions| && s.versions[v].at <= t
    && (v + 1 < |s.versions| ==> t <= s.versions[v + 1].at)
  }

  ghost predicate VersionsOk(s: Sys) {
    && |s.versions| > 0
    && (forall v :: 0 <= v < |s.versions| ==> Inv(s.versions[v].store) && s.versions[v].at <= s.now)
    && (forall v :: 0 < v < |s.versions| ==> s.versions[v - 1].at <= s.versions[v].at)
    && (forall v :: 0 <= v < |s.versions| && s.versions[v].fate.Delivered? ==> s.versions[v].fate.step < s.steps)
  }

  /** A key some version changed is among the keys that version owes a DEL for. */
  ghost predicate DelsCover(s: Sys) {
    forall v, k :: 0 < v < |s.versions| && k !in s.versions[v].dels ==>
      Compile(s.versions[v].store, k) == Compile(s.versions[v - 1].store, k)
  }

  /** `rows` is what a query under `k` returned at instant `t`, when `v` was current. */
  ghost predicate Seen(s: Sys, k: CacheKey, rows: seq<Snapshot>, v: nat, t: int) {
    CurrentAt(s, v, t) && t <= s.now && Lists(rows, Compile(s.versions[v].store, k))
  }

  /** The DEL of a version has not removed an entry stored at step `n`, because it is still to come,
      was lost, or was sent before that step. */
  predicate Missing(f: Fate, n: nat) {
    f.Pending? || f.Lost? || f.step < n
  }

  ghost predicate EntryOk(s: Sys, k: CacheKey)
    requires k in s.cache && k in s.origins
  {
    var o := s.origins[k];
    && Seen(s, k, s.cache[k].payload, o.version, o.readAt) && o.step < s.steps
    && forall v :: o.version < v < |s.versions| && k in s.versions[v].dels ==> Missing(s.versions[v].fate, o.step)
  }

  ghost predicate EntriesOk(s: Sys) {
    && s.cache.Keys == s.origins.Keys
    && forall k :: k in s.cache ==> EntryOk(s, k)
  }

  ghost predicate ReadersOk(s: Sys) {
    forall r :: Holds(s, r) ==> Seen(s, s.readers[r].key, s.readers[r].rows, s.readers[r].version, s.readers[r].readAt)
  }

  ghost predicate SysOk(s: Sys) {
    VersionsOk(s) && DelsCover(s) && EntriesOk(s) && ReadersOk(s)
  }

  /** `s'` has the versions of `s`, perhaps with other fates, and perhaps one more committed later. */
  ghost predicate Extends(s: Sys, s': Sys) {
    && |s.versions| <= |s'.versions| && s.now <= s'.now && s.steps <= s'.steps
    && (forall v :: 0 <= v < |s.versions| ==>
          s'.versions[v].store == s.versions[v].store && s'.versions[v].at == s.versions[v].at
          && s'.versions[v].dels == s.versions[v].dels)
    && (forall v :: |s.versions| <= v < |s'.versions| ==> s.now <= s'.versions[v].at)
  }

  lemma SeenStays(s: Sys, s': Sys, k: CacheKey, rows: seq<Snapshot>, v: nat, t: int)
    requires Extends(s, s') && Seen(s, k, rows, v, t)
    ensures Seen(s', k, rows, v, t)
  {
  }

  lemma EntryStays(s: Sys, s': Sys, k: CacheKey)
    requires Extends(s, s') && k in s.cache && k in s.origins && EntryOk(s, k)
    requires k in s'.cache && k in s'.origins && s'.cache[k] == s.cache[k] && s'.origins[k] == s.origins[k]
    requires forall v :: 0 <= v < |s'.versions| && k in s'.versions[v].dels ==>
      || s'.versions[v].fate.Pending? || s'.versions[v].fate.Lost?
      || (v < |s.versions| && s'.versions[v].fate == s.versions[v].fate)
    ensures EntryOk(s', k)
  {
    var o := s.origins[k];
    SeenStays(s, s', k, s.cache[k].payload, o.version, o.readAt);
  }

  lemma ReadersStay(s: Sys, s': Sys)
    requires ReadersOk(s) && Extends(s, s')
    requires forall r :: Holds(s', r) ==> Holds(s, r) && s'.readers[r] == s.readers[r]
    ensures ReadersOk(s')
  {
    forall r | Holds(s', r)
      ensures Seen(s', s'.readers[r].key, s'.readers[r].rows, s'.readers[r].version, s'.readers[r].readAt)
    {
      assert Holds(s, r);
      SeenStays(s, s', s.readers[r].key, s.readers[r].rows, s.readers[r].version, s.readers[r].readAt);
    }
  }

  lemma EntriesStay(s: Sys, s': Sys)
    requires EntriesOk(s) && Extends(s, s')
    requires s'.cache.Keys == s'.origins.Keys <= s.cache.Keys
    requires forall k :: k in s'.cache ==> s'.cache[k] == s.cache[k] && s'.origins[k] == s.origins[k]
    requires forall v, k :: 0 <= v < |s'.versions| && k in s'.cache && k in s'.versions[v].dels ==>
      || s'.versions[v].fate.Pending? || s'.versions[v].fate.Lost?
      || (v < |s.versions| && s'.versions[v].fate == s.versions[v].fate)
    ensures EntriesOk(s')
  {
    forall k | k in s'.cache ensures EntryOk(s', k) {
      EntryStays(s, s', k);
    }
  }

  function Appended(s: Sys, st: Store, dels: set<CacheKey>): Sys {
    s.(versions := s.versions + [Version(st, s.now, dels, Pending)], steps := s.steps + 1)
  }

  lemma AppendedVersions(s: Sys, st: Store, dels: set<CacheKey>)
    requires VersionsOk(s) && DelsCover(s) && Covers(Current(s), st, dels)
    ensures VersionsOk(Appended(s, st, dels)) && DelsCover(Appended(s, st, dels)) && Extends(s, Appended(s, st, dels))
  {
    hide Inv, Compile;
    var s', n := Appended(s, st, dels), |s.versions|;
    assert forall v :: 0 <= v < n ==> s'.versions[v] == s.versions[v];
    assert s'.versions[n] == Version(st, s.now, dels, Pending);
    forall v, k | 0 < v < |s'.versions| && k !in s'.versions[v].dels
      ensures Compile(s'.versions[v].store, k) == Compile(s'.versions[v - 1].store, k)
    {
      assert v < n || s'.versions[v - 1].store == Current(s);
    }
  }

  lemma AppendKeepsOk(s: Sys, st: Store, dels: set<CacheKey>)
    requires SysOk(s) && Covers(Current(s), st, dels)
    ensures SysOk(Appended(s, st, dels))
  {
    hide Inv, Compile, EntryOk, Seen;
    var s' := Appended(s, st, dels);
    AppendedVersions(s, st, dels);
    EntriesStay(s, s');
    ReadersStay(s, s');
  }

  lemma CommitStep(ttl: nat, s: Sys, w: Write)
    requires s.versions != []
    ensures
      var o := Handle(Current(s), w);
      Step(ttl, s, Commit(w)) == if o.committed then Appended(s, o.store, o.dels) else s.(steps := s.steps + 1)
  {
  }

  lemma CommitKeepsOk(ttl: nat, s: Sys, w: Write)
    requires SysOk(s)
    ensures SysOk(Step(ttl, s, Commit(w)))
  {
    CommitStep(ttl, s, w);
    CommitCovered(Current(s), w);
    if Step(ttl, s, Commit(w)) == s.(steps := s.steps + 1) {
      IdleKeepsOk(s, s.(steps := s.steps + 1));
    } else {
      AppendKeepsOk(s, Handle(Current(s), w).store, Handle(Current(s), w).dels);
    }
  }

  lemma CommitLateKeepsOk(ttl: nat, s: Sys, seen: Store, w: Write)
    requires SysOk(s)
    ensures SysOk(Step(ttl, s, CommitLate(seen, w)))
  {
    hide HandleLate, Inv, Compile;
    var s' := Step(ttl, s, CommitLate(seen, w));
    if s'.versions == s.versions {
      IdleKeepsOk(s, s');
    } else {
      var o := HandleLate(seen, Current(s), w);
      LateCovers(seen, Current(s), w);
      assert s' == Appended(s, o.store, o.dels);
      AppendKeepsOk(s, o.store, o.dels);
    }
  }

  /** Steps that leave versions and cache alone, except that the cache may lose entries. */
  lemma IdleKeepsOk(s: Sys, s': Sys)
    requires SysOk(s)
    requires s'.versions == s.versions && s.now <= s'.now && s.steps < s'.steps
    requires s'.cache.Keys == s'.origins.Keys <= s.cache.Keys
    requires forall k :: k in s'.cache ==> s'.cache[k] == s.cache[k] && s'.origins[k] == s.origins[k]
    requires forall r :: Holds(s', r) ==>
      || (Holds(s, r) && s'.readers[r] == s.readers[r])
      || Seen(s, s'.readers[r].key, s'.readers[r].rows, s'.readers[r].version, s'.readers[r].readAt)
    ensures SysOk(s')
  {
    assert Extends(s, s');
    EntriesStay(s, s');
    forall r | Holds(s', r)
      ensures Seen(s', s'.readers[r].key, s'.readers[r].rows, s'.readers[r].version, s'.readers[r].readAt)
    {
      SeenStays(s, s', s'.readers[r].key, s'.readers[r].rows, s'.readers[r].version, s'.readers[r].readAt);
    }
  }

  lemma FateKeepsVersions(s: Sys, v: nat, f: Fate, s': Sys)
    requires VersionsOk(s) && DelsCover(s) && v < |s.versions| && (f.Delivered? ==> f.step == s.steps)
    requires s'.versions == WithFate(s, v, f).versions && s'.now == s.now && s'.steps == s.steps + 1
    ensures VersionsOk(s') && DelsCover(s') && Extends(s, s')
    ensures forall u :: 0 <= u < |s.versions| && u != v ==> s'.versions[u] == s.versions[u]
    ensures s'.versions[v] == s.versions[v].(fate := f)
  {
    assert Extends(s, s');
    forall u, k | 0 < u < |s'.versions| && k !in s'.versions[u].dels
      ensures Compile(s'.versions[u].store, k) == Compile(s'.versions[u - 1].store, k)
    {
      assert s'.versions[u].dels == s.versions[u].dels && s'.versions[u].store == s.versions[u].store;
      assert s'.versions[u - 1].store == s.versions[u - 1].store;
    }
  }

  lemma SendDelKeepsOk(ttl: nat, s: Sys, v: nat)
    requires SysOk(s) && OwesDel(s, v)
    ensures SysOk(Step(ttl, s, SendDel(v)))
  {
    hide Inv, Compile, EntryOk, Seen, VersionsOk, DelsCover;
    var s' := Step(ttl, s, SendDel(v));
    FateKeepsVersions(s, v, Delivered(s.steps), s');
    EntriesStay(s, s');
    ReadersStay(s, s');
  }

  lemma LoseDelKeepsOk(ttl: nat, s: Sys, v: nat)
    requires SysOk(s) && OwesDel(s, v)
    ensures SysOk(Step(ttl, s, LoseDel(v)))
  {
    hide Inv, Compile, EntryOk, Seen, VersionsOk, DelsCover;
    var s' := Step(ttl, s, LoseDel(v));
    FateKeepsVersions(s, v, Lost, s');
    EntriesStay(s, s');
    ReadersStay(s, s');
  }

  lemma SameVersionsOk(s: Sys, s': Sys)
    requires VersionsOk(s) && DelsCover(s)
    requires s'.versions == s.versions && s'.now == s.now && s'.steps == s.steps + 1
    ensures VersionsOk(s') && DelsCover(s')
  {
    hide Inv, Compile;
  }

  lemma SendSetKeepsOk(ttl: nat, s: Sys, r: nat)
    requires SysOk(s) && Holds(s, r)
    ensures SysOk(Step(ttl, s, SendSet(r)))
  {
    hide Inv, Compile, Lists, DelsCover, Handle, EntryOk, Seen;
    var s' := Step(ttl, s, SendSet(r));
    SameVersionsOk(s, s');
    assert Extends(s, s');
    ReadersStay(s, s');
    FilledEntryOk(ttl, s, r);
    OthersStay(s, s', s.readers[r].key);
  }

  lemma OthersStay(s: Sys, s': Sys, key: CacheKey)
    requires EntriesOk(s) && Extends(s, s') && s'.versions == s.versions && s'.cache.Keys == s'.origins.Keys
    requires key in s'.cache ==> EntryOk(s', key)
    requires forall k :: k in s'.cache && k != key ==>
      k in s.cache && s'.cache[k] == s.cache[k] && s'.origins[k] == s.origins[k]
    ensures EntriesOk(s')
  {
    hide Seen, Extends, EntryOk;
    forall k | k in s'.cache ensures EntryOk(s', k) {
      if k != key {
        EntryStays(s, s', k);
      }
    }
  }

  lemma FilledEntryOk(ttl: nat, s: Sys, r: nat)
    requires VersionsOk(s) && ReadersOk(s) && Holds(s, r)
    ensures
      var s', k := Step(ttl, s, SendSet(r)), s.readers[r].key;
      k in s'.cache && k in s'.origins && EntryOk(s', k)
  {
    hide Inv, Compile, Lists, Handle;
    var s', h := Step(ttl, s, SendSet(r)), s.readers[r];
    assert Extends(s, s');
    SeenStays(s, s', h.key, h.rows, h.version, h.readAt);
  }

  lemma QueryKeepsOk(ttl: nat, s: Sys, r: nat, rows: seq<Snapshot>)
    requires SysOk(s)
    ensures SysOk(Step(ttl, s, Query(r, rows)))
  {
    hide Inv, Compile, EntryOk;
    var s' := Step(ttl, s, Query(r, rows));
    if s'.readers != s.readers {
      var k := s.readers[r].key;
      assert s'.readers == s.readers[r := Holding(k, rows, |s.versions| - 1, s.now)];
      assert Seen(s, k, rows, |s.versions| - 1, s.now);
    }
    IdleKeepsOk(s, s');
  }

  lemma StepKeepsOk(ttl: nat, s: Sys, e: Event)
    requires SysOk(s)
    ensures SysOk(Step(ttl, s, e))
  {
    hide Inv, Compile, Lists, Handle, HandleLate;
    var s' := Step(ttl, s, e);
    match e
    case Commit(w) => CommitKeepsOk(ttl, s, w);
    case CommitLate(seen, w) => CommitLateKeepsOk(ttl, s, seen, w);
    case SendDel(v) => if OwesDel(s, v) { SendDelKeepsOk(ttl, s, v); } else { IdleKeepsOk(s, s'); }
    case LoseDel(v) => if OwesDel(s, v) { LoseDelKeepsOk(ttl, s, v); } else { IdleKeepsOk(s, s'); }
    case SendSet(r) => if Holds(s, r) { SendSetKeepsOk(ttl, s, r); } else { IdleKeepsOk(s, s'); }
    case Query(r, rows) => QueryKeepsOk(ttl, s, r, rows);
    case Tick(_) => IdleKeepsOk(s, s');
    case SendGet(_, _, _) => IdleKeepsOk(s, s');
    case LoseSet(_) => IdleKeepsOk(s, s');
    case Evict(_) => IdleKeepsOk(s, s');
  }

  lemma {:induction false} ReachableOk(ttl: nat, es: seq<Event>)
    ensures SysOk(Reach(ttl, es))
  {
    if es != [] {
      ReachableOk(ttl, es[..|es| - 1]);
      StepKeepsOk(ttl, Reach(ttl, es[..|es| - 1]), es[|es| - 1]);
    }
  }

  // ----- What a late writer can have read -----

  ghost predicate Lineage(s: Sys) {
    forall u, v :: 0 <= u <= v < |s.versions| ==> Descends(s.versions[u].store, s.versions[v].store)
  }

  lemma AppendKeepsLineage(s: Sys, s': Sys, st: Store)
    requires s.versions != [] && Lineage(s) && Descends(Current(s), st)
    requires |s'.versions| == |s.versions| + 1 && s'.versions[|s.versions|].store == st
    requires forall v :: 0 <= v < |s.versions| ==> s'.versions[v].store == s.versions[v].store
    ensures Lineage(s')
  {
    var n := |s.versions|;
    forall u, v | 0 <= u <= v < n + 1 ensures Descends(s'.versions[u].store, s'.versions[v].store) {
      if u < n == v {
        assert Descends(s.versions[u].store, Current(s));
      }
    }
  }

  lemma StepKeepsLineage(ttl: nat, s: Sys, e: Event)
    requires SysOk(s) && Lineage(s)
    ensures Lineage(Step(ttl, s, e))
  {
    hide Inv, Compile, Lists, Handle, HandleLate, Descends, DelsCover, EntriesOk, ReadersOk;
    var s' := Step(ttl, s, e);
    match e
    case Commit(w) =>
      HandleDescends(Current(s), w);
      if s'.versions != s.versions { AppendKeepsLineage(s, s', Handle(Current(s), w).store); }
    case CommitLate(seen, w) =>
      if CanHaveSeen(s, seen) {
        LateCovers(seen, Current(s), w);
        if s'.versions != s.versions { AppendKeepsLineage(s, s', HandleLate(seen, Current(s), w).store); }
      }
    case _ =>
      assert |s'.versions| == |s.versions|;
      assert forall v :: 0 <= v < |s.versions| ==> s'.versions[v].store == s.versions[v].store;
  }

  lemma {:induction false} VersionsDescend(ttl: nat, es: seq<Event>)
    ensures Lineage(Reach(ttl, es))
  {
    if es != [] {
      VersionsDescend(ttl, es[..|es| - 1]);
      ReachableOk(ttl, es[..|es| - 1]);
      StepKeepsLineage(ttl, Reach(ttl, es[..|es| - 1]), es[|es| - 1]);
    }
  }

  /** A writer can have read its rows from any version there has been: its commit is then always one of the
      steps above, whatever was committed in between. */
  lemma AnyVersionCanBeSeen(ttl: nat, es: seq<Event>, v: nat)
    requires v < |Reach(ttl, es).versions|
    ensures CanHaveSeen(Reach(ttl, es), Reach(ttl, es).versions[v].store)
  {
    hide Inv, Descends;
    ReachableOk(ttl, es);
    VersionsDescend(ttl, es);
  }

  // ----- Staleness -----

  /** Every SET of the run went out within `d` ticks of the query whose rows it carries. */
  ghost predicate SetsWithin(ttl: nat, es: seq<Event>, d: nat) {
    es != [] ==>
      var s, e := Reach(ttl, es[..|es| - 1]), es[|es| - 1];
      && SetsWithin(ttl, es[..|es| - 1], d)
      && (e.SendSet? && Holds(s, e.r) ==> s.now - s.readers[e.r].readAt <= d)
  }

  /** Each entry expires TTL after the SET that stored it ... */
  ghost predicate FillTimed(ttl: nat, s: Sys) {
    forall k :: k in s.cache && k in s.origins ==> s.cache[k].expiresAt == s.origins[k].storedAt + ttl
  }

  /** ... which came at most `d` after the query. */
  ghost predicate HeldWithin(s: Sys, d: nat) {
    forall k :: k in s.origins ==> s.origins[k].storedAt <= s.origins[k].readAt + d
  }

  lemma {:induction false} FillsTimed(ttl: nat, es: seq<Event>)
    ensures FillTimed(ttl, Reach(ttl, es))
  {
    if es != [] {
      FillsTimed(ttl, es[..|es| - 1]);
      StepKeepsTimed(ttl, Reach(ttl, es[..|es| - 1]), es[|es| - 1]);
    }
  }

  lemma StepKeepsTimed(ttl: nat, s: Sys, e: Event)
    requires s.versions != [] && FillTimed(ttl, s)
    ensures FillTimed(ttl, Step(ttl, s, e))
  {
    hide Handle, HandleLate, Compile, Lists, Visible;
    match e
    case SendSet(_) =>
    case SendDel(_) =>
    case Evict(_) =>
    case _ => SameEntries(ttl, s, e);
  }

  lemma SameEntries(ttl: nat, s: Sys, e: Event)
    requires s.versions != [] && !e.SendSet? && !e.SendDel? && !e.Evict?
    ensures Step(ttl, s, e).cache == s.cache && Step(ttl, s, e).origins == s.origins
  {
    hide Handle, HandleLate, Compile, Lists, Visible;
  }

  lemma {:induction false} RowsHeldWithin(ttl: nat, es: seq<Event>, d: nat)
    requires SetsWithin(ttl, es, d)
    ensures HeldWithin(Reach(ttl, es), d)
  {
    hide Handle, HandleLate, Compile, Lists, Visible, SetEntry, DelKeys;
    if es != [] {
      RowsHeldWithin(ttl, es[..|es| - 1], d);
    }
  }

  lemma ExpiryBounded(ttl: nat, es: seq<Event>, d: nat, k: CacheKey)
    requires SetsWithin(ttl, es, d) && k in Reach(ttl, es).cache
    ensures k in Reach(ttl, es).origins
    ensures Reach(ttl, es).cache[k].expiresAt <= Reach(ttl, es).origins[k].readAt + ttl + d
  {
    hide Reach, SetsWithin, VersionsOk, DelsCover, ReadersOk, EntryOk;
    ReachableOk(ttl, es);
    FillsTimed(ttl, es);
    RowsHeldWithin(ttl, es, d);
  }

  /** In every state of every run, whatever failed, an entry a reader can see under a key lists the set
      compiled for exactly that tenant and environment from the database as it stood at some instant
      later than now - TTL - D, where D bounds how long the run's readers held on to their rows. */
  lemma StalenessBound(ttl: nat, es: seq<Event>, d: nat, k: CacheKey) returns (v: nat, t: int)
    requires SetsWithin(ttl, es, d) && Visible(Reach(ttl, es).cache, k, Reach(ttl, es).now)
    ensures
      var s := Reach(ttl, es);
      && s.now - ttl - d < t <= s.now && CurrentAt(s, v, t)
      && Lists(s.cache[k].payload, Compile(s.versions[v].store, k))
  {
    var s := Reach(ttl, es);
    ReachableOk(ttl, es);
    ExpiryBounded(ttl, es, d, k);
    assert EntryOk(s, k);
    v, t := s.origins[k].version, s.origins[k].readAt;
  }

  // ----- How long a change can go unseen -----

  /** An entry that a commit has overtaken is gone within TTL of that commit if it was stored before it, and
      within TTL + D however late it was stored. */
  lemma OvertakenEntryExpires(ttl: nat, es: seq<Event>, d: nat, k: CacheKey, v: nat)
    requires SetsWithin(ttl, es, d) && Visible(Reach(ttl, es).cache, k, Reach(ttl, es).now)
    requires k in Reach(ttl, es).origins && Reach(ttl, es).origins[k].version < v < |Reach(ttl, es).versions|
    ensures
      var s := Reach(ttl, es);
      && (s.origins[k].storedAt <= s.versions[v].at ==> s.now < s.versions[v].at + ttl)
      && s.now < s.versions[v].at + ttl + d
  {
    hide Effect, SetsWithin, Inv, Compile, DelsCover, ReadersOk, Lists;
    var s := Reach(ttl, es);
    ReachableOk(ttl, es);
    FillsTimed(ttl, es);
    ExpiryBounded(ttl, es, d, k);
    assert EntryOk(s, k);
    VersionsRise(s, s.origins[k].version + 1, v);
  }

  /** "The TTL bounds how long a killed flag stays live" holds of an entry if and only if the entry had been
      stored when the commit came: it then expires within TTL of the commit, and otherwise it outlives that. */
  lemma TtlBoundsIff(ttl: nat, es: seq<Event>, k: CacheKey, v: nat)
    requires k in Reach(ttl, es).cache && v < |Reach(ttl, es).versions|
    ensures k in Reach(ttl, es).origins
    ensures
      var s := Reach(ttl, es);
      s.cache[k].expiresAt <= s.versions[v].at + ttl <==> s.origins[k].storedAt <= s.versions[v].at
  {
    hide VersionsOk, DelsCover, ReadersOk, EntryOk;
    ReachableOk(ttl, es);
    FillsTimed(ttl, es);
  }

  lemma {:induction false} VersionsRise(s: Sys, u: nat, v: nat)
    requires VersionsOk(s) && u <= v < |s.versions|
    ensures s.versions[u].at <= s.versions[v].at
    decreases v
  {
    hide Inv;
    if u < v {
      VersionsRise(s, u, v - 1);
    }
  }

  /** Staleness heals by itself: once TTL + D ticks have passed since the last commit, every visible
      entry is the current set, however many DELs were lost and however the fills raced. */
  lemma QuietPeriodHeals(ttl: nat, es: seq<Event>, d: nat, k: CacheKey)
    requires SetsWithin(ttl, es, d)
    requires
      var s := Reach(ttl, es);
      s.versions[|s.versions| - 1].at <= s.now - ttl - d
    ensures
      var s := Reach(ttl, es);
      Coherent(s.cache, k, s.now, Current(s))
  {
    hide Effect, SetsWithin, Compile, SysOk, Inv, Lists;
    ReachableOk(ttl, es);
    if Visible(Reach(ttl, es).cache, k, Reach(ttl, es).now) {
      var v, t := StalenessBound(ttl, es, d, k);
      HealedIn(Reach(ttl, es), k, v, t);
    }
  }

  lemma HealedIn(s: Sys, k: CacheKey, v: nat, t: int)
    requires VersionsOk(s) && CurrentAt(s, v, t) && s.versions[|s.versions| - 1].at < t
    requires k in s.cache && Lists(s.cache[k].payload, Compile(s.versions[v].store, k))
    ensures Lists(s.cache[k].payload, Compile(Current(s), k))
  {
    LastWhenLater(s, v, t);
  }

  lemma LastWhenLater(s: Sys, v: nat, t: int)
    requires VersionsOk(s) && CurrentAt(s, v, t) && s.versions[|s.versions| - 1].at < t
    ensures v == |s.versions| - 1
  {
    hide Inv;
    if v + 1 < |s.versions| {
      VersionsRise(s, v + 1, |s.versions| - 1);
    }
  }

  // ----- Exactly when an entry is fresh -----

  lemma ListsOne(rows: seq<Snapshot>, c: set<Snapshot>, c': set<Snapshot>)
    requires Lists(rows, c)
    ensures Lists(rows, c') <==> c == c'
  {
    if Lists(rows, c') {
      assert forall x :: x in c <==> x in c';
    }
  }

  /** In every reachable state an entry is the current set of its key if and only if the commits since the
      query behind it have, taken together, left that set as it was. */
  lemma FreshIff(ttl: nat, es: seq<Event>, k: CacheKey)
    requires k in Reach(ttl, es).cache
    ensures k in Reach(ttl, es).origins && Reach(ttl, es).origins[k].version < |Reach(ttl, es).versions|
    ensures
      var s := Reach(ttl, es);
      Lists(s.cache[k].payload, Compile(Current(s), k)) <==>
        Compile(s.versions[s.origins[k].version].store, k) == Compile(Current(s), k)
  {
    var s := Reach(ttl, es);
    ReachableOk(ttl, es);
    assert EntryOk(s, k);
    hide Compile, Lists;
    ListsOne(s.cache[k].payload, Compile(s.versions[s.origins[k].version].store, k), Compile(Current(s), k));
  }

  /** A fill leaves its key fresh if and only if the key's set is still, or again, what it was at the reader's
      query, whichever DELs have been sent meanwhile. */
  lemma FillFreshIff(ttl: nat, es: seq<Event>, r: nat)
    requires ttl > 0 && Holds(Reach(ttl, es), r)
    ensures Reach(ttl, es).readers[r].version < |Reach(ttl, es).versions|
    ensures
      var s, s' := Reach(ttl, es), Reach(ttl, es + [SendSet(r)]);
      var h := s.readers[r];
      Coherent(s'.cache, h.key, s'.now, Current(s')) <==>
        Compile(s.versions[h.version].store, h.key) == Compile(Current(s), h.key)
  {
    hide Reach, Compile, Lists, Inv, Step;
    ReachableOk(ttl, es);
    ReachStep(ttl, es, SendSet(r));
    FillFreshIn(ttl, Reach(ttl, es), r);
  }

  lemma FillFreshIn(ttl: nat, s: Sys, r: nat)
    requires ttl > 0 && s.versions != [] && Holds(s, r)
    requires Seen(s, s.readers[r].key, s.readers[r].rows, s.readers[r].version, s.readers[r].readAt)
    ensures
      var h, s' := s.readers[r], Step(ttl, s, SendSet(r));
      Coherent(s'.cache, h.key, s'.now, Current(s')) <==>
        Compile(s.versions[h.version].store, h.key) == Compile(Current(s), h.key)
  {
    hide Compile, Lists;
    var h := s.readers[r];
    ListsOne(h.rows, Compile(s.versions[h.version].store, h.key), Compile(Current(s), h.key));
  }

  /** With one write committed since the query, a check on that write decides: the fill leaves its key fresh
      if and only if the write is none of those that change the key's set. */
  lemma OvertakenFillFreshIff(ttl: nat, es: seq<Event>, r: nat, w: Write)
    requires ttl > 0 && Holds(Reach(ttl, es), r)
    requires
      var s, v := Reach(ttl, es), Reach(ttl, es).readers[r].version;
      v + 2 == |s.versions| && s.versions[v + 1].store == Handle(s.versions[v].store, w).store
    ensures
      var s, s' := Reach(ttl, es), Reach(ttl, es + [SendSet(r)]);
      var h := s.readers[r];
      Coherent(s'.cache, h.key, s'.now, Current(s')) <==> !ChangesSet(s.versions[h.version].store, w, h.key)
  {
    hide ChangesSet, Compile, Handle, Effect;
    var s := Reach(ttl, es);
    ReachableOk(ttl, es);
    FillFreshIff(ttl, es, r);
    SetChangesIff(s.versions[s.readers[r].version].store, w, s.readers[r].key);
  }

  /** `ws` are the writes committed since version `v`, none of which changes the set of `k`. */
  ghost predicate OnlyBystanders(s: Sys, v: nat, ws: seq<Write>, k: CacheKey) {
    && v + 1 + |ws| == |s.versions|
    && forall i :: 0 <= i < |ws| ==>
         && s.versions[v + i + 1].store == Handle(s.versions[v + i].store, ws[i]).store
         && !ChangesSet(s.versions[v + i].store, ws[i], k)
  }

  lemma {:induction false} BystandersKeepSet(s: Sys, v: nat, ws: seq<Write>, k: CacheKey, n: nat)
    requires VersionsOk(s) && OnlyBystanders(s, v, ws, k) && n <= |ws|
    ensures Compile(s.versions[v].store, k) == Compile(s.versions[v + n].store, k)
  {
    hide ChangesSet, Compile, Handle, Inv;
    if n > 0 {
      BystandersKeepSet(s, v, ws, k, n - 1);
      assert s.versions[v + (n - 1) + 1].store == Handle(s.versions[v + (n - 1)].store, ws[n - 1]).store;
      SetChangesIff(s.versions[v + n - 1].store, ws[n - 1], k);
    }
  }

  /** With any number of writes committed since the query, checking each of them suffices: if none is of those
      that change the key's set, the fill leaves its key fresh. */
  lemma BystandersKeepFillFresh(ttl: nat, es: seq<Event>, r: nat, ws: seq<Write>)
    requires ttl > 0 && Holds(Reach(ttl, es), r)
    requires OnlyBystanders(Reach(ttl, es), Reach(ttl, es).readers[r].version, ws, Reach(ttl, es).readers[r].key)
    ensures
      var h, s' := Reach(ttl, es).readers[r], Reach(ttl, es + [SendSet(r)]);
      Coherent(s'.cache, h.key, s'.now, Current(s'))
  {
    hide Reach, OnlyBystanders, Compile, Inv, Coherent;
    ReachableOk(ttl, es);
    var s, h := Reach(ttl, es), Reach(ttl, es).readers[r];
    FillFreshIff(ttl, es, r);
    BystandersKeepSet(s, h.version, ws, h.key, |ws|);
    BystandersCount(s, h.version, ws, h.key);
  }

  lemma BystandersCount(s: Sys, v: nat, ws: seq<Write>, k: CacheKey)
    requires OnlyBystanders(s, v, ws, k)
    ensures v + |ws| == |s.versions| - 1
  {
  }

  // ----- Coherence -----

  /** A commit made after the entry's rows were read owes or owed a DEL of `k`. */
  ghost predicate NewerDel(s: Sys, k: CacheKey, v: int) {
    k in s.origins && s.origins[k].version < v < |s.versions| && k in s.versions[v].dels
  }

  /** The three ways a stale entry can be there: the DEL is still to come, ... */
  ghost predicate DelPending(s: Sys, k: CacheKey) {
    exists v :: NewerDel(s, k, v) && s.versions[v].fate.Pending?
  }

  /** ... it was lost, ... */
  ghost predicate DelLost(s: Sys, k: CacheKey) {
    exists v :: NewerDel(s, k, v) && s.versions[v].fate.Lost?
  }

  /** ... or it was sent before a reader, whose rows were older than that commit, stored them. */
  ghost predicate LateFill(s: Sys, k: CacheKey) {
    exists v :: NewerDel(s, k, v) && s.versions[v].fate.Delivered? && s.versions[v].fate.step < s.origins[k].step
  }

  lemma {:induction false} UnchangedBetween(s: Sys, k: CacheKey, u: nat, v: nat)
    requires VersionsOk(s) && DelsCover(s) && u <= v < |s.versions|
    requires forall w :: u < w <= v ==> k !in s.versions[w].dels
    ensures Compile(s.versions[u].store, k) == Compile(s.versions[v].store, k)
    decreases v
  {
    hide Inv, Compile;
    if u < v {
      UnchangedBetween(s, k, u, v - 1);
      assert k !in s.versions[v].dels;
    }
  }

  lemma StaleOnlyForCauseIn(s: Sys, k: CacheKey)
    requires VersionsOk(s) && DelsCover(s) && k in s.cache && k in s.origins && EntryOk(s, k)
    ensures Lists(s.cache[k].payload, Compile(Current(s), k)) || DelPending(s, k) || DelLost(s, k) || LateFill(s, k)
  {
    hide Inv, Compile, Lists;
    var o := s.origins[k];
    if v :| o.version < v < |s.versions| && k in s.versions[v].dels {
      assert NewerDel(s, k, v) && Missing(s.versions[v].fate, o.step);
    } else {
      UnchangedBetween(s, k, o.version, |s.versions| - 1);
    }
  }

  /** In every reachable state an entry lists the current set of its key, or one of the three causes holds. */
  lemma StaleOnlyForCause(ttl: nat, es: seq<Event>, k: CacheKey)
    requires k in Reach(ttl, es).cache
    ensures
      var s := Reach(ttl, es);
      Lists(s.cache[k].payload, Compile(Current(s), k)) || DelPending(s, k) || DelLost(s, k) || LateFill(s, k)
  {
    ReachableOk(ttl, es);
    StaleOnlyForCauseIn(Reach(ttl, es), k);
  }

  /** Without those causes an evaluation from the cache answers exactly as one from the database. */
  lemma CachedEvaluationIsDirect(p: Platform, ttl: nat, es: seq<Event>, k: CacheKey, rows: seq<Snapshot>,
                                 userId: string, ctx: Context, keys: Option<seq<string>>)
    requires
      var s := Reach(ttl, es);
      && k in s.cache && !DelPending(s, k) && !DelLost(s, k) && !LateFill(s, k)
      && Lists(rows, Compile(Current(s), k))
    ensures
      var s := Reach(ttl, es);
      EvaluateRows(p, s.cache[k].payload, userId, ctx, keys) == EvaluateRows(p, rows, userId, ctx, keys)
  {
    var s := Reach(ttl, es);
    ReachableOk(ttl, es);
    StaleOnlyForCause(ttl, es, k);
    CompiledShape(Current(s), k);
    RowOrderIrrelevant(p, s.cache[k].payload, rows, Compile(Current(s), k), userId, ctx, keys);
  }

  // ----- What the code does not promise -----

  const RACE_KEY: CacheKey := CacheKey("t", Production)

  function RaceCreate(): Write {
    CreateReq(Caller("a", "t"), "t", FlagCreate("f", "f", None, Boolean, Bool(false)), "id", true)
  }

  /** A reader queries before a commit and stores `d` after that commit's DEL; then `t` more ticks pass. */
  function RaceRun(d: nat, t: nat, n: nat): seq<Event>
    requires n <= 7
  {
    [SendGet(0, RACE_KEY, true), Query(0, []), Commit(RaceCreate()), SendDel(1), Tick(d), SendSet(0), Tick(t)][..n]
  }

  lemma ReachStep(ttl: nat, es: seq<Event>, e: Event)
    ensures Reach(ttl, es + [e]) == Step(ttl, Reach(ttl, es), e)
  {
    assert (es + [e])[..|es|] == es;
  }

  lemma RaceStep(ttl: nat, d: nat, t: nat, n: nat)
    requires n < 7
    ensures RaceRun(d, t, n + 1)[..n] == RaceRun(d, t, n) && RaceRun(d, t, n + 1)[n] == RaceRun(d, t, 7)[n]
    ensures Reach(ttl, RaceRun(d, t, n + 1)) == Step(ttl, Reach(ttl, RaceRun(d, t, n)), RaceRun(d, t, 7)[n])
  {
    assert RaceRun(d, t, n + 1) == RaceRun(d, t, n) + [RaceRun(d, t, 7)[n]];
    ReachStep(ttl, RaceRun(d, t, n), RaceRun(d, t, 7)[n]);
  }

  lemma RaceCommits()
    ensures
      var o := Handle(EMPTY, RaceCreate());
      o.committed && o.dels == AllKeys("t") && Joins(o.store, RACE_KEY, "id")
  {
  }

  lemma RaceReads(ttl: nat, d: nat, t: nat)
    ensures Reach(ttl, RaceRun(d, t, 2)) == START.(readers := map[0 := Holding(RACE_KEY, [], 0, 0)], steps := 2)
  {
    assert Reach(ttl, RaceRun(d, t, 0)) == START;
    RaceStep(ttl, d, t, 0);
    RaceStep(ttl, d, t, 1);
    assert Compile(EMPTY, RACE_KEY) == {};
  }

  /** The state after `n` steps, from the DEL on. */
  ghost function Raced(ttl: nat, now: nat, steps: nat, stored: bool, at: nat): Sys {
    var o := Handle(EMPTY, RaceCreate());
    Sys(now, steps, [START.versions[0], Version(o.store, 0, o.dels, Delivered(3))],
        if stored then map[RACE_KEY := Entry([], at + ttl)] else map[],
        if stored then map[RACE_KEY := Provenance(0, 0, at, 5)] else map[],
        if stored then map[] else map[0 := Holding(RACE_KEY, [], 0, 0)])
  }

  lemma RaceInvalidates(ttl: nat, d: nat, t: nat)
    ensures Reach(ttl, RaceRun(d, t, 4)) == Raced(ttl, 0, 4, false, 0)
  {
    hide Reach, Handle, Compile;
    var o := Handle(EMPTY, RaceCreate());
    RaceReads(ttl, d, t);
    RaceCommits();
    RaceStep(ttl, d, t, 2);
    var s2, s3 := Reach(ttl, RaceRun(d, t, 2)), Reach(ttl, RaceRun(d, t, 3));
    CommitStep(ttl, s2, RaceCreate());
    assert s3.versions == [START.versions[0], Version(o.store, 0, o.dels, Pending)];
    RaceStep(ttl, d, t, 3);
    var s4 := Reach(ttl, RaceRun(d, t, 4));
    assert s4.versions == [START.versions[0], Version(o.store, 0, o.dels, Delivered(3))];
    assert s4.cache == map[] && s4.origins == map[];
  }

  lemma RaceSteps(ttl: nat, d: nat, t: nat)
    ensures Reach(ttl, RaceRun(d, t, 5)) == Raced(ttl, d, 5, false, 0)
    ensures Reach(ttl, RaceRun(d, t, 6)) == Raced(ttl, d, 6, true, d)
    ensures Reach(ttl, RaceRun(d, t, 7)) == Raced(ttl, d + t, 7, true, d)
  {
    hide Reach, Handle, Compile;
    RaceInvalidates(ttl, d, t);
    RaceStep(ttl, d, t, 4);
    RaceStep(ttl, d, t, 5);
    RaceStep(ttl, d, t, 6);
  }

  lemma {:induction false} RaceSetsWithin(ttl: nat, d: nat, t: nat, n: nat)
    requires n <= 7
    ensures SetsWithin(ttl, RaceRun(d, t, n), d)
  {
    hide Reach, Handle, Compile;
    if n > 0 {
      RaceSetsWithin(ttl, d, t, n - 1);
      RaceStep(ttl, d, t, n - 1);
      RaceSteps(ttl, d, t);
    }
  }

  /** "A deleted key is fresh afterwards" is not true of this protocol, and `StalenessBound` is attained. With
      every Redis call succeeding and the DEL sent, a fill from an older snapshot leaves a new flag out for as
      long as TTL + D - 1 after its commit. */
  lemma FreshAfterDelIsFalse(ttl: nat, d: nat)
    requires ttl > 0
    ensures
      var es := RaceRun(d, ttl - 1, 7);
      var s := Reach(ttl, es);
      && SetsWithin(ttl, es, d) && Visible(s.cache, RACE_KEY, s.now)
      && !Coherent(s.cache, RACE_KEY, s.now, Current(s))
      && |s.versions| == 2 && s.versions[1].fate.Delivered? && s.now == s.versions[1].at + ttl + d - 1
  {
    hide Reach, SetsWithin, Handle, Compile;
    RaceSteps(ttl, d, ttl - 1);
    RaceSetsWithin(ttl, d, ttl - 1, 7);
    RacedIsStale();
  }

  lemma RacedIsStale()
    ensures !Lists([], Compile(Handle(EMPTY, RaceCreate()).store, RACE_KEY))
  {
    RaceCommits();
    var st := Handle(EMPTY, RaceCreate()).store;
    assert Snap(st, RACE_KEY, "id") in Compile(st, RACE_KEY);
  }
}
