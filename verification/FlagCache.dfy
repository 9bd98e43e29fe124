/** The cache of compiled sets: one Redis entry per (tenant, environment) with a time to live.
    Every Redis call may fail, and a failure is never an error for the caller. */
module FlagCache {
  import opened Base
  import opened Engine
  import opened Store
  import opened Compiled

  datatype Entry = Entry(payload: seq<Snapshot>, expiresAt: int)

  type Entries = map<CacheKey, Entry>

  predicate Visible(es: Entries, k: CacheKey, now: int) {
    k in es && now < es[k].expiresAt
  }

  /** SET key payload EX ttl */
  function SetEntry(es: Entries, k: CacheKey, payload: seq<Snapshot>, now: int, ttl: nat): Entries {
    es[k := Entry(payload, now + ttl)]
  }

  /** DEL keys */
  function DelKeys(es: Entries, ks: set<CacheKey>): Entries {
    es - ks
  }

  lemma NothingDropped(es: Entries)
    ensures DelKeys(es, {}) == es
  {
  }

  /** Whatever a reader can see under `k` lists the set the database holds now. */
  ghost predicate Coherent(es: Entries, k: CacheKey, now: int, s: Store) {
    Visible(es, k, now) ==> Lists(es[k].payload, Compile(s, k))
  }

  /** GET key */
  function Read(es: Entries, k: CacheKey, now: int): Option<seq<Snapshot>> {
    if Visible(es, k, now) then Some(es[k].payload) else None
  }

  /** What was set is what is read back, until and not beyond its time to live, and under no other key. */
  lemma ReadAfterFill(es: Entries, k: CacheKey, payload: seq<Snapshot>, now: int, ttl: nat, j: CacheKey, t: int)
    ensures Read(SetEntry(es, k, payload, now, ttl), j, t) ==
      if j != k then Read(es, j, t) else if t < now + ttl then Some(payload) else None
  {
  }

  lemma {:induction false} SomeOrder(c: set<Snapshot>) returns (rows: seq<Snapshot>)
    ensures Lists(rows, c)
  {
    if c == {} {
      rows := [];
    } else {
      var x :| x in c;
      var rest := SomeOrder(c - {x});
      rows := rest + [x];
    }
  }

  /** The query's rows: the set in the hinted order, or in some fixed order if the hint is no order of it. */
  ghost function RowsOf(c: set<Snapshot>, hint: seq<Snapshot>): (rows: seq<Snapshot>)
    ensures Lists(rows, c)
  {
    if Lists(hint, c) then hint
    else
      assert exists rows :: Lists(rows, c) by { var rows := SomeOrder(c); }
      var rows :| Lists(rows, c);
      rows
  }

  /** What `_load_flag_set` returns and leaves in the cache. */
  ghost function Load(ttl: nat, s: Store, es: Entries, k: CacheKey, now: int, hint: seq<Snapshot>,
                      getWorks: bool, setWorks: bool): (seq<Snapshot>, Entries)
  {
    if getWorks && Visible(es, k, now) then (es[k].payload, es)
    else
      var rows := RowsOf(Compile(s, k), hint);
      (rows, if setWorks then SetEntry(es, k, rows, now, ttl) else es)
  }

  class Cache {
    const ttl: nat
    var entries: Entries
    var hits: nat
    var misses: nat

    constructor (ttl: nat)
      ensures this.ttl == ttl && entries == map[] && hits == 0 && misses == 0
    {
      this.ttl := ttl;
      entries, hits, misses := map[], 0, 0;
    }

    /** `reachable` is whether the GET succeeds, `decodes` whether the stored text can be read. An
        entry that cannot be decoded counts both as a hit and as a miss. */
    method GetFlagSet(k: CacheKey, now: int, reachable: bool, decodes: bool) returns (r: Option<seq<Snapshot>>)
      modifies this`hits, this`misses
      ensures r == if reachable && decodes then Read(entries, k, now) else None
      ensures hits == old(hits) + if reachable && Visible(entries, k, now) then 1 else 0
      ensures misses == old(misses) + if reachable && !(decodes && Visible(entries, k, now)) then 1 else 0
    {
      if !reachable { return None; }
      if !Visible(entries, k, now) {
        misses := misses + 1;
        return None;
      }
      hits := hits + 1;
      if !decodes {
        misses := misses + 1;
        return None;
      }
      r := Some(entries[k].payload);
    }

    method SetFlagSet(k: CacheKey, payload: seq<Snapshot>, now: int, reachable: bool)
      modifies this`entries
      ensures entries == if reachable then SetEntry(old(entries), k, payload, now, ttl) else old(entries)
    {
      if reachable {
        entries := SetEntry(entries, k, payload, now, ttl);
      }
    }

    /** Drops one environment's entry, or all three; a failed call drops nothing. */
    method Invalidate(tenant: Uuid, environment: Option<Env>, reachable: bool)
      modifies this`entries
      ensures
        var ks := if environment.Some? then {CacheKey(tenant, environment.value)} else AllKeys(tenant);
        entries == if reachable then DelKeys(old(entries), ks) else old(entries)
    {
      if reachable {
        var environments := if environment.Some? then [environment.value] else ENVS;
        ghost var before := entries;
        for i := 0 to |environments|
          invariant entries == DelKeys(before, set e | e in environments[..i] :: CacheKey(tenant, e))
        {
          entries := entries - {CacheKey(tenant, environments[i])};
          assert environments[..i + 1] == environments[..i] + [environments[i]];
        }
        assert environments[..|environments|] == environments;
      }
    }

    /** `_load_flag_set`: the cached list, or the rows of the query (in the order `rows`), which then
        fill the cache. From a coherent cache this is the database's set, and the cache stays coherent;
        a miss returns the database's set whatever the cache held. */
    method LoadFlagSet(s: Store, k: CacheKey, now: int, rows: seq<Snapshot>,
                       getWorks: bool, decodes: bool, setWorks: bool)
      returns (r: seq<Snapshot>)
      requires Lists(rows, Compile(s, k))
      modifies this
      ensures (r, entries) == Load(ttl, s, old(entries), k, now, rows, getWorks && decodes, setWorks)
      ensures old(Coherent(entries, k, now, s)) ==> Lists(r, Compile(s, k)) && Coherent(entries, k, now, s)
      ensures forall j :: j != k && old(Coherent(entries, j, now, s)) ==> Coherent(entries, j, now, s)
    {
      var cached := GetFlagSet(k, now, getWorks, decodes);
      if cached.Some? { return cached.value; }
      SetFlagSet(k, rows, now, setWorks);
      r := rows;
    }
  }
}
