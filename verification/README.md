# Feature-flag service: verified model

A Dafny model of the multi-tenant feature-flag service behind its HTTP layer. It covers the flag store
with its audit log, the Redis cache of compiled flag sets, the evaluation engine, the shared rate-limit
counter and the in-process metrics. `dafny verify dfyconfig.toml` checks it.

## How it is laid out

| file | what it holds |
|---|---|
| `Base.dfy` | JSON scalars and Python's `==` on them (`True == 1`, `1 == 1.0`), targeting rules, declared types |
| `Keys.dfy` | the strings joined with colons: hash input, cache keys, rate-limit keys |
| `Engine.dfy`, `Bias.dfy` | rules, precedence, rollout by bucket; an exact count of digest prefixes per percentage |
| `Targeting.dfy` | what each operator accepts, in terms of attribute and operands alone; what Python's `==` cannot tell apart |
| `Store.dfy` | flags, configs and log as tables; what each write request does to them; the store invariant |
| `Requests.dfy` | what one request does to database and cache, and serial runs of requests |
| `Service.dfy` | the endpoints as imperative code: a session that is committed or rolled back, and a cache; each proved to do what `Requests.Serve` says |
| `Audit.dfy` | each log record is the exact difference of two stores; undo, replay, history |
| `Compiled.dfy`, `Updates.dfy` | compiled sets, invalidation scope, responses; diffing, idempotence, rollout ramps |
| `Reachable.dfy` | every well-formed row is brought about by some run; runs that show what the code does not keep |
| `Lifecycle.dfy` | statuses, responses and records of every write; what users are served before and after a flag is first switched on |
| `Overlap.dfy` | writers that read their rows before others committed |
| `FlagCache.dfy`, `Protocol.dfy` | the cache client; readers, writers, failures and time interleaving over it |
| `Isolation.dfy`, `Serial.dfy` | whole serial runs: tenant noninterference, and a cache that cannot be told from its absence |
| `Limiter.dfy` | one dispatch, and any number of instances racing on one counter |
| `Metrics.dfy` | bounded windows, percentiles by rank, counts per tenant |

Code that changes state is a class. The methods of `FlagService` and `Cache` do exactly what the functions
`Requests.Serve`, `FlagCache.Load` and `Store.Handle` say, and the theorems about serial runs are about those
functions; the interleaving theorems build on the same `Handle`, `SetEntry`, `DelKeys` and `Compile`.
`RateLimiter.Dispatch` is proved equal to its own steps in the interleaving model. `Recorder` works on the
bounded windows of `Metrics.Push`. What the environment decides is a parameter: drawn UUIDs, clock readings,
the row order of a query, whether a Redis call goes through, and whether the database accepts a commit (its
size constraint on rules included). A request carries the already authenticated caller.

The interleavings are sequences of events. An event that does not apply does nothing, so every sequence
is a run and every theorem about `Reach` is about every run. Ghost bookkeeping in `Protocol.Sys`
(version numbers, read times, step numbers) never steers a step: that is `Protocol.HistoryIsPassive`.

## Main results

1. `Protocol.StalenessBound`, `Protocol.TtlBoundsIff`, attained by `Protocol.FreshAfterDelIsFalse`
2. `Protocol.FreshIff`, `Protocol.FillFreshIff`, `Protocol.StaleOnlyForCause`, `Overlap.LateCovers`
3. `Audit.UndoRestoresEarlierStore`, `Audit.ReplayRebuildsStore`, `Audit.ReachableLogIsExact`
4. `Isolation.Noninterference`, `Serial.SerialRunsNeedNoCache`
5. `Limiter.ExactlyTheLimit`, `Limiter.BurstBound`
6. `Compiled.SetChangesIff`, `Compiled.InvalidationSuffices`, `Compiled.AnsweredIffActive`
7. `Store.ReachableInv`, `Reachable.ReachableRowsAreStorable`
8. `Updates.StoredVersusSent`, `Updates.PutIsIdempotent`, `Updates.RampOnlyAddsUsers`
9. `Bias.ModuloBias`, `Bias.BucketFromBytes`, `Keys.HashInputUnambiguous`
10. `Targeting.Membership`, `Targeting.FirstOperand`, `Targeting.Substrings`, `Targeting.EqualListsTargetAlike`
11. `Lifecycle.SwitchingOnServes`, `Lifecycle.UpdateInPlainTerms`, `Lifecycle.UpdateStatus`

## Where the code and its own words part

* The engine's remark that falling through the rules "can only serve `default_value`, never leak a feature
  on" is not what the code does. `Engine.FallThroughServesDefault` says exactly when it holds;
  `Engine.MissingAttributeTurnsFlagOn` and `Reachable.LeakIsReachable` give a flag the service accepts whose
  pinned-off plan is served true once the request omits the attribute.
* The archive endpoint's description says an archived flag evaluates to its default for every user. A
  response has an entry for a flag if and only if the flag is active and wanted
  (`Compiled.AnsweredIffActive`), so an archived flag has none (`Reachable.ArchivedFlagIsLeftOut` is a run).
* A DEL does not make the next read fresh. `Protocol.FreshAfterDelIsFalse` is a run in which nothing fails
  and a new flag stays out for TTL + D - 1 after its commit, so the TTL alone does not bound how long a
  killed flag stays live: an entry is gone within TTL of a commit if and only if it was stored before it
  (`Protocol.TtlBoundsIff`), and any overtaken entry within TTL + D (`Protocol.OvertakenEntryExpires`). A fill leaves its key fresh if and only if the key's set is still, or again, what its query saw
  (`Protocol.FillFreshIff`; by checks on the writes alone: `Protocol.OvertakenFillFreshIff` for one write,
  `Protocol.BystandersKeepFillFresh` for any number).
* A PUT that corrects a value to one Python calls equal is dropped without a record.
  `Updates.StoredVersusSent` says exactly when; `Reachable.CorrectedRuleIsDropped` is a run where it changes
  what users are served. Rules of texts and bools are never dropped that way (`Updates.PlainRulesAreExact`),
  and rules whose operators compare whole values target the same users either way (`Updates.SentRulesTarget`);
  with the operators on texts they need not (`Targeting.EqualTextRulesCanDiffer`).
* The creation record omits the description, so replaying the log gives the whole store back if and only if
  no flag still relies on a description set at creation (`Audit.ReplayIsWholeIff`; a run that loses one is
  `Reachable.ReplayLosesDescription`).

## Model

| member | source | states |
|---|---|---|
| Protocol.StalenessBound | thinking-feature-flag-service/app/cache.py:62-124 | Over every interleaving of readers, writers, expiries, evictions and lost Redis calls: an entry visible at time t lists the set compiled for exactly that tenant and environment from the database at some instant after t - TTL - D, if readers store within D of their query. |
| Protocol.QuietPeriodHeals | thinking-feature-flag-service/app/cache.py:106-124 | Once TTL + D have passed since the last commit, every visible entry is the current set, however many DELs were lost and however the fills raced. |
| Protocol.StaleOnlyForCause | thinking-feature-flag-service/app/routers/flags.py:291-294 | In every reachable state an entry is the current set of its key unless a later commit's covering DEL is pending, was lost, or was sent before the late fill that stored the entry. |
| Protocol.FreshIff | thinking-feature-flag-service/app/cache.py:106-124 | In every reachable state an entry is the current set of its key if and only if the commits since the query behind it have, together, left that set as it was. |
| Protocol.FillFreshIff | thinking-feature-flag-service/app/routers/evaluate.py:38-65 | A SET leaves its key fresh if and only if the key's set is still, or again, what it was at the reader's query, whichever DELs were sent meanwhile. |
| Protocol.OvertakenFillFreshIff | thinking-feature-flag-service/app/routers/evaluate.py:38-65 | When one write was committed since the query, that is if and only if the write is not a creation, an archival, or an update of an active flag's default or of that environment's config in the key's tenant. |
| Protocol.BystandersKeepFillFresh | thinking-feature-flag-service/app/routers/evaluate.py:38-65 | With any number of writes committed since the query, if none of them is one that changes the key's set of the store it met, the fill leaves its key fresh. |
| Protocol.OvertakenEntryExpires | thinking-feature-flag-service/app/cache.py:121-123 | A visible entry that a commit has overtaken is seen less than TTL after that commit if it was stored before it, and less than TTL + D after it however late it was stored. |
| Protocol.TtlBoundsIff | thinking-feature-flag-service/app/cache.py:121-123 | An entry expires within TTL of a given commit if and only if it had been stored by then. |
| Overlap.LateCovers | thinking-feature-flag-service/app/routers/flags.py:217-334 | A create, update or archive that compared against rows read before others committed, over whatever store it then commits to, keeps the store invariant and every flag's identity, and drops every key whose set it changes; two archivals that both found the flag active included. |
| Overlap.LateUpdateKeepsRest | thinking-feature-flag-service/app/routers/flags.py:234-278 | A late update moves the attributes it decided on, to the values sent, and leaves every other attribute and row as the store has them by then; a rename never revives an archived flag. |
| Overlap.BothArchivalsCommit | thinking-feature-flag-service/app/routers/flags.py:318-334 | Of two archivals that both found the flag active both commit, with a record each and the later time kept. |
| Overlap.LateIsOrdinaryWhenCurrent | thinking-feature-flag-service/app/routers/flags.py:217-294 | An overlapping writer that missed nothing does what a serial one does. |
| Protocol.AnyVersionCanBeSeen | thinking-feature-flag-service/app/routers/flags.py:184-189 | Rows read from any version there has been, in any run, are ones such a writer may commit from later, so the bounds above cover every overlapping writer. |
| Protocol.CachedEvaluationIsDirect | thinking-feature-flag-service/app/routers/evaluate.py:95-129 | With none of the three causes, a response computed from the cache equals one computed from the database, in any row order. |
| Protocol.FreshAfterDelIsFalse | thinking-feature-flag-service/app/cache.py:106-124 | For every TTL and D, a run in which every Redis call succeeds and the DEL has been sent, and TTL + D - 1 after the commit a visible entry still lacks the committed flag: the bound is attained. |
| Protocol.ReachableOk | thinking-feature-flag-service/app/routers/evaluate.py:38-65 | The inductive invariant of all runs: what each entry and each reader holds was read from a named version, and every DEL that covers a newer version has failed to remove it for a recorded reason. |
| Protocol.StepKeepsOk | thinking-feature-flag-service/app/routers/evaluate.py:38-65 | Each atomic step keeps that invariant: GET, query, SET, commit by an up-to-date or an overlapping writer, DEL, their losses, eviction, and the passing of time. |
| Protocol.ExpiryBounded | thinking-feature-flag-service/app/cache.py:93-103 | No entry outlives the query behind it by more than TTL plus the longest time any reader of the run held its rows. |
| Overlap.CommitCovered | thinking-feature-flag-service/app/routers/flags.py:291-294 | A serial commit changes the compiled set only under keys its DEL names. |
| Protocol.HistoryIsPassive | thinking-feature-flag-service/app/cache.py:62-124 | States that agree on all but proof bookkeeping take the same step to states that agree on all but bookkeeping. |
| Audit.UndoRestoresEarlierStore | thinking-feature-flag-service/app/routers/flags.py:234-289 | Restoring old values newest-first takes the store after any serial run back to exactly the store at any earlier point, descriptions included; the earlier log is a prefix of the later one. |
| Audit.ReplayRebuildsStore | thinking-feature-flag-service/app/routers/flags.py:108-137 | After any serial run, folding the log forward from nothing rebuilds every flag, its archived state and all fields of its three configs, except descriptions no update has named. |
| Audit.ReplayIsWholeIff | thinking-feature-flag-service/app/routers/flags.py:122-137 | Replay rebuilds the store without exception if and only if every flag with a description has had it named by an update. |
| Reachable.ReplayLosesDescription | thinking-feature-flag-service/app/routers/flags.py:122-137 | One creation with a description, after which replay rebuilds the flag without it. |
| Audit.ReachableLogIsExact | thinking-feature-flag-service/app/routers/flags.py:235-289 | In every reachable store each record is the exact difference of the stores on its two sides: non-empty, equal key sets, old and new differ under Python's `==` everywhere, nothing unnamed moved. |
| Audit.HandleTells | thinking-feature-flag-service/app/routers/flags.py:234-289 | One request appends at most two records, each of them exact in that sense. |
| Lifecycle.RecordsNameCaller | thinking-feature-flag-service/app/routers/flags.py:239-248 | The log only grows, and every record a request adds names the caller's key and tenant. |
| Lifecycle.CreationRecordReads | thinking-feature-flag-service/app/routers/flags.py:122-137 | A creation adds one record, whose dict holds key, name, type by its API name and default, and nothing else. |
| Audit.UndoInvertsRecord | thinking-feature-flag-service/app/routers/flags.py:236-238 | Undoing the newest record gives back the store before it. |
| Audit.HistoryIsNewestFirst | thinking-feature-flag-service/app/routers/flags.py:358-365 | Entry k of a flag's history is its k-th newest record, and a history is shorter than the limit only when there are no more. |
| Audit.FlagLogGrows | thinking-feature-flag-service/app/routers/flags.py:358-365 | A flag's records at any moment are a prefix of its records in any longer log. |
| Isolation.Noninterference | thinking-feature-flag-service/app/routers/flags.py:184-189 | Deleting every other tenant's requests from a serial run leaves a tenant's flags, configs, records, cache entries and every answer it got unchanged. |
| Isolation.OwnRequest | thinking-feature-flag-service/app/routers/evaluate.py:42-49 | A tenant's request is answered, and acts on its own part of database and cache, as if that part were everything. |
| Isolation.OthersRequest | thinking-feature-flag-service/app/security.py:80-95 | Nobody else's request touches a tenant's part, even when its URL or body names that tenant. |
| Isolation.OwnWrite | thinking-feature-flag-service/app/routers/flags.py:184-189 | A write's new store, response and dropped keys depend on the caller's own rows only. |
| Isolation.OthersWrite | thinking-feature-flag-service/app/routers/flags.py:184-189 | A foreign write leaves a tenant's flags, configs and records as they were. |
| Serial.SerialRunsNeedNoCache | thinking-feature-flag-service/app/routers/evaluate.py:29-65 | A whole serial run in which no DEL is lost gives every tenant the answers, and leaves the database, of the run with Redis down. |
| Serial.CacheIsTransparent | thinking-feature-flag-service/app/cache.py:62-90 | From a coherent cache each single request is answered as it would be without Redis. |
| Serial.PlayedCoherent | thinking-feature-flag-service/app/routers/flags.py:291-294 | In serial runs without lost DELs every entry, expired or not, lists the current set. |
| Serial.LostDelShows | thinking-feature-flag-service/app/cache.py:121-124 | The hypothesis is needed: a run with one lost DEL whose answers differ from those without Redis. |
| Limiter.ExactlyTheLimit | thinking-feature-flag-service/app/middleware.py:129-151 | Under any interleaving of instances with every INCR within 60 s of its window reading: when all of a window's requests got a verdict, exactly min(requests, limit) were admitted. |
| Limiter.ExactlyTheLimitAreAllowed | thinking-feature-flag-service/app/middleware.py:142-158 | The same count of the answers clients are given: min(requests, limit) are passed on with headers. |
| Limiter.NeverOverLimit | thinking-feature-flag-service/app/middleware.py:133-151 | With every INCR within 60 s of its window reading, at every moment of any interleaving and with any failures: at most min(counter, limit) requests of a window have been admitted by a verdict. |
| Limiter.BurstBound | thinking-feature-flag-service/app/middleware.py:107-109 | Under the same promptness, any interval of at most n minutes admits at most (n + 1) x limit requests of one identity; any one minute at most twice the limit. |
| Limiter.ReachableOk | thinking-feature-flag-service/app/middleware.py:133-140 | The invariant behind both: each number up to the counter's value was drawn by exactly one request, and no expiry falls before the last INCR its window can still get. |
| Limiter.DrawsNext | thinking-feature-flag-service/app/middleware.py:135-137 | A prompt INCR always draws the next number: the 120-second expiry never restarts a live window. |
| Limiter.LateIncrOverrunsLimit | thinking-feature-flag-service/app/middleware.py:129-137 | The 60 s are sharp: for every lateness above them, a run prompt but for one INCR that late in which, with limit 1, two requests of one window are admitted. |
| Limiter.RetryAfterReachesNextWindow | thinking-feature-flag-service/app/middleware.py:148 | Waiting the advertised seconds, 1 to 60 of them, reaches the next window less than a second into it. |
| Limiter.RateLimiter.Dispatch | thinking-feature-flag-service/app/middleware.py:118-158 | With n the counter afterwards, a limited and identified request whose calls Redis answered is passed on with limit - n remaining if and only if n <= limit, and otherwise answered 429 with the limit and a wait that reaches the next window; with a failed or unanswered call it is passed on without headers. Its steps are those of the interleaving model. |
| Limiter.AloneAmongOthers | thinking-feature-flag-service/app/middleware.py:133-142 | Those steps do the same to counters and newcomer whatever other requests are there at rest. |
| Limiter.AloneIsARun | thinking-feature-flag-service/app/middleware.py:133-142 | A dispatch at any point of any run extends it to a run, so the bounds cover it. |
| Service.FlagService.CreateFlag | thinking-feature-flag-service/app/routers/flags.py:85-141 | Database, cache and response are those of the creation specification, whether or not the DEL goes through; any refusal leaves both as they were. |
| Service.FlagService.UpdateFlag | thinking-feature-flag-service/app/routers/flags.py:210-295 | The same for updates: a 404, 422 or failed commit leaves store, log and cache untouched, even when flag fields had already been assigned in the session. |
| Service.FlagService.ArchiveFlag | thinking-feature-flag-service/app/routers/flags.py:312-335 | The same for archiving; archiving twice changes nothing and drops no key. |
| Service.FlagService.Evaluate | thinking-feature-flag-service/app/routers/evaluate.py:95-129 | The evaluation endpoints, through the cache with any failures, answer and leave the cache as the request specification says; a foreign tenant in the body is a 403. |
| Service.FlagService.FlagHistory | thinking-feature-flag-service/app/routers/flags.py:351-365 | History answers with the flag's newest records up to the limit, or 404 or 422. |
| Service.FlagService.ApplyUpdate | thinking-feature-flag-service/app/routers/flags.py:217-289 | The refusal, if any, is the one the specification gives for the state before any assignment; otherwise both scopes and their records are as specified. |
| Service.SetAttrs | thinking-feature-flag-service/app/routers/flags.py:237-238 | Setting the changed attributes one by one, in any order, gives the specified row. |
| Service.FlagLevelChanges | thinking-feature-flag-service/app/routers/flags.py:221-232 | The flag-scoped dict: fields sent count, null names do not, and a wrongly typed or null default is refused. |
| Service.ConfigLevelChanges | thinking-feature-flag-service/app/routers/flags.py:260-272 | The environment-scoped dict, likewise. |
| Store.ReachableInv | thinking-feature-flag-service/app/routers/flags.py:108-120 | In every store a serial run reaches: keys unique per tenant, exactly one config per flag and environment, every value of the declared type, rules well-formed, the log about existing flags of its tenant. |
| Store.HandleKeepsInv | thinking-feature-flag-service/app/routers/flags.py:226-232 | Each request keeps that, whether it succeeds or is refused. |
| Store.RefusalLeavesNoTrace | thinking-feature-flag-service/app/db.py:23-30 | All or nothing: a refused request leaves flags, configs and log alone and drops no key, and only a commit ever changes the store. |
| Reachable.ReachableRowsAreStorable | thinking-feature-flag-service/app/models.py:206-218 | Whatever the database checks of values and of rule lists, their size included: the compiled rows of the stores it lets the service reach are exactly the well-formed rows it takes. |
| Reachable.LeakIsReachable | thinking-feature-flag-service/app/evaluation.py:94-98 | A run of requests that service and database accept to a flag that serves false to a pinned plan and true to a request without the attribute. |
| Compiled.InvalidationSuffices | thinking-feature-flag-service/app/routers/flags.py:291-294 | Every key whose compiled set a request changes is among those it deletes, and it deletes none of another tenant's. |
| Compiled.SetChangesIff | thinking-feature-flag-service/app/routers/flags.py:274-294 | Exactly which requests change the set under a key: a creation, an archival, or an update of an active flag that moves its default or that environment's config. |
| Updates.DelsFollowTheStores | thinking-feature-flag-service/app/routers/flags.py:293-294 | Which keys are dropped, told from the stores before and after alone: one environment's when no flag row moved, all three otherwise, none on refusal. |
| Compiled.CompiledShape | thinking-feature-flag-service/app/routers/evaluate.py:42-63 | A compiled set of a valid store has one row per flag key, every value of the declared type, the percentage in range and at most 50 well-formed rules. |
| Compiled.ResponseIsExact | thinking-feature-flag-service/app/routers/evaluate.py:103-129 | Whatever the row order, the response has exactly one entry per wanted row, with the engine's value for that row. |
| Compiled.AnsweredIffActive | thinking-feature-flag-service/app/routers/flags.py:307-308 | From any reachable store, a flag of the tenant has an entry in the response if and only if it is active and wanted; an archived flag has none. |
| Reachable.ArchivedFlagIsLeftOut | thinking-feature-flag-service/app/routers/flags.py:307-308 | One creation and one archival, after which the flag is left out of the response even when asked for by key. |
| Compiled.RowOrderIrrelevant | thinking-feature-flag-service/app/routers/evaluate.py:42-63 | Two orders of one set give one response. |
| Compiled.FlagKeysRestrictBulk | thinking-feature-flag-service/app/routers/evaluate.py:144-171 | Without `flag_keys` the endpoint equals bulk; with them it is bulk restricted to those keys. |
| Compiled.DirectEvaluation | thinking-feature-flag-service/app/routers/evaluate.py:38-63 | Every entry of a response belongs to an active wanted flag and is the engine's verdict on that flag's own row, never the archived one, and of the declared type unless a rule supplied the value. |
| Updates.StoredVersusSent | thinking-feature-flag-service/app/routers/flags.py:34-47 | After a successful PUT a sent field is stored as a value Python calls equal; as the very value sent if and only if it was stored before or Python told the two apart. |
| Targeting.PyEqDatumIffPlain | thinking-feature-flag-service/app/routers/flags.py:47 | What `!=` compares: two attribute values are equal in Python if and only if they agree in everything but how bools and numbers are spelled. |
| Updates.PlainRulesAreExact | thinking-feature-flag-service/app/routers/flags.py:47 | Rules of texts and bools sent over rules of texts and bools are stored to the letter, so no change to any part of them is dropped. |
| Updates.SentRulesTarget | thinking-feature-flag-service/app/routers/flags.py:47 | After a PUT of rules with the operators in, not_in, eq and neq every user in every context is targeted, and served an equal value, as by the rules sent, whether they were stored or dropped. |
| Targeting.EqualListsTargetAlike | thinking-feature-flag-service/app/evaluation.py:107-114 | Python-equal rule lists with those operators give one reason and equal values to every user. |
| Targeting.EqualTextRulesCanDiffer | thinking-feature-flag-service/app/evaluation.py:115-121 | With the operators on texts they need not: equal operands 1 and true have different texts. |
| Reachable.CorrectedRuleIsDropped | thinking-feature-flag-service/app/routers/flags.py:34-47 | A run after which a PUT correcting a rule from 1 to true succeeds, changes neither store nor log, and the matching user is still served 1. |
| Updates.TypedValuesAreExact | thinking-feature-flag-service/app/schemas.py:294-310 | In a boolean or text flag a sent default or value is always stored to the letter. |
| Updates.CommittedIff | thinking-feature-flag-service/app/models.py:206-218 | A validated, well-typed update of an existing flag goes through if and only if the database takes the commit and at most 50 rules are sent; otherwise it is a 500. |
| Lifecycle.UpdateInPlainTerms | thinking-feature-flag-service/app/routers/flags.py:220-278 | After a committed update each sent field is in its row as sent (an equal spelling may stay), an explicit null has cleared the description and nothing else, and everything not sent and every other row is as before. |
| Lifecycle.NothingSentIsIgnored | thinking-feature-flag-service/app/schemas.py:167-176 | No field sent with a value is ignored by an accepted update: the environment it needs was named, and the value is stored there. |
| Lifecycle.UpdateStatus | thinking-feature-flag-service/app/routers/flags.py:210-295 | Which of 404, 422, 500 and success an update gets, exactly, from the payload, the flag it names and the database's word. |
| Lifecycle.CreateStatus | thinking-feature-flag-service/app/routers/flags.py:85-141 | The same for a creation, with 409 for a key already used. |
| Lifecycle.ArchiveStatus | thinking-feature-flag-service/app/routers/flags.py:312-335 | The same for an archival; archiving an archived flag succeeds without a commit. |
| Lifecycle.NewFlagIsDark | thinking-feature-flag-service/app/routers/flags.py:108-120 | After a committed creation every user gets the default, as disabled, in all three environments. |
| Lifecycle.SwitchingOnServes | thinking-feature-flag-service/app/routers/flags.py:50-65 | One PUT of `enabled: true` then serves every user there the opposite of a boolean flag's default, or the default of a text or number flag, in rollout; the other environments stay dark. |
| Lifecycle.ResponseShowsStore | thinking-feature-flag-service/app/routers/flags.py:141 | A successful write answers with the flag as stored, under its id, with all three stored configs; a creation shows what was sent, an archival an archived flag. |
| Requests.ReadStatus | thinking-feature-flag-service/app/routers/evaluate.py:68-76 | How reads are refused, 403, 404 and 422, and that reads never touch the database and refused ones not the cache either. |
| Updates.PutIsIdempotent | thinking-feature-flag-service/app/routers/flags.py:34-47 | Repeating any PUT leaves store and log unchanged and is answered the same. |
| Updates.RecordsMatchChanges | thinking-feature-flag-service/app/routers/flags.py:234-289 | A scope's record is written exactly when its row changes, and no other row moves. |
| Updates.RampOnlyAddsUsers | thinking-feature-flag-service/app/routers/flags.py:263-264 | Along any run whose percentage PUTs to a flag, from whichever keys, never lower it, with any other requests in between that are not about the flag, users are only added: between two points exactly those no rule claims with a bucket between the percentages; lowering back restores every verdict. |
| FlagCache.Cache.GetFlagSet | thinking-feature-flag-service/app/cache.py:62-90 | A hit needs a reachable, unexpired, readable entry; an unreadable one counts as both hit and miss; an unreachable Redis as neither. |
| FlagCache.ReadAfterFill | thinking-feature-flag-service/app/cache.py:93-103 | What is set is what is read back, until and not beyond the time to live, and no other key reads differently. |
| FlagCache.Cache.Invalidate | thinking-feature-flag-service/app/cache.py:106-124 | Removes exactly one environment's entry or the tenant's three, or changes nothing. |
| FlagCache.Cache.LoadFlagSet | thinking-feature-flag-service/app/routers/evaluate.py:29-65 | The result and the new cache are those of `FlagCache.Load`; from a coherent key it returns the database's set, and it keeps that key, and every other, coherent whatever Redis does. |
| Engine.ScanIsFirstMatch | thinking-feature-flag-service/app/evaluation.py:151-153 | The loop finds a rule exactly when one matches, and then the one at the least matching index. |
| Engine.Precedence | thinking-feature-flag-service/app/evaluation.py:126-158 | The documented order as one case distinction: which observable condition gives which reason and which value. |
| Targeting.Membership | thinking-feature-flag-service/app/evaluation.py:107-110 | A rule with `in` accepts exactly the present attribute values that some operand equals in Python, one with `not_in` exactly the others. |
| Targeting.FirstOperand | thinking-feature-flag-service/app/evaluation.py:111-114 | `eq` and `neq` compare with the first operand only and are complementary when there is one; without one neither accepts anything. |
| Targeting.Substrings | thinking-feature-flag-service/app/evaluation.py:115-121 | `contains`, `starts_with` and `ends_with` accept exactly the texts of which some operand's text is a piece, the front or the end; no value that is not a text. |
| Targeting.OperandText | thinking-feature-flag-service/app/evaluation.py:117-121 | The text of an operand: a text itself, True or False, the signed decimal numeral that reads back as the number. |
| Targeting.NothingElse | thinking-feature-flag-service/app/evaluation.py:103-105 | A rule whose attribute the request does not carry, or with any other operator, accepts nobody. |
| Targeting.UserIdOrContext | thinking-feature-flag-service/app/evaluation.py:103 | A rule on `user_id` reads the request's user id whatever the context holds; a rule on anything else takes no notice of the user id. |
| Engine.MalformedRulesAreInert | thinking-feature-flag-service/app/evaluation.py:91-123 | Rules with an unknown operator or an absent attribute, any number anywhere, never change an evaluation. |
| Engine.InsertInert | thinking-feature-flag-service/app/evaluation.py:94-98 | Inserting one rule with an unknown operator or an attribute the request does not carry, at any position, changes nothing. |
| Engine.FallThroughServesDefault | thinking-feature-flag-service/app/evaluation.py:94-98 | Falling through serves the default if and only if the user is outside the rollout or both values agree. |
| Engine.MissingAttributeTurnsFlagOn | thinking-feature-flag-service/app/evaluation.py:94-98 | A rule the service accepts pins a plan to false; the same user, asking without the attribute, is served true. |
| Engine.WideningIsAdditive | thinking-feature-flag-service/app/evaluation.py:25-27 | Raising the percentage removes nobody and adds exactly the users no rule claims with a bucket in [old, new). |
| Engine.ResultType | thinking-feature-flag-service/app/schemas.py:294-310 | A result has the declared type if and only if no rule supplied it or the matching rule's value has that type. |
| Bias.ModuloBias | thinking-feature-flag-service/app/evaluation.py:42-47 | Among all four-byte prefixes exactly 42949672 p + min(p, 96) have a bucket below p, so the rollout error is between 0 and 384 hundredths of a prefix. |
| Bias.ResidueCount | thinking-feature-flag-service/app/evaluation.py:42-47 | In general p (n / m) + min(p, n mod m) of the numbers below n have a residue below p. |
| Bias.BucketBelowIffPrefixCounted | thinking-feature-flag-service/app/evaluation.py:46-47 | A user's bucket is below p exactly when the first four bytes of their digest are among the prefixes counted. |
| Bias.BucketFromBytes | thinking-feature-flag-service/app/evaluation.py:46-47 | The bucket is (16 a + 36 b + 56 c + d) mod 100 of the first four bytes of SHA-256 of key, colon and user id, so any client computes the same one. |
| Bias.FourBytesDecide | thinking-feature-flag-service/app/evaluation.py:46-47 | Digests that agree on their first four bytes give one bucket. |
| Keys.HashInputUnambiguous | thinking-feature-flag-service/app/evaluation.py:29-31 | For allowed flag keys and any user ids, colons included, two pairs hash the same text only if they are the same pair. |
| Keys.HashInputNeedsTheAlphabet | thinking-feature-flag-service/app/schemas.py:107-113 | The claim fails if flag keys may hold a colon or the separator is dropped. |
| Keys.CacheKeysUnambiguous | thinking-feature-flag-service/app/cache.py:58-59 | Two (tenant, environment) pairs share a cache key only if they are equal. |
| Keys.RateKeysUnambiguous | thinking-feature-flag-service/app/middleware.py:129-131 | Identities of one length share a rate-limit key only in the same window and if equal. |
| Keys.CacheAndRateKeysDisjoint | thinking-feature-flag-service/app/middleware.py:131 | No rate-limit key is ever a cache key. |
| Metrics.WindowIsSuffix | thinking-feature-flag-service/app/metrics.py:30-34 | However many values were recorded, the window holds the last 10,000, in order. |
| Metrics.PercentileRank | thinking-feature-flag-service/app/metrics.py:57-63 | The value picked is a sample, with at most floor(n pct) samples below it and at least floor(n pct) + 1, or all, at or below it. |
| Metrics.RankedAt | thinking-feature-flag-service/app/metrics.py:62-63 | The same for any position, such as the product floating point gives: at most its floor many samples lie below the picked one. |
| Metrics.ReportedOrdered | thinking-feature-flag-service/app/metrics.py:94-99 | A higher percentile is never reported lower, p50 <= p95 <= p99, with any order-preserving rounding. |
| Metrics.Recorder.RecordEvaluation | thinking-feature-flag-service/app/metrics.py:42-47 | Latency and tenant enter their windows together and the flag count is added. |
| Metrics.Recorder.RecordRequest | thinking-feature-flag-service/app/metrics.py:50-54 | One more request of that series, and one more error exactly from status 500; errors never exceed requests for any series. |
| Metrics.Recorder.RecentCounts | thinking-feature-flag-service/app/metrics.py:77-80 | The per-tenant counts are those of the last 60 seconds' samples, and they sum to the total. |
| Metrics.RecentTenantsCount | thinking-feature-flag-service/app/metrics.py:77-80 | A tenant is counted once for each of its samples that is at most 60 seconds old. |

## Left out

- Protocol.StalenessBound: D, the longest time between a query and its SET, is a hypothesis of the run; the code sets no such limit. Eviction by Redis is a step of the model.
- Limiter.ExactlyTheLimit: assumes that Redis evicts no rate-limit counter, that the instances read one clock, and that each INCR lands within 60 seconds; the limit is a natural number.
- Isolation.Noninterference: assumes that UUIDs drawn for different tenants do not collide; audit ids are positions in the log and are not compared across tenants.
- Limiter.RateLimiter.Dispatch: the body text of a 429 is not modelled; the clock does not run backwards within a request.
- Service.FlagService.UpdateFlag: requests run one after another. The service reads old values without a lock, so the exactness of the log is not claimed for overlapping writers; what overlapping updates do to the cache is in `Protocol`.
- Engine.Precedence: contexts hold scalars, lists and objects, with the latter two equal to no rule operand; a context entry set to null is an absent one, as in the code.
- Metrics.Recorder.RecentCounts: the uptime, rate and ratio entries of the snapshot are divisions with rounding and are not modelled; neither is the lock.
- Metrics.PercentileRank: the position is the exact product; for the floating-point one see `Metrics.RankedAt`.
- Strings are sequences of characters: Unicode encoding of hash inputs, surrogates and NaN are not modelled, and the text of a float and SHA-256 are opaque.
- A number is compared by exact value; a float's limited precision is not modelled.
- JSON encoding of cache entries is taken as faithful; an unreadable entry is an outcome of the GET.
- Reachable.ReachableRowsAreStorable: the database's checks of values and rule lists are a parameter, assumed to take an empty rule list and every bool and number; checks on names and descriptions, such as the refusal of NUL characters, are only ways for a commit to be refused.
- SQLAlchemy and Postgres: a transaction commits in one step and a query reads the latest commit; the size constraint on rules is one way for a commit to be refused; the append-only trigger is the absence of any operation that alters the log.
- Timestamps `created_at` and `updated_at`, response schemas other than a flag with its configs, and the order of history rows with equal timestamps beyond their ids.
- The switches `cache_enabled` and `rate_limit_enabled`: the first off is the run with every Redis call failing, except that failures are logged; the second is a parameter of dispatch.
- `list_flags`, tenant registration, key generation and authentication, health probes, logging, correlation ids and OpenAPI text: no property beyond their bodies.
- Alembic migrations, container files and Terraform: declarative configuration.
