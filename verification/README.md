# Verified model of the SRE incident commander's edge, deployment and ledger protocols

The system is a multi-tenant service that coordinates incident response. This project models its
protocols that are hardest to get right and proves what they keep, over every input, every run or
every interleaving:

- **Rate limiting** (`RateLimiter.dfy`). The bounded table with lazy pruning and its "nothing can
  expire yet" shortcut answers exactly as a limiter that keeps the whole admission log.
- **Issuer keys** (`KeySetParser.dfy`, `JwksCache.dfy`). The key-set parser (sections 4.5 and 5 of
  RFC 7517), and the cache that any number of threads share: the three locked sections are methods
  of a class, and their interleavings a transition system over the functions those methods are
  proved to compute.
- **Idempotent mutations** (`Idempotency.dfy`). Interleaved transactions under an advisory lock,
  with aborts, colliding lock hashes and retention deletions.
- **Listing** (`Cursor.dfy`, `Pagination.dfy`). Keyset cursors down to URL-safe base64 without
  padding (section 5 of RFC 4648) and the text of an id, and the walk a client makes with them over
  a table that may change, filtered by what the principal may see.
- **Batched reads** (`BatchedActions.dfy`). A page serialised from three bulk reads against the
  reads of each action alone.
- **Pools** (`PoolDiscipline.dfy`). Requests that share threads, connections, ingestion slots and
  advisory locks.
- **Deployment** (`DeployRelease.dfy`, `MigrationSafety.dfy`, `ConcurrentDeployments.dfy`). The orchestrator as methods whose
  loops act on a cluster that answers as it likes and logs every command and reply; the
  protocol those traces obey; and the cluster around it, where Jobs vanish and leave pods behind;
  for runs one after the other and for several at once.
- **Egress policy** (`EgressPolicy.dfy`). Aligned prefixes (section 3.1 of RFC 4632) and the size of
  what an accepted configuration opens.
- **Body ceiling** (`BodyBounds.dfy`). The middleware's closures around an arbitrary application.
- **Model-call ledger** (`ReservationLedger.dfy`). The table's trigger and constraints under every
  sequence of writes, and on top the reserve, settle and replay protocol of any number of workers,
  where a lookup and its insert may be far apart.

Times are `real` numbers, ids are natural numbers in the order the database sorts them, costs are
in millionths of a dollar: integers where stored, `real` numbers in the budget.

## Where code and documentation disagree

The model follows the code.

- `src/asic/api/tokens.py:381-383` says a repeated `kid` refuses the whole set. A repeat after an
  ignored entry is accepted; the contract of `Parse` gives the exact condition and
  `DuplicateKidDependsOnOrder` a document that is accepted in one order and refused in the other.
- `scripts/render_deployment.py:38-39` says the unspecified address is never allowed. It is opened
  by exactly the networks 0.0.0.0/24 to 0.0.0.0/31 (`UnspecifiedAddressIsReachable`).
- `scripts/deploy_release.py:675` does not check that the create printed a uid, and an empty one
  switches the identity comparison off (`EmptyUidSkipsIdentityCheck`, `FullGuaranteeIffUidPrinted`).
  While runs follow one another and create all Jobs, the application still follows its own
  migration (`ApplicationAfterOwnMigration`).
- `scripts/deploy_release.py:396-406` relies on the pod check to keep migrations
  apart. Two runs at once can still overlap, in exactly one case (`VanishingIsSafeIff`).
- `scripts/deploy_release.py:323-327` refuses to delete an active Job, but the delete at line 340
  names no uid: among runs at once it can reach another run's active Job (`ActiveJobIsDeleted`),
  exactly when a create lands while some run is about to delete (`CreateIsSafeIff`).
- `src/asic/llm/accounting.py:98-100` promises to keep unused headroom charged. A node charges actual
  usage (`src/asic/llm/budgeted.py:54`) and `src/asic/orchestration/kernel.py:597-606` writes that over
  the durable charge, so the headroom is released with the next kernel write. This is safe exactly
  while no call is open and no usage was dropped (`UsageWriteIsSafeIff`, `KernelWriteIsSafeIff`);
  `src/asic/orchestration/nodes/planner.py:124-141` drops the usage of a first attempt when the second
  one is refused.
- A reservation stores its cost rounded to millionths and charges it unrounded, so the two agree
  exactly only for whole costs (`OneCallBalancesIff`).
- `src/asic/api/app.py:538` names the operation after the target status, which escalate and cancel
  share (`OperationsCollideOnlyOnEscalateAndCancel`).
- The staleness bound of the key cache holds for a configuration with `ttl <= max_stale` and for no
  other (`StaleBoundIff`); the code does not compare the two.
- A Job delete follows the sight of a terminal Job, for a failed one after its diagnostics have been
  collected in between (`DeleteFollowsTerminalJob`).

## Model

| member | source | states |
|---|---|---|
| RateLimiting.RateLimiter.Admit | src/asic/api/rate_limit.py:46-63 | A call is admitted if and only if the full admission history shows fewer than `limit` admissions of the key in the window that ends now and fewer than `max_keys` other keys admitted in it; the history grows by this hit on success and by nothing on refusal |
| RateLimiting.RateLimiter.MakeRoom | src/asic/api/rate_limit.py:50-56 | A new key is refused for want of room only when the history alone shows `max_keys` other live keys |
| RateLimiting.RateLimiter.Record | src/asic/api/rate_limit.py:57-63 | Popping and counting one queue decides by the live history of the key and keeps the table invariant |
| RateLimiting.RateLimiter.Prune | src/asic/api/rate_limit.py:65-72 | Removes exactly the keys whose newest hit left the window, and leaves a shortcut instant before which no key can expire |
| RateLimiting.RateLimiter.TrackedKeys | src/asic/api/rate_limit.py:74-76 | Never more than `max_keys` |
| RateLimiting.Create | src/asic/api/rate_limit.py:25-44 | The constructor refuses exactly the non-positive parameters and otherwise starts with an empty history |
| RateLimiting.ServeAll | src/asic/api/rate_limit.py:46-72 | Over every call sequence with non-decreasing time, each answer is decided by the earlier answers alone: admitted exactly when what they admitted leaves the key under `limit` and the other keys under `max_keys` in the current window |
| RateLimiting.AdmitsIffUnderLimits | src/asic/api/rate_limit.py:46-63 | The two ways of putting the rule, by live hits and by admissions counted in the window, agree on every history |
| RateLimiting.EveryWindowIsBounded | src/asic/api/rate_limit.py:46-63 | In every run no window, wherever it ends, holds more than `limit` admissions of a key or admissions of more than `max_keys` keys |
| RateLimiting.ShortcutSkipsNothing | src/asic/api/rate_limit.py:41-54 | Before the shortcut instant a prune would remove no key |
| RateLimiting.LiveKeysFromTable | src/asic/api/rate_limit.py:65-67 | The keys the history calls live are exactly the table's keys with an unexpired newest hit |
| RateLimiting.PruningKeepsAgreement | src/asic/api/rate_limit.py:65-67 | Dropping expired keys keeps the table in agreement with the full history for this and every later instant |
| RateLimiting.PrunedKeysAreLive | src/asic/api/rate_limit.py:65-68 | After a prune the table tracks the live keys of the history and no other |
| KeySetParsing.Parse | src/asic/api/tokens.py:368-391 | Accepts a document if and only if it is a list of 1 to 16 well-formed entries without a clash, and then returns exactly the signing entries, each under its own `kid`; of the well-shaped documents it refuses exactly those that repeat the `kid` of a signing entry, and in one it accepts only ignored entries are followed by their own `kid` |
| KeySetParsing.AcceptableMeans | src/asic/api/tokens.py:370-391 | Accepted are exactly 1 to 16 objects with `kid` of 1 to 128 characters, with usable material where `use` is absent or sig and `kty` RSA or EC, and without a later entry under the `kid` of such a one |
| KeySetParsing.HoldsExactlyMeans | src/asic/api/tokens.py:384-391 | A `kid` maps to a key exactly when some entry with that `kid` offers it for signing |
| KeySetParsing.DuplicateKidDependsOnOrder | src/asic/api/tokens.py:381-388 | The same two entries are accepted in one order and refused in the other |
| JwksCaching.JwksClient.constructor | src/asic/api/tokens.py:303-306 | Starts without keys, attempts or a refresh under way |
| JwksCaching.JwksClient.Enter | src/asic/api/tokens.py:318-330 | First locked section: answered if and only if the cached set is younger than `ttl` and holds the `kid`; otherwise a refresh is claimed if and only if none is under way and the last attempt is absent or `min_refresh` back; the whole new state |
| JwksCaching.JwksClient.Fetch | src/asic/api/tokens.py:352-366 | A fetch yields keys if and only if the issuer sent a document the parser accepts, and then exactly that document's signing entries; everything else is the one error |
| JwksCaching.JwksClient.FinishFetch | src/asic/api/tokens.py:331-343 | Second locked section: installs the fetched set under the caller's reading, keeps the old one after a failure exactly within `max_stale`, and always ends the refresh |
| JwksCaching.JwksClient.Reread | src/asic/api/tokens.py:344-350 | Third locked section: unavailable exactly without a set within `max_stale`, otherwise the entry of the `kid` or unknown; the cache is not changed |
| JwksCaching.EveryRunKeepsInvariant | src/asic/api/tokens.py:308-350 | For every configuration, every interleaving of any number of threads keeps single flight, spaced attempts and honest answers, and with throttling strictly increasing installs |
| JwksCaching.InstallsIncreaseIff | src/asic/api/tokens.py:321-343 | Successively installed sets are strictly later in every run if and only if `min_refresh` is positive |
| JwksCaching.StepKeepsSingleFlight | src/asic/api/tokens.py:321-335 | The refreshing flag is set exactly while one thread is between claiming and finishing a fetch |
| JwksCaching.StepKeepsAttempts | src/asic/api/tokens.py:321-330 | Recorded attempts stay at least `min_refresh` apart although readings arrive out of order |
| JwksCaching.StepKeepsInstalls | src/asic/api/tokens.py:331-343 | Every set installed was started later than all sets installed before it |
| JwksCaching.StepKeepsHonesty | src/asic/api/tokens.py:318-350 | An answer stays one that was read from a successfully fetched set within the age its path allows |
| JwksCaching.FetchesAreThrottled | src/asic/api/tokens.py:321-330 | Any period of length L holds at most floor(L / min_refresh) + 1 fetch attempts |
| JwksCaching.StaleBoundIff | src/asic/api/tokens.py:318-350 | For every configuration, no reachable answer is older than `max_stale` by its caller's reading if and only if `ttl <= max_stale` |
| JwksCaching.RefreshFindsKey | src/asic/api/tokens.py:318-350 | From every reachable state without a fetch under way and with the last attempt `min_refresh` back, a call for a key not freshly cached fetches, and ends with the key if the issuer now offers it |
| JwksCaching.FetchAlwaysEnds | src/asic/api/tokens.py:331-343 | However a fetch ends, the refresh is over and only its own call moves on, to the last section or out with an uncaught exception |
| JwksCaching.ServedKeysAreSigningKeys | src/asic/api/tokens.py:308-391 | From end to end over every interleaving: a served key is that of a signing entry, under its own `kid`, of an accepted document whose fetch is within the age bound of the caller's path |
| JwksCaching.OutageServesCachedKeys | src/asic/api/tokens.py:333-350 | While no fetch succeeds, for whatever reason, and no thread reads a clock beyond the bound, every call that ends is answered from the cached set, except one whose own fetch raised an uncaught exception |
| Idempotency.RecordTable.Replay | src/asic/api/app.py:191-221 | Works exactly for an unknown key, replays only a record of this very operation and digest, refuses only a record of another |
| Idempotency.RecordTable.Control | src/asic/api/app.py:529-560 | One mutation: with a record, its response for the same operation and digest and a conflict for any other, nothing written; without one, the endpoint's response and its record, or an abort and nothing |
| Idempotency.ControlIsARun | src/asic/api/app.py:273-285 | That code is the uninterrupted run of the interleaved protocol: same records, same outcome |
| Idempotency.EveryRunKeepsInvariant | src/asic/api/app.py:191-244 | Every interleaving of transactions, aborts, lock collisions and deletions keeps the locks exact and the records equal to what the effect log leaves behind |
| Idempotency.AtMostOneEffectBetweenPurges | src/asic/api/app.py:191-244 | Two committed effects of one key are separated by a retention deletion; without one there is at most one |
| Idempotency.SuccessesAgree | src/asic/api/app.py:191-221 | All successful answers for a key whose record is not deleted are the same response to the same request |
| Idempotency.SuccessMeansCommitted | src/asic/api/app.py:224-285 | A success is the response of an effect that did commit for that very request |
| Idempotency.LockHolderIsNotWaiting | src/asic/api/app.py:198-201 | Whoever waits for a lock can take it or waits for a transaction that does not wait, so advisory locks never deadlock |
| Idempotency.AbortedKeyIsReusable | src/asic/api/app.py:191-285 | After an aborted first attempt a retry, even a different request, can run to a committed success |
| Idempotency.RetryIsAnswered | src/asic/api/app.py:198-221 | In every reachable state with the record of a key in place and its lock free, a retry of the recorded request ends with the recorded response and any other request with a conflict, without effect |
| Idempotency.FirstRequestSucceeds | src/asic/api/app.py:191-244 | With key and lock free a request runs to its own response, committed together with its record |
| Idempotency.OperationsCollideOnlyOnEscalateAndCancel | src/asic/api/app.py:538-538 | Operation strings identify endpoint and subject, except that escalate and cancel share theirs |
| Cursors.UuidRoundTrip | src/asic/api/app.py:247-264 | The canonical text of every id parses back to it |
| Cursors.UuidTextShape | src/asic/api/app.py:247-248 | The text has hyphens at 8, 13, 18 and 23 and lower-case hexadecimal digits everywhere else |
| Cursors.DigitIs | src/asic/api/app.py:248-248 | The 64 digits are those of the URL-safe alphabet, one by one |
| Cursors.DecodeEncode | src/asic/api/app.py:247-264 | Base64 decoding inverts encoding on every byte string |
| Cursors.PaddingRestored | src/asic/api/app.py:247-260 | Stripping the padding and restoring it from the length alone gives the encoding back |
| Cursors.CursorRoundTrip | src/asic/api/app.py:247-264 | Every cursor emitted is within `MAX_CURSOR_CHARS` and decodes to the same id |
| Cursors.CursorReadIff | src/asic/api/app.py:251-264 | A cursor is read as an id exactly when it has at most 64 characters and is, padding restored, the base64 of a text of the id |
| Pagination.VisibilityAgrees | src/asic/api/auth.py:193-211 | The single-object check allows an environment exactly when the list filter is absent or contains it |
| Pagination.AllowsMeans | src/asic/api/auth.py:193-205 | A permission reaches an environment exactly by a tenant-wide grant or one for it, and any environment exactly when some environment is reached |
| Pagination.ListingRefusedIff | src/asic/api/app.py:364-370 | A listing is refused exactly when the principal may read no environment, and otherwise only for a cursor that does not decode |
| Pagination.SelectedIdsAreVisible | src/asic/api/app.py:291-299 | A listing may return exactly the incidents after the cursor that the single-object check lets through |
| Pagination.NothingVisibleWithoutGrant | src/asic/api/app.py:364-367 | A principal whose listing is refused can see no incident |
| Pagination.PageShowsIds | src/asic/api/app.py:267-270 | A page shows the first `limit` visible rows after the cursor, and has a next cursor, decoding to its last id, exactly when rows remain |
| Pagination.FollowIsWalk | src/asic/api/app.py:357-373 | The listing with text cursors walks exactly as keyset selection on plain ids does |
| Pagination.FollowingEnumeratesTable | src/asic/api/app.py:357-373 | On an unchanging table the concatenated pages are all visible ids in order, none repeated or missed, for every limit |
| Pagination.FollowingSurvivesChanges | src/asic/api/app.py:357-373 | While the table changes between requests nothing is repeated or invented, and a finished walk has shown every row that was visible throughout |
| Pagination.FollowingTerminates | src/asic/api/app.py:357-373 | Even then a client ends after at most (ids ever visible) / limit + 1 requests |
| BatchedActions.ActionsJson | src/asic/api/app.py:805-838 | For any order the database may answer in, the page keeps length and order, and field by field each entry shows its action, the decision of an approval of greatest rank, the verdict of the verification of greatest rank and the verdict of its policy, or None exactly where the action has no such row |
| BatchedActions.ActionJsonOf | src/asic/api/app.py:801-802 | The single read is that of a page of one |
| BatchedActions.FirstPerAction | src/asic/api/app.py:810-823 | The `setdefault` loop keeps the first row of each action and no other |
| BatchedActions.LastPerAction | src/asic/api/app.py:824-829 | The comprehension keeps the last row of each action |
| BatchedActions.FirstIsNewest | src/asic/api/app.py:810-823 | The first row of an action in a bulk read ordered by action and rank is its newest row |
| BatchedActions.DeterminedIff | src/asic/api/app.py:810-823 | All answers the database may give lead to the same row if and only if the newest row is alone at its rank |
| BatchedActions.BatchEqualsSingleReads | src/asic/api/app.py:801-838 | Entry by entry the batched page equals the single reads, when no newest rows tie |
| PoolDiscipline.NoDeadlock | src/asic/api/app.py:1045-1083 | Requests that take slot, thread, connection and advisory lock in order and return them in reverse are never stuck |
| PoolDiscipline.ZeroSlotsBlockOnlyIngestion | src/asic/api/app.py:1053-1083 | With the accepted limit of zero slots, exactly the requests that wait for a slot cannot go on |
| PoolDiscipline.EndpointIsDisciplined | src/asic/api/app.py:317-342 | Authentication, session and endpoint segments keep that order |
| PoolDiscipline.MutationIsDisciplined | src/asic/api/app.py:198-201 | So does a mutation, which waits for the advisory lock of its key's hash with a thread and a connection in hand |
| PoolDiscipline.IngestIsDisciplined | src/asic/api/app.py:1087-1150 | So does ingestion, which moreover holds a slot whenever it holds a connection past authentication |
| PoolDiscipline.ApiNeverDeadlocks | src/asic/api/app.py:980-1083 | No reachable state of any number of reading, mutating and ingestion requests, whatever lock hashes collide, with at least one thread, connection and slot, is a deadlock |
| PoolDiscipline.ApiRequestsFinish | src/asic/api/app.py:317-342 | A run that cannot go on has finished every request and returned every unit |
| PoolDiscipline.RunsAreBounded | src/asic/api/app.py:317-342 | Every step shortens the remaining work, so no schedule runs forever |
| PoolDiscipline.IngestionIsBounded | src/asic/api/app.py:1041-1083 | Past authentication ingestion never holds more connections than slots |
| PoolDiscipline.PoolsNeverOverdrawn | src/asic/api/app.py:1041-1083 | In every reachable state threads, connections and slots in use stay within their pools and no advisory lock is held twice |
| PoolDiscipline.WaitsOnlyForUsedUp | src/asic/api/app.py:1070-1083 | A request waits for a thread, connection or slot exactly while all of them are in use |
| PoolDiscipline.FormerIngestDeadlocks | src/asic/api/app.py:986-994 | Holding one connection while taking another deadlocks two requests on two connections |
| PoolDiscipline.FormerEndpointDeadlocks | src/asic/api/app.py:317-329 | Holding a connection while waiting for a thread deadlocks two requests |
| DeployRelease.StateOfMeans | scripts/deploy_release.py:229-244 | Failed exactly with a true Failed or FailureTarget condition, complete exactly with a true Complete condition and neither of those |
| DeployRelease.RunningMigrationPods | scripts/deploy_release.py:358-383 | Lists exactly the pods whose phase is neither Succeeded nor Failed |
| DeployRelease.ClearPreviousMigration | scripts/deploy_release.py:297-355 | Whatever the cluster answers, what is done to it obeys the protocol and ends with the slot seen empty or with the reason for stopping |
| DeployRelease.WaitForMigrationPods | scripts/deploy_release.py:386-423 | Goes on only after a listing in which every pod has ended |
| DeployRelease.WaitForJob | scripts/deploy_release.py:437-477 | Passes the guard only on a reply that shows the run's Job with Complete true and neither failure condition; reports failure only on one that shows a failure condition |
| DeployRelease.MigrationPollMeans | scripts/deploy_release.py:455-477 | One poll, told apart by the words of the reply: complete, failed, replaced, disappeared, timed out, or wait on, each if and only if |
| DeployRelease.FirstLookMeans | scripts/deploy_release.py:313-340 | The first look at the slot, likewise: a failed Job leads to its evidence, a complete one to its delete, an active one to a stop, one being deleted to waiting |
| DeployRelease.SlotPollMeans | scripts/deploy_release.py:341-355 | Each poll for the old Job to go: absent, replaced, still there past the deadline, or wait on |
| DeployRelease.PodsPollMeans | scripts/deploy_release.py:404-423 | Each poll for old pods: on exactly when all have ended, stopped exactly past the deadline otherwise |
| DeployRelease.FailedCommandStops | scripts/deploy_release.py:657-709 | Whatever command fails, in whatever phase, the run stops with that command's reason |
| DeployRelease.RunDeployment | scripts/deploy_release.py:637-709 | What a run does to the cluster is always a trace the protocol allows; success is reported at its end, a stop with the reason the protocol stopped for, and only a process killed mid-poll ends otherwise |
| DeployRelease.ApplicationOnlyAfterMigration | scripts/deploy_release.py:675-694 | An application apply is preceded, in the same run, by a create and a reply that shows Complete true and neither failure condition, on the created Job if a uid was printed |
| DeployRelease.FailedMigrationAppliesNothing | scripts/deploy_release.py:684-691 | A run that sees its Job failed ends there with its diagnostics, and its whole trace applies no application manifest |
| DeployRelease.CreateOnlyAfterQuietSlot | scripts/deploy_release.py:662-675 | Before a create the slot was seen empty and after that a listing showed every pod ended |
| DeployRelease.SuccessfulRunDidEverything | scripts/deploy_release.py:657-709 | A run that reports success validated, applied and registered all there is, waited for as many Deployments as there are and passed the smoke check |
| DeployRelease.StoppedBeforeGuardAppliesNothing | scripts/deploy_release.py:658-694 | A run stopped by a predecessor, pods, failure, timeout, replacement or disappearance has applied no application manifest |
| DeployRelease.OneCreate | scripts/deploy_release.py:675-675 | A run creates at most one Job |
| DeployRelease.FullGuaranteeIffUidPrinted | scripts/deploy_release.py:453-477 | The application followed the complete state of the run's own Job if and only if the create printed a non-empty uid |
| DeployRelease.EmptyUidSkipsIdentityCheck | scripts/deploy_release.py:453-477 | A concrete trace with an empty uid applies the application after another Job's completion |
| DeployRelease.DeleteFollowsTerminalJob | scripts/deploy_release.py:313-340 | Every Job delete follows the sight of a terminal Job with nothing but diagnostics in between |
| MigrationSafety.EveryHistoryKeepsInvariant | scripts/deploy_release.py:297-423 | Over every history of runs, kills, controller steps and outside deletions, what each phase knows about slot, pods and Job stays true |
| MigrationSafety.NeverTwoMigrations | scripts/deploy_release.py:637-675 | At every instant all running migration pods belong to one Job |
| MigrationSafety.CreateFindsQuietCluster | scripts/deploy_release.py:386-423 | A create meets no Job and no running pod of an earlier one |
| MigrationSafety.OnlyFinishedJobsAreDeleted | scripts/deploy_release.py:313-340 | The delete, which names no uid, only ever reaches a finished Job |
| MigrationSafety.ApplicationAfterOwnMigration | scripts/deploy_release.py:675-694 | Whenever the application is applied, the Job this run created has completed, printed uid or not |
| ConcurrentDeployments.CarefulHistoryKeepsFleet | scripts/deploy_release.py:297-423 | Any number of interleaved runs, with any kills and disturbances but careless deletions, keep what each run remembers true |
| ConcurrentDeployments.NeverTwoMigrationsAtOnce | scripts/deploy_release.py:637-675 | Then all running migration pods belong to one Job, however many deployments run at once |
| ConcurrentDeployments.VanishingIsSafeIff | scripts/deploy_release.py:667-675 | When a Job vanishes, migrations stay apart ever after if and only if no pod runs or no run stands between its pod check and its create |
| ConcurrentDeployments.CarelessCaseIsReachable | scripts/deploy_release.py:667-675 | Two overlapping runs do reach the state in which one such deletion lets two migrations run |
| ConcurrentDeployments.SeenJobIsDeletedFinished | scripts/deploy_release.py:313-340 | Among several runs, the Job that a run saw is finished when its delete reaches it |
| ConcurrentDeployments.OrderlyDeletesAreFinished | scripts/deploy_release.py:313-340 | However many runs interleave and whatever happens outside: if creates land only while no run is about to delete, every delete finds a finished Job |
| ConcurrentDeployments.CreateIsSafeIff | scripts/deploy_release.py:323-340 | After a create lands, no orderly continuation deletes an active Job if and only if no run was about to delete when it landed |
| ConcurrentDeployments.ActiveJobIsDeleted | scripts/deploy_release.py:323-340 | Two runs that see the same finished Job do reach the state in which the second one's delete hits the Job the first one just created |
| ConcurrentDeployments.PrintedUidIsGuarded | scripts/deploy_release.py:453-477 | A run whose create printed a uid applies the application only after its own Job completed, whatever other runs do |
| EgressPolicy.NestedOrDisjoint | scripts/render_deployment.py:53-57 | Two aligned prefixes that share an address are nested |
| EgressPolicy.SubnetCovers | scripts/render_deployment.py:53-57 | The containment test by first and last address is containment of every address |
| EgressPolicy.AcceptedAvoidsForbidden | scripts/render_deployment.py:60-80 | No accepted network of either family holds a single address of the loopback, link-local, multicast or any reserved block, although the code compares only its two ends |
| EgressPolicy.AcceptedIff | scripts/render_deployment.py:60-80 | For both families: a network is accepted if and only if it holds no forbidden address, lies in an internal or documentation range or is no broader than a routed block, and for IPv4 is neither the unspecified nor a placeholder network |
| EgressPolicy.AcceptedMeans | scripts/render_deployment.py:40-80 | The rules of both families in numbers: first and last address, special address intervals, internal and documentation intervals, /24 and /48, 0.0.0.0/32 and 192.0.2.0/24 |
| EgressPolicy.RangesMean | scripts/render_deployment.py:40-48 | The internal and documentation ranges as address intervals |
| EgressPolicy.UnspecifiedAddressIsReachable | scripts/render_deployment.py:60-80 | The accepted IPv4 networks that hold 0.0.0.0 are exactly 0.0.0.0/24 to 0.0.0.0/31 |
| EgressPolicy.AcceptedUnionAllowed | scripts/render_deployment.py:83-94 | Accepted entries never cover an address family together |
| EgressPolicy.UnionCheckIsImplied | scripts/render_deployment.py:145-155 | `validate` accepts the same configurations without the union check |
| EgressPolicy.PublicPartIsSmall | scripts/render_deployment.py:75-80 | One accepted entry opens at most 256 IPv4 addresses outside the internal and documentation ranges |
| EgressPolicy.PublicEgressIsBounded | scripts/render_deployment.py:34-49 | An accepted configuration opens at most 64 x 256 IPv4 addresses outside the internal and documentation intervals |
| BodyBounds.Exchange.BoundedReceive | src/asic/api/limits.py:83-91 | Aborts exactly on a body part that takes the total above the ceiling and hands every other message on unchanged; the client sees nothing of it |
| BodyBounds.Exchange.TrackingSend | src/asic/api/limits.py:93-105 | Forwards while the total is within the ceiling; afterwards drops, with one start of status 413 and its body if nothing was started |
| BodyBounds.Exchange.Finish | src/asic/api/limits.py:107-110 | The 413 still owed is sent when the application returns or lets the abort through |
| BodyBounds.Call | src/asic/api/limits.py:62-110 | For every application behaviour what the client sees and what the application was given; a length below zero or above the ceiling is answered 413, a POST, PUT or PATCH body of another media type 415, each with start and body, everything else is passed through the wrappers |
| BodyBounds.HandedWithinCeiling | src/asic/api/limits.py:83-91 | The application is never handed more than `max_body_bytes` in total |
| BodyBounds.TransparentBelowCeiling | src/asic/api/limits.py:79-110 | Below the ceiling the client sees exactly what the application sent |
| BodyBounds.NothingForwardedAfterCrossing | src/asic/api/limits.py:95-102 | What is forwarded is what was sent before the crossing, whatever follows |
| BodyBounds.AtMostOneResponse | src/asic/api/limits.py:93-110 | An application that starts at most one response leaves the client with at most one |
| BodyBounds.TooLargeIsAnswered413 | src/asic/api/limits.py:95-110 | Crossed before any response was started: exactly one response, the 413, whether the abort was swallowed or not |
| BodyBounds.ForeignExceptionMayHideThe413 | src/asic/api/limits.py:107-110 | With an exception of its own the application's client gets the 413 if and only if it tried to send after the crossing |
| ReservationLedger.Table.Insert | migrations/versions/20260915_1500_0015_verified_memory_ledger.py:141-152 | The row is stored or the table is untouched, as trigger, checks and unique key decide; the table invariant is kept |
| ReservationLedger.Table.Update | migrations/versions/20260915_1500_0015_verified_memory_ledger.py:153-180 | The row is replaced or the table is untouched, as trigger and checks decide; the table invariant is kept |
| ReservationLedger.EveryHistoryKeepsTable | migrations/versions/20260915_0900_0014_pre_phase10_safety.py:121-150 | After every sequence of writes ids and keys are unique, all checks hold, and a reserved row carries no settlement data |
| ReservationLedger.RowsSettleOnce | migrations/versions/20260915_1500_0015_verified_memory_ledger.py:153-180 | Over every sequence of writes a row keeps identity and bounds and takes at most two values, the second forever |
| ReservationLedger.InsertAcceptedIff | migrations/versions/20260915_1500_0015_verified_memory_ledger.py:141-152 | A row is let in exactly as an unsettled reservation with non-negative bounds under an unused id and key |
| ReservationLedger.UpdateAcceptedIff | migrations/versions/20260915_1500_0015_verified_memory_ledger.py:153-180 | An update is accepted if and only if it turns a reserved row into a completed one within its bounds and changes nothing but the six settlement columns |
| ReservationLedger.UsageNeverExceedsReservation | migrations/versions/20260915_0900_0014_pre_phase10_safety.py:139-150 | After every sequence of writes the completed rows of a run used no more tokens and no more money than they had reserved |
| ReservationLedger.CalledAtMostOnce | src/asic/llm/accounting.py:28-76 | Over every interleaving of workers, between whose lookup and insert anything may happen, the provider is called at most once for a key, and only for a key that holds a reservation |
| ReservationLedger.RaceHasOneWinner | src/asic/llm/accounting.py:34-75 | Of two workers whose lookups both found nothing only one inserts; the other's insert fails, and its charge with it |
| ReservationLedger.StepKeepsCalls | migrations/versions/20260915_0900_0014_pre_phase10_safety.py:126-128 | Every step keeps the called keys distinct and each in possession of its row, by the unique key alone |
| ReservationLedger.SpendingIsBounded | src/asic/llm/accounting.py:28-113 | Over every interleaving in which each kernel write is safe, whatever it lowers: usage of completed calls plus reservations of open ones stays below both ceilings, costs up to half a millionth a call |
| ReservationLedger.KernelWriteIsSafeIff | src/asic/orchestration/kernel.py:595-608 | From any state within bounds, a kernel write with unchanged ceilings keeps every later run below them if and only if it covers what the run is committed to, or admits no further call; for tokens and, with the exact effect of rounding, for costs |
| ReservationLedger.UsageWriteIsSafeIff | src/asic/llm/budgeted.py:52-54 | The write the kernel makes, actual usage less what was dropped on the way, covers the run's tokens if and only if no call is open and nothing was dropped; and then it is safe although it undoes part of the charge |
| ReservationLedger.ReservationsAreBounded | src/asic/llm/accounting.py:28-113 | While no kernel write lowers the charge, even the sum of all reservations stays covered by the charge and below the ceilings |
| ReservationLedger.StepKeepsBounds | src/asic/llm/accounting.py:50-75 | Each step, safe kernel writes included, keeps the commitment covered or the budget exhausted, and every call below the ceilings |
| ReservationLedger.ChargesAreReservations | src/asic/llm/accounting.py:28-113 | While only reserve and settle write the budget, tokens are charged exactly as reserved, costs up to rounding |
| ReservationLedger.WholeCostsBalance | src/asic/llm/accounting.py:56-75 | Costs too are charged exactly as reserved when every estimate is a whole number of millionths |
| ReservationLedger.OneCallBalancesIff | src/asic/llm/accounting.py:56-75 | One call is charged as it is stored if and only if its cost is whole |
| ReservationLedger.ForgottenChargeOverspends | src/asic/orchestration/kernel.py:595-608 | After any write that is not safe some later run, without a further kernel write, goes past a ceiling |
| ReservationLedger.SettledCallIsReplayed | src/asic/llm/accounting.py:33-49 | Once a call is settled, every later lookup of its key is answered with the settled response, whatever any worker does in between |
| ReservationLedger.SettleSettlesIff | src/asic/llm/accounting.py:78-113 | Settling an open call with a usage inside its reservation completes its row with that very usage; any other usage is refused and changes nothing |
| ReservationLedger.SettlementIsReplayed | src/asic/llm/accounting.py:33-113 | From settling to replaying: after a settlement that fits, every later lookup of the key learns its response |
| ReservationLedger.SettleAddsUsage | src/asic/llm/accounting.py:98-113 | A settlement adds exactly its usage to what the run has used and leaves the charge as it is |
| ReservationLedger.LookupMeans | src/asic/llm/accounting.py:31-47 | What a lookup tells its caller, case by case, each if and only if |
| ReservationLedger.PutCallsIff | src/asic/llm/accounting.py:48-75 | The provider is called if and only if no dimension is or becomes exhausted and the id and key are unused; no headroom is reported exactly when the budget says so |
| ReservationLedger.PutReserves | src/asic/llm/accounting.py:58-75 | The row and the charge a call is made under are those of its estimate |

## Left out

- Clock and floats: readings of the limiter are assumed non-decreasing (its clock is read before the lock); times and costs are exact numbers, so that the only rounding is that of the stored cost column.
- Cursors of foreign origin: the leniency of the library's base64 and id parsers beyond the forms the system emits.
- Foreign libraries: HTTP, JSON, YAML, signatures and hashing; digests are injective, fetch results and key material are inputs.
- Idempotency: digest equality stands for request equality, each read sees what is committed at that moment, and row locks that an endpoint takes beside its advisory lock are not modelled; the retention job appears as deletions at any moment.
- Pools: requests that return normally only, not the teardown after an exception; slot timeouts and the per-event-loop table of semaphores are one bounded counter; requests and pools are values, not objects.
- Former programs of the endpoints: modelled as the source's comments describe them, since the code itself has been replaced.
- Deployment: creates that take effect late, a Job controller that starts pods for a Job already gone, the manifest split, and the retries inside the smoke probes (`converge`, scripts/deploy_release.py:553-589); polling loops end after a number of polls that stands for the life of the process.
- Egress: the text form of networks, address-library versions that look inside IPv4-mapped IPv6 addresses, union collapsing beyond its meaning (the set of covered addresses), the host and audience checks of `validate`, and the manifest edits of `render`.
- BodyBounds.Exchange.constructor: a negative ceiling, which the middleware does not refuse, is not modelled.
- Kernel: a run's budget writes (src/asic/orchestration/kernel.py:595-608 and 727-743) are steps with any content; which usage the nodes had gathered when they are made, and the reload of the durable charge after an error (`durable_budget`), are not part of this model.
- Ledger: deletion of a run with its rows; 32-bit overflow, which the database refuses; other budget dimensions are one flag.
- BatchedActions.BatchEqualsSingleReads: needs approvals without ties for newest, which no constraint ensures; `DeterminedIff` shows the condition is exact.
- Small helpers with one-branch facts: token lifetime checks, error classification, authentication claims, audit records.
- `outage` and `percentile` of the chaos experiments and the ranked clean-up of revision 0009: no property harder than their definition.
- Redaction by regular expressions, role grants, schema definition, the frontend and the incident kernel.
