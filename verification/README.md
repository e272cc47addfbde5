# Verification of the AMQP gateway library

A Dafny model of the stateful core of the library and proofs about it, one module per component:

- **Route synchronisation** (`RouteManifest`, `RouteStore`, `RouteDiff`, `RouteSync`, `RouteProtocol`, `RouteConvergence`,
  `RouteLocks`, `RouteInterference`, `RouteEdits`, `RouteInsertRace`, `RouteDrafts`, over `CanonicalJson`): services publish
  route manifests, gateway instances reconcile them against a shared store, administrators edit the same rows. `RouteSync`
  has the service object and the effect of a whole undisturbed run, and `RouteVerdicts` says which keys it writes and when
  it asks for a reload; `RouteProtocol` cuts the run at every store call and
  interleaves any number of them with administrators and failures; `RouteInterference` says exactly which of those runs lose
  a user's lock or override, `RouteEdits` and `RouteInsertRace` show how, and `RouteDrafts` adds the edits in flight.
- **Decision cache** (`AclGrants`, `AclKeys`, `AclCache`, `AclSystem`, `AclCoherence`, `AclStaleness`, `AclTwoTier`,
  `AclInvalidation`, `AclStaleRuns`): grants as records and as a map, the cache keys, the cache object with its generation
  counter, and coherence over every run of the RAM-only deployment. For the deployment with a shared store: the age bound of
  its answers, and exactly when an invalidation of every instance leaves no older decision to serve.
- **Bounded retries** (`RetryPolicy`, `RetryLife`, `RetrySafety`, `RetryExact`, `RetryReplies`, `RetryConsumer`,
  `RetryOutcomes`): the life of one message and all its copies with a fault possible at every call to the broker, and what
  each kind of delivery leads to when there is none.
- **Pure algorithms** (`RoutingKeys`, `PathOrder`, and `CanonicalJson` again), **metrics** (`Grouping`, `Metrics`, `MetricSeries`,
  `Rollups`, `RollupStore`) and **reload coalescing** (`Reload`). `Options`, `Ordering` and `Words` are shared.

Components that change state in place are classes whose methods are proved equal to a function of the old state;
the theorems are about those functions and about runs of them. An asynchronous method is cut at its awaits.
Times are integers, and every clock reading, every fault and every schedule is a parameter.

## Hypotheses

- The route store enforces a unique `routeKey` and fresh ids, and `updateById` merges, as the repository contract and the
  in-memory collection have it. Services are not named `yaml` or `manual`; two lemmas show why. A manifest without a service name is ignored by the code.
- Cache keys: user ids without `/`; company and resource ids without `|` and `:` and different from `*`; action names
  without `,`. One lemma shows why the star is excluded.
- Coherence: no shared store and a fixed set of roles. The writes of a mutation change grants of its user only.
- Staleness: a call to the shared store is answered within `callMs` or not at all. `set` is allowed to accept anything there;
  `AclTwoTier` adds the checks in flight and the generation test in front of it.
- What survives interleaving (`RouteInterference`, `RouteDrafts`): edits of the row begun later neither rename it nor give up the lock
  or the field; those already in flight may.
- Retries: the message has no expiration of its own; the wait queue exists while a copy waits in it;
  the retry header, where present, is a number.
- Path order: a static segment matches only its equal, a parameter one segment.

## Where the code and its documentation differ

- `retry-policy.ts:36` says a dead-letter copy defaults to the original routing key. The code uses the key of the delivery
  that failed last, which after any retry is the queue's own name (`RetryReplies.DeadLetterKey`).
- `acl-cache.service.ts:20-23` says the generation closes the re-population race. It does in the RAM-only deployment. With a
  shared store the test guards only the moment `set` is called: the promotion of a value already read is not guarded
  (`AclStaleRuns.LatePromotion`, `AclStaleRuns.EarlyPromotion`), a store write accepted before the mutation may land after it
  (`AclStaleRuns.LateWrite`), and an instance not yet notified still accepts (`AclStaleRuns.LateCheck`). Each then serves the
  older decision after every instance was notified. `AclInvalidation.DeletionFailsIff` is the exact condition; what bounds
  such an answer is its age (`AclStaleness.StalenessBound`).
- `route-diff.ts:54-62` says a locked route is never overwritten and an overridden field keeps the user's value. A sync in
  flight at the edit can lose both: by an upsert planned before it, by one still to be planned from rows read before it, and
  by a planned insert that loses its race to the row without ever having read it (`RouteEdits.LockLostToInFlightSync`,
  `RouteInsertRace.LockLostToInsertRace`). So can a second edit that read the row before the first (`RouteEdits.StaleEditUnlocks`).
  `RouteDrafts.MarkSurvivesDraftsIff` is the exact condition for both.
- Two manifests in a row need not converge: `updateById` merges, so a field the manifest leaves out keeps a stored value
  and the row differs for ever. `RouteConvergence.SecondPassQuietIff` gives the exact condition.
- `http-handler.service.ts:153-155` promises one more reload after signals during a reload. If the running pass throws, that
  reload does not happen; `Reload.LostSignalIff` says exactly when a signal is lost. The pass catches the failures of its own
  calls; what can still throw is reading the configuration, as with gateway `paths` that cannot be iterated.
- `retry-policy.ts:6-10` says a failing message is published again and in the end dead-lettered or dropped by the policy. A retried
  copy comes back under the name of the queue, so an rpc consumer whose pattern does not accept that name rejects it at
  once, before the policy sees it (`RetryReplies.NeverTurnsAwayIff`).
- `utils.ts:4` reads a pattern only up to its first `#`, unlike the topic rules of AMQP.

## Model

| member | source | states |
|---|---|---|
| `CanonicalJson.StringifyDecidesEquivalence` | libs/rlb-nestjs-amqp/src/modules/gateway-admin/util/route-manifest.ts:50-55 | for all JSON values, two texts are equal if and only if the values are equal up to object key order, at every depth: no delimiter, escape or nesting makes two values print alike |
| `CanonicalJson.QuotePrefix` | libs/rlb-nestjs-amqp/src/modules/gateway-admin/util/route-manifest.ts:51-54 | a quoted string ends where its own text says: two quoted strings followed by any text agree as texts only if strings and followers agree |
| `CanonicalJson.RenderPrefix` | libs/rlb-nestjs-amqp/src/modules/gateway-admin/util/route-manifest.ts:50-55 | a rendered value never runs into what follows it, so elements and members can be read back one by one |
| `RouteManifest.RouteContentDecides` | libs/rlb-nestjs-amqp/src/modules/gateway-admin/util/route-manifest.ts:9-19 | for real values: equal content strings if and only if each of the seventeen fields carries equivalent values in the two routes, or a blank in both: null or absent, and for actions also [], for headers and forwardHeaders also {} |
| `RouteManifest.ValidExact` | libs/rlb-nestjs-amqp/src/modules/gateway-admin/util/route-manifest.ts:68-70 | a route is valid if and only if method, path, topic and action are there and not null, false, 0 or empty, and the mode is rpc or event |
| `RouteManifest.RouteKeyText` | libs/rlb-nestjs-amqp/src/modules/gateway-admin/util/route-manifest.ts:4-6 | the route key letter by letter: the method with its small letters made capital, a blank, the path |
| `RouteManifest.SameRouteKeyIff` | libs/rlb-nestjs-amqp/src/modules/gateway-admin/util/route-manifest.ts:4-6 | two routes have one key if and only if they have one path and, letter case aside, one method |
| `RouteManifest.FieldChangedIff` | libs/rlb-nestjs-amqp/src/modules/gateway-admin/util/route-manifest.ts:86-88 | on real values a field counts as changed if and only if its values are not equivalent |
| `RouteManifest.ApplyUserOverrides` | libs/rlb-nestjs-amqp/src/modules/gateway-admin/util/route-manifest.ts:34-42 | the loop yields the incoming route with the stored value on exactly the overridden content fields; `enabled` is skipped |
| `RouteManifest.ChangedFieldsExact` | libs/rlb-nestjs-amqp/src/modules/gateway-admin/util/route-manifest.ts:81-102 | a field is reported changed if and only if its two values differ as JSON, absent and null alike |
| `RouteManifest.DiffRouteFields` | libs/rlb-nestjs-amqp/src/modules/gateway-admin/util/route-manifest.ts:81-102 | the loop reports the changed fields in the fixed field order |
| `RouteStore.InsertRow` | libs/rlb-nestjs-amqp/src/modules/gateway-admin/repository/http-path.repository.ts:35-36 | an insert, conflicting or not, leaves the routeKey index unique and ids fresh |
| `RouteStore.UpdateRow` | libs/rlb-nestjs-amqp/src/modules/gateway-admin/repository/http-path.repository.ts:39-40 | a merging update, conflicting or not, leaves the routeKey index unique and ids fresh |
| `RouteStore.FindOwned` | libs/rlb-nestjs-amqp/src/modules/gateway-admin/services/route-sync.service.ts:80 | a row under a key whose owner (absent counting as manual) is, or is not, the service; none only if there is none |
| `RouteDiff.IndexExisting` | libs/rlb-nestjs-amqp/src/modules/gateway-admin/util/route-diff.ts:37-38 | the index of the owned rows by routeKey, with keys in first-insertion order and the last row winning |
| `RouteDiff.JudgeRoute` | libs/rlb-nestjs-amqp/src/modules/gateway-admin/util/route-diff.ts:47-71 | the verdict on one route: reserved by someone else, locked, unchanged, or the exact upsert |
| `RouteDiff.DisableStale` | libs/rlb-nestjs-amqp/src/modules/gateway-admin/util/route-diff.ts:74-78 | the stale rows, in index order |
| `RouteDiff.DiffRoutes` | libs/rlb-nestjs-amqp/src/modules/gateway-admin/util/route-diff.ts:30-82 | the two loops compute the specified diff, duplicates and invalid routes included, and report a change exactly when a row is to be written or switched off |
| `RouteDiff.DiffDecidesEachKey` | libs/rlb-nestjs-amqp/src/modules/gateway-admin/util/route-diff.ts:41-72 | one decision per valid key of the manifest: listed as an upsert exactly once if its first valid route must be written, otherwise not at all |
| `RouteDiff.StaleRowsExact` | libs/rlb-nestjs-amqp/src/modules/gateway-admin/util/route-diff.ts:74-78 | a row is soft-disabled if and only if it is enabled and no valid manifest route has its key |
| `RouteDiff.OthersExact` | libs/rlb-nestjs-amqp/src/modules/gateway-admin/util/route-diff.ts:41-56 | every key listed as skipped has a locked row, and every listed collision is one: nothing else is listed |
| `RouteDiff.InvalidInOrder` | libs/rlb-nestjs-amqp/src/modules/gateway-admin/util/route-diff.ts:41-42 | the dropped routes are exactly the malformed ones, each as often as it came, in order |
| `RouteDiff.IndexLast` | libs/rlb-nestjs-amqp/src/modules/gateway-admin/util/route-diff.ts:37-38 | of several rows under one key, the last one listed is the one compared and disabled |
| `RouteDiff.KeysByFirstRow` | libs/rlb-nestjs-amqp/src/modules/gateway-admin/util/route-diff.ts:74-75 | the stale loop visits the keys of the rows once each, in the order of their first rows |
| `RouteSync.RouteSyncService.ReservedFor` | libs/rlb-nestjs-amqp/src/modules/gateway-admin/services/route-sync.service.ts:74-82 | the reserved map: YAML keys first, then keys some other owner holds in any enabled state |
| `RouteSync.ReservedExact` | libs/rlb-nestjs-amqp/src/modules/gateway-admin/services/route-sync.service.ts:74-82 | a manifest key is reserved, and for whom, exactly as the YAML file and the store say |
| `RouteSync.RouteSyncService.ApplyOne` | libs/rlb-nestjs-amqp/src/modules/gateway-admin/services/route-sync.service.ts:102-132 | one upsert with its insert-race reconciliation |
| `RouteSync.RouteSyncService.ApplyAll` | libs/rlb-nestjs-amqp/src/modules/gateway-admin/services/route-sync.service.ts:102-132 | the apply loop is the upserts in order |
| `RouteSync.RouteSyncService.DisableAll` | libs/rlb-nestjs-amqp/src/modules/gateway-admin/services/route-sync.service.ts:133-136 | the disable loop is the soft-disables in order |
| `RouteSync.RouteSyncService.Handle` | libs/rlb-nestjs-amqp/src/modules/gateway-admin/services/route-sync.service.ts:60-149 | one undisturbed handle: the new store, at most one reload, and one whenever the store changed |
| `RouteSync.UpsertsEffect` | libs/rlb-nestjs-amqp/src/modules/gateway-admin/services/route-sync.service.ts:102-132 | a well-placed list of upserts changes exactly its own rows and adds exactly the missing ones |
| `RouteSync.DisablesEffect` | libs/rlb-nestjs-amqp/src/modules/gateway-admin/services/route-sync.service.ts:133-136 | the disables switch off exactly the listed rows and touch nothing else |
| `RouteSync.HandleEffect` | libs/rlb-nestjs-amqp/src/modules/gateway-admin/services/route-sync.service.ts:60-149 | an uninterrupted run on any store: foreign rows untouched, each own row exactly what manifest, lock and overrides say, new rows exactly the free valid keys |
| `RouteVerdicts.WritesIff` | libs/rlb-nestjs-amqp/src/modules/gateway-admin/util/route-diff.ts:48-72 | a sync writes a key of the manifest if and only if the YAML file does not have it, no row under it belongs to another non-empty owner, and the own row under it, if any, is unlocked and is off without the user having said so or carries a differing value in a field the user did not override |
| `RouteVerdicts.YamlKeysExact` | libs/rlb-nestjs-amqp/src/modules/gateway-admin/services/route-sync.service.ts:75 | the keys reserved for the YAML file are those of its routes |
| `RouteVerdicts.SyncedRow` | libs/rlb-nestjs-amqp/src/modules/gateway-admin/util/route-diff.ts:57-71 | in an unlocked row it holds, a sync keeps owner, key and overrides, leaves it enabled unless the user overrode that, and marks a row it changes as found by discovery and unlocked |
| `RouteVerdicts.CreatedRow` | libs/rlb-nestjs-amqp/src/modules/gateway-admin/util/route-diff.ts:66-72 | a row it creates is the first valid route for a key nobody held, enabled, owned, unlocked, without overrides |
| `RouteVerdicts.ReloadsIff` | libs/rlb-nestjs-amqp/src/modules/gateway-admin/util/route-diff.ts:80 | a sync broadcasts a reload if and only if some key of the manifest is written or some enabled keyed row of the service is no longer named |
| `RouteVerdicts.ReloadsExactly` | libs/rlb-nestjs-amqp/src/modules/gateway-admin/services/route-sync.service.ts:138-139 | the same on the manifest and the rows alone, without the diff |
| `RouteVerdicts.ChangeReloads` | libs/rlb-nestjs-amqp/src/modules/gateway-admin/services/route-sync.service.ts:138-139 | no change of the store goes unannounced |
| `RouteProtocol.OwnershipSafety` | libs/rlb-nestjs-amqp/src/modules/gateway-admin/services/route-sync.service.ts:60-136 | over every interleaving of any number of runs, store failures and administrator edits: no row changes owner, a sync writes only rows of its own service, and none is inserted or enabled under a YAML key, the insert race included |
| `RouteProtocol.StepSafe` | libs/rlb-nestjs-amqp/src/modules/gateway-admin/services/route-sync.service.ts:60-136 | the same for each single store call of a run in flight |
| `RouteProtocol.SoloRunIsHandle` | libs/rlb-nestjs-amqp/src/modules/gateway-admin/services/route-sync.service.ts:60-149 | left alone, the call-by-call run ends with the store and the reload decision of the whole handle |
| `RouteProtocol.SecondConflictEnds` | libs/rlb-nestjs-amqp/src/modules/gateway-admin/services/route-sync.service.ts:114-118 | a reconciliation that meets a third holder of the key ends the run there: nothing written, nothing further applied, no reload; otherwise it puts exactly its own row under the key |
| `RouteProtocol.ManualServiceTakesUnownedRow` | libs/rlb-nestjs-amqp/src/modules/gateway-admin/services/route-sync.service.ts:114-118 | counterexample that fixes the hypothesis: a service named manual takes over a row nobody owns |
| `RouteProtocol.YamlServiceWritesYamlKey` | libs/rlb-nestjs-amqp/src/modules/gateway-admin/util/route-diff.ts:47-51 | counterexample that fixes the hypothesis: a service named yaml writes a row under a YAML key |
| `RouteConvergence.SecondPassQuietIff` | libs/rlb-nestjs-amqp/src/modules/gateway-admin/util/route-diff.ts:36-81 | for every store and manifest: the second pass has no upsert, no disable and no reload if and only if the store settles, a condition on each row before the first pass |
| `RouteConvergence.ExplicitManifestConverges` | libs/rlb-nestjs-amqp/src/modules/gateway-admin/util/route-diff.ts:36-81 | a manifest that gives every content field a value is quiet on its second pass |
| `RouteConvergence.FirstPassResult` | libs/rlb-nestjs-amqp/src/modules/gateway-admin/util/route-diff.ts:36-81 | after one pass: valid keys nobody else holds are enabled rows of the service unless locked or overridden, owned keys missing from the manifest are off |
| `RouteLocks.GatewayPathService.Create` | libs/rlb-nestjs-amqp/src/modules/gateway-admin/services/gateway-path.service.ts:22-39 | a create: refused exactly for a missing field or a taken key, the store then as it was; otherwise exactly one new row under an id never used, with its own key, source user, unlocked and the given content |
| `RouteLocks.CreateEffect` | libs/rlb-nestjs-amqp/src/modules/gateway-admin/services/gateway-path.service.ts:26-35 | the same of the creation function the runs of acts use |
| `RouteLocks.GatewayPathService.Update` | libs/rlb-nestjs-amqp/src/modules/gateway-admin/services/gateway-path.service.ts:42-86 | an update: refused exactly for want of an id, of the row, or of a free key, the store then as it was; otherwise exactly that row, merged with what was given, under its own key |
| `RouteLocks.EditEffect` | libs/rlb-nestjs-amqp/src/modules/gateway-admin/services/gateway-path.service.ts:42-86 | the same of the edit function the runs use |
| `RouteLocks.RenamedKey` | libs/rlb-nestjs-amqp/src/modules/gateway-admin/services/gateway-path.service.ts:54-58 | after a saved edit that names method and path, the key of the row is the key of its own route |
| `RouteLocks.OverridesOnce` | libs/rlb-nestjs-amqp/src/modules/gateway-admin/services/gateway-path.service.ts:75-77 | a saved edit records no override twice, whatever the row held before |
| `RouteLocks.Classify` | libs/rlb-nestjs-amqp/src/modules/gateway-admin/services/gateway-path.service.ts:59-80 | the classification of an edit: what it writes as `modified` and as override set |
| `RouteLocks.Release` | libs/rlb-nestjs-amqp/src/modules/gateway-admin/services/gateway-path.service.ts:74-77 | the release loop leaves exactly the overrides not released |
| `RouteLocks.EditClassifies` | libs/rlb-nestjs-amqp/src/modules/gateway-admin/services/gateway-path.service.ts:59-80 | a saved edit locks the row if and only if a hard field changed or it was locked, and overrides exactly the old overrides plus the soft fields that changed minus the released ones |
| `RouteLocks.HardExact` | libs/rlb-nestjs-amqp/src/modules/gateway-admin/util/route-manifest.ts:30 | the names whose change locks are exactly the twelve fields that say where a route leads and what is sent there |
| `RouteLocks.LockedByValues` | libs/rlb-nestjs-amqp/src/modules/gateway-admin/services/gateway-path.service.ts:59-78 | on real values a saved edit locks the row if and only if it was locked or one of those fields changed its value |
| `RouteLocks.LockIsForever` | libs/rlb-nestjs-amqp/src/modules/gateway-admin/services/gateway-path.service.ts:78 | over every run of whole syncs and edits, `modified` never returns to false while the row exists |
| `RouteLocks.LockedContentFrozen` | libs/rlb-nestjs-amqp/src/modules/gateway-admin/util/route-diff.ts:54-56 | over every run of syncs, a locked row changes in nothing but its enabled flag |
| `RouteLocks.OverridePersists` | libs/rlb-nestjs-amqp/src/modules/gateway-admin/util/route-diff.ts:57-63 | over every run that does not itself edit or release it, an overridden content field keeps the user value and stays overridden |
| `RouteLocks.ManifestFollowed` | libs/rlb-nestjs-amqp/src/modules/gateway-admin/util/route-diff.ts:59-71 | a sync of an unlocked row: a manifest field not overridden reads like the manifest afterwards, and any value that is not blank arrives as it is; a field left out keeps the row value |
| `RouteInterference.MarkSurvivesIff` | libs/rlb-nestjs-amqp/src/modules/gateway-admin/services/route-sync.service.ts:60-136 | in any safe state of the interleaved system, a lock, or a user value of one overridden field, survives every continuation that does not edit against it if and only if no sync in flight holds a planned upsert, a planned insert that will lose its race to the row, a lost race, or an earlier read leading to one of these, that would write the row without it |
| `RouteInterference.MarkSurvivesInRuns` | libs/rlb-nestjs-amqp/src/modules/gateway-admin/services/route-sync.service.ts:60-136 | so at every point of every run from a store with nothing in flight |
| `RouteInterference.StepUnlocksIff` | libs/rlb-nestjs-amqp/src/modules/gateway-admin/services/route-sync.service.ts:102-132 | one store call of a sync unlocks a row if and only if it is an upsert planned for that row that goes through, or the write of a lost race that the row won |
| `RouteEdits.EditRespectsMark` | libs/rlb-nestjs-amqp/src/modules/gateway-admin/services/gateway-path.service.ts:57-80 | a later edit that starts from the current row, and neither renames the route nor names the field, is such a continuation: it keeps lock and override |
| `RouteEdits.CreationIsEvent` | libs/rlb-nestjs-amqp/src/modules/gateway-admin/services/gateway-path.service.ts:22-40 | a creation by the admin service, refused for its key or not, is one event of the interleaved system |
| `RouteEdits.StaleEditUnlocks` | libs/rlb-nestjs-amqp/src/modules/gateway-admin/services/gateway-path.service.ts:57-80 | of two edits in flight, one with soft changes only that read the row before the other locked it unlocks it again |
| `RouteEdits.HardEditLocks` | libs/rlb-nestjs-amqp/src/modules/gateway-admin/services/gateway-path.service.ts:70-80 | a saved edit that changes a hard field leaves the row locked |
| `RouteEdits.LockLostToInFlightSync` | libs/rlb-nestjs-amqp/src/modules/gateway-admin/services/route-sync.service.ts:60-132 | a run: a sync reads the row, a saved edit changes a hard field and so locks it, the sync writes its plan, and the row is unlocked |
| `RouteEdits.InsertPlanOverwrites` | libs/rlb-nestjs-amqp/src/modules/gateway-admin/services/route-sync.service.ts:112-118 | a run: a sync that never read the row loses its planned insert to it, finds the row as owned by its own service, and writes its model over it, lock and overrides included |
| `RouteInsertRace.LockLostToInsertRace` | libs/rlb-nestjs-amqp/src/modules/gateway-admin/services/route-sync.service.ts:60-132 | the whole run from an idle store where nobody holds the key: two syncs plan the insert, one inserts, a saved hard edit locks the new row, and the other, which never read it, leaves it unlocked and without overrides |
| `RouteDrafts.MarkSurvivesDraftsIff` | libs/rlb-nestjs-amqp/src/modules/gateway-admin/services/gateway-path.service.ts:42-86 | with edits in flight too, cut at their read, check and write: a lock or an overridden value survives every continuation if and only if no sync in flight threatens it and no edit in flight is going to write the row without it |
| `RouteDrafts.MarkSurvivesDraftsInRuns` | libs/rlb-nestjs-amqp/src/modules/gateway-admin/services/gateway-path.service.ts:42-86 | so at every point of every run from a store with nothing in flight |
| `RouteDrafts.OverwritesIff` | libs/rlb-nestjs-amqp/src/modules/gateway-admin/services/gateway-path.service.ts:57-80 | an edit in flight writes the row without the lock exactly when it saw it unlocked and changes no hard field, and without the overridden value exactly when it releases it, gives it another value, or neither saw it overridden nor changes it; or when it renames the route |
| `RouteDrafts.UndisturbedEdit` | libs/rlb-nestjs-amqp/src/modules/gateway-admin/services/gateway-path.service.ts:42-86 | left alone, read, check and write are the whole update, refused or not |
| `AclGrants.AclManagementService.AdminGrant` | libs/rlb-nestjs-amqp/src/modules/acl/services/acl-management.service.ts:129-147 | the grant write: refused exactly for want of a user, of roles or of a known role; otherwise the one record of the target gains the roles, each once, and the names given, or is new; the user is invalidated exactly when it was not refused, and so whenever the records changed |
| `AclGrants.AclManagementService.AdminRevoke` | libs/rlb-nestjs-amqp/src/modules/acl/services/acl-management.service.ts:154-165 | the revoke write: no grant exactly when none is recorded; otherwise the roles go from the record, or the record goes when none is left; the user is invalidated exactly when a record was there, and so whenever the records changed |
| `AclGrants.GrantEffect` | libs/rlb-nestjs-amqp/src/modules/acl/services/acl-management.service.ts:129-147 | the same of the grant function the runs use |
| `AclGrants.RevokeEffect` | libs/rlb-nestjs-amqp/src/modules/acl/services/acl-management.service.ts:154-165 | the same of the revoke function the runs use |
| `AclGrants.IsForExact` | libs/rlb-nestjs-amqp/src/modules/acl/auth-match.ts:10-21 | a grant is for a target if and only if the user and each id are the same, absent and empty being the same |
| `AclGrants.FindGrantIsLookup` | libs/rlb-nestjs-amqp/src/modules/acl/services/acl-management.service.ts:168-171 | findGrant finds the one record of the normalized triple, or there is none |
| `AclGrants.OpRefines` | libs/rlb-nestjs-amqp/src/modules/acl/services/acl-management.service.ts:129-165 | one grant is union, one revoke difference with deletion at empty, on a map from (user, company, resource) to role sets |
| `AclGrants.RunRefines` | libs/rlb-nestjs-amqp/src/modules/acl/services/acl-management.service.ts:129-165 | over every run of grants and revokes the records are exactly that map: at most one record per triple and never an empty one |
| `AclGrants.ResolveIsPermits` | libs/rlb-nestjs-amqp/src/modules/acl/services/acl.service.ts:96-107 | resolveAllowed is true if and only if the map gives the user, in the context, a role carrying a requested action |
| `AclKeys.SameKeyIff` | libs/rlb-nestjs-amqp/src/modules/acl/services/acl.service.ts:80-81 | two plain checks build the same cache key if and only if user, context and multiset of actions are the same |
| `AclKeys.SameKeySameDecision` | libs/rlb-nestjs-amqp/src/modules/acl/services/acl.service.ts:77-107 | checks with one key have one decision, whatever the roles and grants |
| `AclKeys.DecideIsPermits` | libs/rlb-nestjs-amqp/src/modules/acl/services/acl.service.ts:77-78 | the decision is the answer of the access table, and no for an empty user |
| `AclKeys.PrefixReachesUser` | libs/rlb-nestjs-amqp/src/modules/acl/cache/acl-cache.service.ts:122-125 | the invalidation prefix covers every key of the user and, for ids without a slash, no key of anybody else |
| `AclKeys.StarCompanyCollides` | libs/rlb-nestjs-amqp/src/modules/acl/services/acl.service.ts:80 | counterexample that fixes the hypothesis: a company named * shares its key with the absent company and the decisions differ |
| `AclCache.RamSetEffect` | libs/rlb-nestjs-amqp/src/modules/acl/cache/acl-cache.service.ts:50-61 | an insertion keeps keys distinct, respects a positive cap and always keeps the newest entry, last |
| `AclCache.RamSetEvictsOldest` | libs/rlb-nestjs-amqp/src/modules/acl/cache/acl-cache.service.ts:54-60 | only what the cap forces out goes, and it goes oldest first |
| `AclCache.LookupEffect` | libs/rlb-nestjs-amqp/src/modules/acl/cache/acl-cache.service.ts:66-68 | a read answers exactly from a live entry of its key and then changes nothing; otherwise whatever is left of the key goes |
| `AclCache.InvalidateEffect` | libs/rlb-nestjs-amqp/src/modules/acl/cache/acl-cache.service.ts:113-126 | an invalidation keeps exactly the entries outside the user prefix, and none for an empty user |
| `AclCache.AclCacheService.Insert` | libs/rlb-nestjs-amqp/src/modules/acl/cache/acl-cache.service.ts:50-61 | delete, append, evict from the front: the eviction loop is the trim |
| `AclCache.AclCacheService.GetLocal` | libs/rlb-nestjs-amqp/src/modules/acl/cache/acl-cache.service.ts:64-68 | a live entry answers, an expired one is removed |
| `AclCache.AclCacheService.Promote` | libs/rlb-nestjs-amqp/src/modules/acl/cache/acl-cache.service.ts:69-76 | a value from the shared store enters the cache without any generation check |
| `AclCache.AclCacheService.SetLocal` | libs/rlb-nestjs-amqp/src/modules/acl/cache/acl-cache.service.ts:84-89 | a set is accepted exactly when no generation was given or it has not moved |
| `AclCache.AclCacheService.InvalidateLocalRam` | libs/rlb-nestjs-amqp/src/modules/acl/cache/acl-cache.service.ts:113-126 | the generation moves by one and the user prefix is gone |
| `AclCache.AclCacheService.CheckAction` | libs/rlb-nestjs-amqp/src/modules/acl/services/acl.service.ts:77-93 | over a cache that agrees with the database the cached check returns the uncached decision and leaves a cache that agrees |
| `AclCoherence.NoStaleEntry` | libs/rlb-nestjs-amqp/src/modules/acl/cache/acl-cache.service.ts:84-126 | RAM only, roles fixed, any interleaving of checks, grant writes, clears, broadcasts lost or delivered, flushes and restarts: every entry was resolved from a version of the grants no older than the last mutation of that user the instance applied, and is the decision of that version |
| `AclCoherence.CaughtUpIsExact` | libs/rlb-nestjs-amqp/src/modules/acl/cache/acl-cache.service.ts:84-126 | once an instance has applied the latest mutation of a user, each of its cache hits for that user equals the decision of the database now |
| `AclSystem.StepKeeps` | libs/rlb-nestjs-amqp/src/modules/acl/cache/acl-cache.service.ts:84-126 | the invariant behind both, kept by every single step |
| `AclSystem.InvalidatedOk` | libs/rlb-nestjs-amqp/src/modules/acl/services/acl-invalidation.service.ts:69-76 | applying a broadcast makes the instance as fresh as the mutation it announces |
| `AclCoherence.GrantWritesOnlyUser` | libs/rlb-nestjs-amqp/src/modules/acl/services/acl-management.service.ts:129-165 | the writes of grant and revoke change grants of their user only, so they are writes of that system |
| `AclCoherence.UndisturbedCheckCached` | libs/rlb-nestjs-amqp/src/modules/acl/services/acl.service.ts:77-93 | a check that misses and is left alone caches the decision of the latest grants, and a later lookup is answered with it until the entry expires |
| `AclCoherence.OutdatedCheckNotCached` | libs/rlb-nestjs-amqp/src/modules/acl/cache/acl-cache.service.ts:84-88 | what a check resolved before its instance was flushed or told of a mutation is not cached there any more |
| `AclCoherence.MutationCatchesUp` | libs/rlb-nestjs-amqp/src/modules/acl/services/acl-invalidation.service.ts:69-76 | a mutation cleared where it was written and broadcast leaves every instance that applies it caught up with the user |
| `AclCoherence.StaysCaughtUp` | libs/rlb-nestjs-amqp/src/modules/acl/services/acl-invalidation.service.ts:69-76 | an instance that is caught up with a user stays so through any event, broadcasts out of order or lost included, until that user is written again |
| `AclCoherence.LossIsFinal` | libs/rlb-nestjs-amqp/src/modules/acl/services/acl-invalidation.service.ts:78-90 | a lost broadcast is never applied later, and a restarted instance answers nothing from memory |
| `AclStaleness.InMemoryAclStore.Get` | libs/rlb-nestjs-amqp/src/schematics/add-gateway/files/acl/src/cache/in-memory-acl-store.ts:19-27 | the shared store answers an entry until its expiry and removes it then |
| `AclStaleness.InMemoryAclStore.Set` | libs/rlb-nestjs-amqp/src/schematics/add-gateway/files/acl/src/cache/in-memory-acl-store.ts:29-31 | after a set the key answers the value at exactly the times before now plus ttlSeconds*1000; every other key answers as before at every time |
| `AclStaleness.SetThenGet` | libs/rlb-nestjs-amqp/src/schematics/add-gateway/files/acl/src/cache/in-memory-acl-store.ts:19-31 | the same of the store function the runs use |
| `AclStaleness.InMemoryAclStore.Del` | libs/rlb-nestjs-amqp/src/schematics/add-gateway/files/acl/src/cache/in-memory-acl-store.ts:33-35 | exactly the listed keys go |
| `AclStaleness.StalenessBound` | libs/rlb-nestjs-amqp/src/modules/acl/cache/acl-cache.service.ts:64-97 | with a shared store, in every run every cached answer repeats a decision accepted for its key less than l2TtlSec*1000 + ramTtlMs + two store calls before |
| `AclStaleness.BoundIsSharp` | libs/rlb-nestjs-amqp/src/modules/acl/cache/acl-cache.service.ts:64-97 | that bound is reached up to two milliseconds, for every configuration with positive times to live |
| `AclStaleness.CapHolds` | libs/rlb-nestjs-amqp/src/modules/acl/cache/acl-cache.service.ts:50-61 | in every run no in-process tier outgrows a positive cap |
| `AclTwoTier.StaleIff` | libs/rlb-nestjs-amqp/src/modules/acl/cache/acl-cache.service.ts:64-126 | with a shared store, in every state that meets the invariant and for every mutation: an answer from before it is still possible if and only if an older decision of the key is live in an instance or in the store, in an answered open store read, or, where entries live at all, in an outstanding store write or in a check whose own generation test would still pass |
| `AclTwoTier.StaleInRunsIff` | libs/rlb-nestjs-amqp/src/modules/acl/cache/acl-cache.service.ts:64-126 | so at every point of every run from a fresh deployment, of any number of instances |
| `AclTwoTier.DoWired` | libs/rlb-nestjs-amqp/src/modules/acl/cache/acl-cache.service.ts:64-126 | that invariant is kept by every move |
| `AclTwoTier.RunWired` | libs/rlb-nestjs-amqp/src/modules/acl/cache/acl-cache.service.ts:64-126 | and so holds after every run from a fresh deployment |
| `AclInvalidation.InvalidationFailsIff` | libs/rlb-nestjs-amqp/src/modules/acl/cache/acl-cache.service.ts:99-126 | with notifications of a user pending for some instances: an older decision can still be served after all of them were applied if and only if the shared side holds one now, or an instance with none pending does |
| `AclInvalidation.InvalidationInRunsFailsIff` | libs/rlb-nestjs-amqp/src/modules/acl/cache/acl-cache.service.ts:99-126 | so at every point of every run from a fresh deployment |
| `AclInvalidation.DeletionFailsIff` | libs/rlb-nestjs-amqp/src/modules/acl/cache/acl-cache.service.ts:99-110 | the moment the store deletion lands: an older decision can still be served after the pending notifications if and only if an open store read holds one, an instance not to be notified again holds one, or, where the store keeps anything at all, an older write is outstanding or an older check would still be accepted |
| `AclInvalidation.DeletionInRunsFailsIff` | libs/rlb-nestjs-amqp/src/modules/acl/cache/acl-cache.service.ts:99-110 | so at every point of every run from a fresh deployment |
| `AclStaleRuns.LatePromotion` | libs/rlb-nestjs-amqp/src/modules/acl/cache/acl-cache.service.ts:69-76 | a run from a cold start: a value read from the store before the deletion is promoted and answered after both instances were notified |
| `AclStaleRuns.LateWrite` | libs/rlb-nestjs-amqp/src/modules/acl/cache/acl-cache.service.ts:84-97 | a run from a cold start: a store write accepted before the mutation lands after both instances were notified, and is read back |
| `AclStaleRuns.LateCheck` | libs/rlb-nestjs-amqp/src/modules/acl/cache/acl-cache.service.ts:84-97 | a run from a cold start: a check at an instance not yet notified is accepted after the deletion and its store write outlives the notification |
| `AclStaleRuns.EarlyPromotion` | libs/rlb-nestjs-amqp/src/modules/acl/cache/acl-cache.service.ts:100-110 | a run from a cold start: the instance that writes the mutation reads the store again between clearing itself and emptying the store, and keeps the old decision |
| `RetryPolicy.CopiesKeepRequest` | libs/rlb-nestjs-amqp/src/amqp-lib/amqp/retry-policy.ts:127-138 | retry and dead-letter copies keep content, reply address, correlation id and request id and count one attempt more |
| `RetryPolicy.MaxAttemptsExact` | libs/rlb-nestjs-amqp/src/amqp-lib/amqp/retry-policy.ts:96 | five attempts by default, at least one whatever is configured |
| `RetryPolicy.DeadLettersIff` | libs/rlb-nestjs-amqp/src/amqp-lib/amqp/retry-policy.ts:176 | an exhausted message is dead-lettered if and only if an exchange with a name is configured and dropping was not asked for |
| `RetrySafety.NoMessageLost` | libs/rlb-nestjs-amqp/src/amqp-lib/amqp/retry-policy.ts:100-186 | under any pattern of refused, unconfirmed or confirmed publishes, acks and nacks that land, throw or vanish, and redeliveries: the youngest copy is on a queue, unacknowledged, dead-lettered, completed or rejected by the handler, or was dropped exhausted or undecodable with no usable dead-letter, or turned away by the rpc consumer under a key its pattern does not accept |
| `RetrySafety.BoundedExecutions` | libs/rlb-nestjs-amqp/src/amqp-lib/amqp/retry-policy.ts:96-151 | handler executions are at most the allowance of the entering message times one plus the number of put-back deliveries |
| `RetrySafety.BoundedAttempts` | libs/rlb-nestjs-amqp/src/amqp-lib/amqp/retry-policy.ts:96-151 | without an entering header: every copy on its way counts 0 to maxAttempts-1 attempts, and executions are at most maxAttempts*(1+F) |
| `RetrySafety.StepSound` | libs/rlb-nestjs-amqp/src/amqp-lib/amqp/retry-policy.ts:100-186 | the invariant and the potential behind the three, for every single step |
| `RetryExact.AlwaysFailing` | libs/rlb-nestjs-amqp/src/amqp-lib/amqp/retry-policy.ts:100-186 | no fault and a handler that always throws: at rest exactly the allowed executions, one exhaustion, one dead-letter copy or one drop, every other copy settled, and one reply, of failure, if it can be addressed |
| `RetryExact.FailingByPolicy` | libs/rlb-nestjs-amqp/src/amqp-lib/amqp/retry-policy.ts:96-98 | the same in the words of the configuration |
| `RetryExact.FaultlessRunsEnd` | libs/rlb-nestjs-amqp/src/amqp-lib/amqp/retry-policy.ts:100-186 | such a run has at most 6*(allowance+1) steps |
| `RetryExact.FaultlessProgress` | libs/rlb-nestjs-amqp/src/amqp-lib/amqp/retry-policy.ts:100-186 | and can always take one more until it is at rest, unless its copy comes under a key the rpc consumer turns away, which it never does when the pattern takes the published key and the queue name |
| `RetryOutcomes.AlwaysSucceeding` | libs/rlb-nestjs-amqp/src/amqp-lib/amqp/connection.ts:292-310 | no fault and a handler that returns: at rest the one copy is completed after one execution, nothing was exhausted or put back, and there is one reply, of success, if and only if the consumer is an rpc consumer and the message has a reply address |
| `RetryOutcomes.SuccessReached` | libs/rlb-nestjs-amqp/src/amqp-lib/amqp/connection.ts:292-310 | and such a run does come to that rest |
| `RetryOutcomes.ReturnCompletes` | libs/rlb-nestjs-amqp/src/amqp-lib/amqp/connection.ts:292-310 | one delivery whose handler returns: acknowledged, and answered if an answer is owed |
| `RetryOutcomes.NackObeyed` | libs/rlb-nestjs-amqp/src/amqp-lib/amqp/connection.ts:295-298 | one delivery whose handler asks for a nack: rejected for good or put back, as asked, and nothing else |
| `RetryOutcomes.WrongKeyTurnedAway` | libs/rlb-nestjs-amqp/src/amqp-lib/amqp/connection.ts:281-290 | one delivery under a key an rpc consumer does not take: rejected for good, unprocessed |
| `RetryOutcomes.ThrowRetries` | libs/rlb-nestjs-amqp/src/amqp-lib/amqp/retry-policy.ts:105-151 | one delivery whose handler throws with attempts left: one successor with the same content under the queue name and one attempt more, waiting without expiration if there is a delay, queued as it was if not |
| `RetryOutcomes.GivesUp` | libs/rlb-nestjs-amqp/src/amqp-lib/amqp/retry-policy.ts:110-186 | one delivery undecodable, or failed at the last attempt: the caller is told once if it can be, and the message is dead-lettered with reason and origin queue, or dropped |
| `RetryReplies.RepliesFindTheirRequest` | libs/rlb-nestjs-amqp/src/amqp-lib/amqp/connection.ts:190-237 | every reply a message provokes over any run goes to the requester, is accepted by the request that issued it and by no pending request with another correlation id or another request id |
| `RetryReplies.CopiesKeepCorrelation` | libs/rlb-nestjs-amqp/src/amqp-lib/amqp/retry-policy.ts:127-138 | every copy, wherever it is, keeps reply address, correlation id and request id of the original |
| `RetryReplies.DeadLetterKey` | libs/rlb-nestjs-amqp/src/amqp-lib/amqp/retry-policy.ts:177 | without a configured key the dead-letter copy has the original routing key when the first attempt exhausted the message, and the queue name after any retry |
| `RetryReplies.DeliveriesPassTheCheck` | libs/rlb-nestjs-amqp/src/amqp-lib/amqp/connection.ts:281-290 | if the consumer pattern accepts the original routing key and the queue name, it accepts every copy ever waiting for it; retry copies come back under the queue name |
| `RetryReplies.NeverTurnsAwayIff` | libs/rlb-nestjs-amqp/src/amqp-lib/amqp/connection.ts:281-290 | no run turns a copy away for its routing key, if and only if the consumer is no rpc consumer, or its pattern accepts the published key and, when a retry is possible at all, the name of the queue |
| `RetryConsumer.Channel.OnError` | libs/rlb-nestjs-amqp/src/amqp-lib/amqp/retry-policy.ts:100-124 | the error handler run call by call is a run of the life cycle |
| `RetryConsumer.Channel.HandOverMessage` | libs/rlb-nestjs-amqp/src/amqp-lib/amqp/retry-policy.ts:102-111 | retry, or reply and exhaust |
| `RetryConsumer.Channel.PublishCopyOf` | libs/rlb-nestjs-amqp/src/amqp-lib/amqp/retry-policy.ts:140-151 | a publish whose promise rejects may still have landed |
| `RetryConsumer.Channel.OnMessage` | libs/rlb-nestjs-amqp/src/amqp-lib/amqp/connection.ts:275-323 | the consumer callback run call by call is a run of the life cycle |
| `RetryConsumer.Channel.Handle` | libs/rlb-nestjs-amqp/src/amqp-lib/amqp/connection.ts:281-310 | routing-key check, decode, handler, reply and acknowledgement, with every throw leading to the error handler |
| `RoutingKeys.MatchesRoutingKey` | libs/rlb-nestjs-amqp/src/amqp-lib/amqp/utils.ts:4-29 | the outer loop: no match for an undefined pattern, and otherwise one exactly when the pattern, or one of them, equals the key or fits it |
| `RoutingKeys.MatchWords` | libs/rlb-nestjs-amqp/src/amqp-lib/amqp/utils.ts:13-25 | the inner loop: words up to the first # fit, and without one the lengths agree |
| `RoutingKeys.NeverRejectsATopicMatch` | libs/rlb-nestjs-amqp/src/amqp-lib/amqp/utils.ts:4-29 | whatever the AMQP topic rules accept (AMQP 0-9-1, section 3.1.3.3) is accepted |
| `RoutingKeys.AgreesWithoutHash` | libs/rlb-nestjs-amqp/src/amqp-lib/amqp/utils.ts:12-25 | for patterns without # the two agree if and only if it is not the empty key under * |
| `RoutingKeys.AgreesOnTrailingHash` | libs/rlb-nestjs-amqp/src/amqp-lib/amqp/utils.ts:12-25 | for a pattern whose only # ends it they agree if and only if the key does not have too few words that fit as far as they go |
| `RoutingKeys.ReadsUpToFirstHash` | libs/rlb-nestjs-amqp/src/amqp-lib/amqp/utils.ts:12-25 | for every key and every pattern with a #: the code accepts if and only if they are equal or the topic rules accept the key for the pattern cut at its first #, with every word the key lacks before it counted as one that only a * matches |
| `RoutingKeys.AcceptsMoreThanTopic` | libs/rlb-nestjs-amqp/src/amqp-lib/amqp/utils.ts:17 | a key the rules reject and the code accepts |
| `PathOrder.ComparePaths` | libs/rlb-nestjs-amqp/src/modules/gateway-admin/util/path-order.ts:23-36 | the comparison loop |
| `PathOrder.CompareIsKeyOrder` | libs/rlb-nestjs-amqp/src/modules/gateway-admin/util/path-order.ts:23-36 | its sign is the dictionary order on (kind, static text), and it is zero if and only if all segment keys are equal |
| `PathOrder.MoreSpecificFirst` | libs/rlb-nestjs-amqp/src/modules/gateway-admin/util/path-order.ts:7-11 | where two patterns agree so far, a literal segment sorts before any other and a named one before a starred one |
| `PathOrder.LiteralsByText` | libs/rlb-nestjs-amqp/src/modules/gateway-admin/util/path-order.ts:33 | two literal segments go by the first character they differ in, a prefix first |
| `PathOrder.SegmentsOfHalves` | libs/rlb-nestjs-amqp/src/modules/gateway-admin/util/path-order.ts:13-15 | the segments of a path in two halves are those of the halves |
| `PathOrder.SegmentAlone` | libs/rlb-nestjs-amqp/src/modules/gateway-admin/util/path-order.ts:13-15 | a half without slash is one segment, or none if empty |
| `PathOrder.ComparePathsOrders` | libs/rlb-nestjs-amqp/src/modules/gateway-admin/util/path-order.ts:23-36 | it is a total preorder with exactly those ties |
| `PathOrder.OrderPathsSorts` | libs/rlb-nestjs-amqp/src/modules/gateway-admin/util/path-order.ts:39-41 | the ordered list is sorted, a permutation, stable, and the only such list |
| `PathOrder.StaticFirst` | libs/rlb-nestjs-amqp/src/modules/gateway-admin/util/path-order.ts:23-36 | of two patterns matching one request, an all-static one sorts strictly before one that is not |
| `PathOrder.StaticRegisteredFirst` | libs/rlb-nestjs-amqp/src/modules/gateway-admin/util/path-order.ts:39-41 | and so stands before it in the registered list |
| `PathOrder.FirstDifferenceDecides` | libs/rlb-nestjs-amqp/src/modules/gateway-admin/util/path-order.ts:30-33 | equal-length patterns matching one request: the first is the more specific at the first position where kinds differ, with no wildcard before |
| `Metrics.StartOfExact` | libs/rlb-nestjs-amqp/src/modules/gateway-admin/util/metrics.ts:30 | the bucket of a timestamp is the one multiple of the width it falls behind by less than a width, negative timestamps included |
| `Metrics.TallyCounts` | libs/rlb-nestjs-amqp/src/modules/gateway-admin/util/metrics.ts:33-40 | counts, errors (exactly the 4xx and 5xx answers), classes and total of a group of points |
| `Metrics.ClassExact` | libs/rlb-nestjs-amqp/src/modules/gateway-admin/util/metrics.ts:3-11 | the status classes are the hundreds from 200 on, everything from 500 on in the last |
| `Metrics.TallyRange` | libs/rlb-nestjs-amqp/src/modules/gateway-admin/util/metrics.ts:37-38 | the extremes are recorded durations that bound all of them |
| `Metrics.PercentileIsNearestRank` | libs/rlb-nestjs-amqp/src/modules/gateway-admin/util/metrics.ts:14-19 | over a sorted list: a recorded value with at least p percent at or below it, and no smaller recorded value has that |
| `Metrics.PercentilesGrow` | libs/rlb-nestjs-amqp/src/modules/gateway-admin/util/metrics.ts:14-19 | percentiles grow with p and stay between first and last |
| `MetricSeries.GroupPoints` | libs/rlb-nestjs-amqp/src/modules/gateway-admin/util/metrics.ts:28-41 | the grouping loop: one entry per start that has points, made of exactly its points |
| `MetricSeries.BuildSeries` | libs/rlb-nestjs-amqp/src/modules/gateway-admin/util/metrics.ts:26-58 | one bucket per start some point has, in strictly increasing order, each over exactly its points |
| `MetricSeries.SeriesConserves` | libs/rlb-nestjs-amqp/src/modules/gateway-admin/util/metrics.ts:26-58 | the counts of a series add up to the number of points |
| `MetricSeries.BucketExact` | libs/rlb-nestjs-amqp/src/modules/gateway-admin/util/metrics.ts:42-57 | every bucket: start a multiple of the width, errors = 4xx + 5xx, min <= p50 <= p95 <= p99 <= max, each percentile the nearest-rank one of its points |
| `MetricSeries.AverageExact` | libs/rlb-nestjs-amqp/src/modules/gateway-admin/util/metrics.ts:49 | the average of a bucket is the whole number nearest the mean duration of its points, halves up |
| `Rollups.KeyTextUnique` | libs/rlb-nestjs-amqp/src/modules/gateway-admin/util/metrics.ts:116 | for methods without a bar the key text tells (bucket, method, route) apart |
| `Rollups.BarMixesMethods` | libs/rlb-nestjs-amqp/src/modules/gateway-admin/util/metrics.ts:116 | with a bar in the method two different triples share one key |
| `Rollups.AggregateRollups` | libs/rlb-nestjs-amqp/src/modules/gateway-admin/util/metrics.ts:111-129 | one record per key in order of first occurrence, labelled by its first point, tallied over exactly its points |
| `Rollups.OneRollupPerTriple` | libs/rlb-nestjs-amqp/src/modules/gateway-admin/util/metrics.ts:111-129 | for methods without a bar: a record for a triple if and only if it has points, over exactly those |
| `Rollups.LabelsDistinct` | libs/rlb-nestjs-amqp/src/modules/gateway-admin/util/metrics.ts:116-118 | no two records carry one label, whatever the methods |
| `Rollups.NamedByFirst` | libs/rlb-nestjs-amqp/src/modules/gateway-admin/util/metrics.ts:117-119 | each record carries label and name of the first point under its key |
| `Rollups.RollupsAdd` | libs/rlb-nestjs-amqp/src/modules/gateway-admin/util/metrics.ts:111-129 | of the records for a, b and a + b: under every key the record of the whole is the merge of the records of the parts, label and name from the first, and there is none exactly when neither part has one |
| `RollupStore.GatewayMetricsRollupService.RecordRollups` | libs/rlb-nestjs-amqp/src/schematics/add-gateway/files/gateway-admin/src/modules/database/repository/gateway.repository.ts:147-153 | remove by slot, insert, record after record |
| `RollupStore.GatewayMetricsRollupService.RollupHour` | libs/rlb-nestjs-amqp/src/modules/gateway-admin/services/gateway-metrics-rollup.service.ts:106-112 | query the hour, aggregate, record; nothing for an hour without points |
| `RollupStore.GatewayMetricsRollupService.RunCatchup` | libs/rlb-nestjs-amqp/src/modules/gateway-admin/services/gateway-metrics-rollup.service.ts:85-98 | the catch-up rolls up the last completed hours if it got the lock, and nothing otherwise |
| `RollupStore.HoursPartition` | libs/rlb-nestjs-amqp/src/modules/gateway-admin/services/gateway-metrics-rollup.service.ts:108 | a timestamp lies in the window of an hour if and only if the hour is its own bucket start |
| `RollupStore.CatchupHoursExact` | libs/rlb-nestjs-amqp/src/modules/gateway-admin/services/gateway-metrics-rollup.service.ts:91-104 | the catch-up runs exactly the last n hours that have ended |
| `RollupStore.CatchupHoursInOrder` | libs/rlb-nestjs-amqp/src/modules/gateway-admin/services/gateway-metrics-rollup.service.ts:91-94 | latest first, one hour apart |
| `RollupStore.RecordEffect` | libs/rlb-nestjs-amqp/src/schematics/add-gateway/files/db-core/src/modules/database/repository/in-memory-collection.ts:76-80 | recording leaves exactly one row, the recorded one, under each of its slots and all other rows as they were |
| `RollupStore.HoursSettle` | libs/rlb-nestjs-amqp/src/modules/gateway-admin/services/gateway-metrics-rollup.service.ts:91-94 | after any sequence of hours the store depends only on which hours: their records under their slots, all else untouched |
| `RollupStore.SchedulesAgree` | libs/rlb-nestjs-amqp/src/modules/gateway-admin/services/gateway-metrics-rollup.service.ts:105-112 | two schedules over the same hours leave the same store up to row ids, so repeating an hour changes nothing |
| `Reload.NoOverlap` | libs/rlb-nestjs-amqp/src/modules/proxy/services/http-handler.service.ts:157-170 | passes never overlap and never outnumber the signals, even if passes throw |
| `Reload.ServedAtRestIff` | libs/rlb-nestjs-amqp/src/modules/proxy/services/http-handler.service.ts:157-170 | at rest every signal was followed by a pass that started no earlier if and only if the pending flag is down |
| `Reload.NoLostSignal` | libs/rlb-nestjs-amqp/src/modules/proxy/services/http-handler.service.ts:157-170 | if no pass throws, at rest every signal was so followed |
| `Reload.EverySignalIsServed` | libs/rlb-nestjs-amqp/src/modules/proxy/services/http-handler.service.ts:157-170 | and rest is at most one further pass away |
| `Reload.LostSignalIff` | libs/rlb-nestjs-amqp/src/modules/proxy/services/http-handler.service.ts:157-170 | at rest some signal was never followed by a pass if and only if a pass threw while a signal was pending and no signal has come since |
| `Reload.ThrowLosesPendingSignal` | libs/rlb-nestjs-amqp/src/modules/proxy/services/http-handler.service.ts:163-168 | the shortest such run |
| `Reload.HttpHandlerService.Reload` | libs/rlb-nestjs-amqp/src/modules/proxy/services/http-handler.service.ts:158-161 | the call up to its first await |
| `Reload.HttpHandlerService.Resume` | libs/rlb-nestjs-amqp/src/modules/proxy/services/http-handler.service.ts:162-168 | the loop test after a pass, and the flag cleared at the end |
| `Ordering.SortStable` | libs/rlb-nestjs-amqp/src/modules/gateway-admin/util/path-order.ts:41 | the sort keeps the given order of tied elements |
| `Ordering.StableUnique` | libs/rlb-nestjs-amqp/src/modules/gateway-admin/util/path-order.ts:41 | a sorted arrangement with that property is unique, so the insertion sort of the model is any stable sort |

## Left out

- Journal entries, log lines and the reload broadcast after a sync or an edit: side outputs that never reach the store.
- A manifest route that carries persistence fields such as `_id`, and a route whose method or path is not a string.
- Case mapping outside ASCII in the route key; lone surrogates in JSON strings; numbers are their decimal text.
- The added and removed values inside a field change: only which fields changed matters to the sync.
- RouteLocks.LockIsForever: whole syncs and whole edits only; under interleaving it holds exactly when
  `RouteDrafts.MarkSurvivesDraftsIff` says.
- RouteLocks.OverridePersists: likewise.
- AclCoherence.NoStaleEntry: not with a shared store, where it is false; `AclInvalidation.DeletionFailsIff` says when it fails there.
- The roles memo and its lifetime, role and action mutations beyond a full flush, the authorization of the caller of a grant, and the
  check deadline except as an abandoned check.
- The glob match of the shared store's `keys`: deletion there may hit any set of keys at any time.
- RetrySafety.NoMessageLost: a wait queue that expires under its copy and a per-message expiration, which discard the message by
  configuration, are excluded by hypothesis.
- A retry header that is text instead of a number.
- Request timeouts, the reply pump's deserialization, and legacy error behaviours.
- MetricSeries.BuildSeries: durations are exact reals and ranks exact, so floating-point rounding of `(p / 100) * n` is not modelled.
- `buildSummary`, counters, Prometheus text, search, pagination and retention: easy members over the same parts.
- Exponent notation of numbers beyond 21 digits in rollup keys.
- Filters of the point query other than the time window; the scheduler lock is a parameter.
- What a reload pass builds: route registration on the router.
- Mongo, Influx and Redis drivers, broker set-up, JWT checks, HTTP forwarding, the WebSocket gateway, modules and schematics other than
  the three in-memory stores.
