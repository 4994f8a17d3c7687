# Verified model of Mission Control's in-process logic

This project models the parts of Mission Control (the `incident-commander` repository) whose behaviour depends on
state, interleaving or recursion, and proves what they promise. `dafny verify dfyconfig.toml` checks everything.

Functions that update state are methods and classes here, proved against functions and state machines on values. The
statements worth reading are about those: they hold for all inputs, all runs and all interleavings unless they say
otherwise.

| file | models |
|---|---|
| `notification_grouping.dfy` | concurrent callers that find or create a notification group under a mutex per hash |
| `scope_algebra.dfy` | intersection of row-level-security scopes and payloads (impersonation) |
| `rls_payload.dfy` | building a payload from permission rows, scope references and selectors |
| `rls_cache.dfy` | cached payloads and JWTs against an event loop that reloads the policy and then flushes |
| `access_tokens.dfy` | access tokens: rows, cached copies, the blacklist of deleted ids, and the clock |
| `token_permissions.dfy` | permissions delegated to tokens, tokens of tokens included, and what deletion does |
| `forests.dfy`, `config_forest.dfy`, `materialised_paths.dfy`, `config_forest_builder.dfy` | the catalog report preview: parent choice, linked nodes, sorting in place, flattening |
| `relationship_tree.dfy` | the tree of related configs |
| `backup_dedup.dfy` | pairing started and completed backups |
| `artifact_sync.dfy` | draining artifacts in batches |
| `bearer_tokens.dfy` | extracting and selecting bearer tokens from browser storage |
| `clean_json.dfy` | removing empty fields from nested objects |
| `include_exclude.dfy` | comma-separated include and exclude lists |
| `base.dfy`, `text.dfy` | options, duplicate-free lists, string order, splitting, stable sorting |

## What a reader should know

**Shape of the models.** A run is a sequence of steps that may interleave in any way; invariants are proved for every
step and then for every run. A method that works in place has a contract that gives the whole new state as a function
of the old one. Go iterates over maps in no particular order, so loops over maps take any remaining key.

**Parameters.** UUID parsing, JSON and JWT decoding, token hashing, the enforcer's matcher, database contents and every
failure of a foreign call are parameters; statements hold for all of them. How the database compares scope names is a
parameter too: soundness (of scopes, lists, payloads and chains of headers) and payload building hold for every
comparison, and `ScopeAlgebra.ExactForEveryComparisonIff` says when an intersection is exact for every comparison.
`Matches`, `Permits` and `Grants` without a comparison mean the literal one, under which intersection is always exact.
`Fingerprint()` is taken to be injective, and a header is represented by the payload it carries. The three kinds of keys
in `tokenCache` are separate maps, which is what their prefixes and lengths achieve.

**Clocks.** `getAccessToken` reads the clock several times. The model has two reads, one for the check and the renewal
and a later one for the lifetime of the cached copy, because what happens between them matters.

**What the code does not promise.** Each of these is a lemma, with the exact condition where there is one:

* Configs on or below a cycle of chosen parents disappear from the preview and from the relationship tree
  (`ConfigForest.PreviewIsPermutationIffAcyclic`, `RelationshipTree.WalkMeetsAllIffAcyclic`). A path that repeats the
  config's own id is enough (`RelationshipTree.SelfParentIsLost`). Well-formed materialised paths never form a cycle.
* Intersecting two scopes loses resources under some comparison of names exactly when the scopes are compatible and each
  lists a name that the other does not (`ScopeAlgebra.ExactForEveryComparisonIff`; a wildcard is one such comparison).
* An impersonation header is exact against every real payload precisely when it is not disabled
  (`ScopeAlgebra.HeaderExactIffEnabled`). The flag of a disabled header is ignored for restricted users, who get what
  its lists permit of their own access (`ScopeAlgebra.DisabledHeaderCountsItsLists`), so nothing if it has none.
* A JWT cached while impersonating is served to the whole session, whatever header later requests carry. It means the
  same as the user's own payload exactly when its header takes nothing away (`RlsCache.HeaderSticksToSession`).
* A request that stores a payload or a JWT after a flush leaves the cache current exactly when what changed since the
  payload was computed makes no difference to it (`RlsCache.LateStoreCoherentIff`, `RlsCache.LateJwtCoherentIff`).
* Reloads can fail, and notification and playbook updates reload without a flush. A cached payload of a quiet system is
  current exactly when the policy it was computed with and the database's give the same payload
  (`RlsCache.CachedPayloadCurrentIff`). That need not be the policy in memory: after a failed reload, a read and a later
  reload without a flush, the policy is current and the payload is not, and a user who has become a guest without
  permissions keeps full access (`RlsCache.LateReloadLeavesOldPayload`, `RlsCache.LateReloadKeepsFullAccess`).
* A deleted access token comes back after the blacklist entry ends exactly when a cached copy lives longer
  (`AccessTokens.DeletedComesBackIff`). A copy never expires when the token expires between the check and the
  computation of the lifetime (`AccessTokens.LateCopyIsReturnedForever`).
* When removing a deleted token's roles fails and removing its deny rules succeeds, the token's person, and each token
  made from it, gets exactly what the creator may do, the scope withheld, and no other token in between withholds
  (`TokenPermissions.GainsExactly`; `TokenPermissions.FailedRoleRemovalEscalates` is an instance).
* The extracted bearer tokens do not depend on iteration order exactly when, for each audience, all entries with the
  most scopes carry the same secret (`BearerTokens.ExtractionUniqueIff`). Otherwise a required scope may be met or not
  depending on that order (`BearerTokens.TiesDependOnOrder`).

## Model

| member | source | states |
|---|---|---|
| NotificationGrouping.NewestCorrect | db/notifications.go:374-378 | the lookup finds the youngest group of the hash inside the interval, and finds none only if there is none |
| NotificationGrouping.MutualExclusion | db/notifications.go:363-366 | two calls of one hash are never both between lock and unlock |
| NotificationGrouping.StepKeepsInv | db/notifications.go:358-404 | each step of each call keeps mutex ownership, what every call knows about its group, and the spacing of groups |
| NotificationGrouping.RunKeepsInv | db/notifications.go:358-404 | the invariant holds after every interleaving of any number of calls |
| NotificationGrouping.GroupsAreSpaced | db/notifications.go:374-392 | two committed groups of one hash were created at least the later creator's interval apart |
| NotificationGrouping.SuccessLinks | db/notifications.go:368-403 | a successful call linked its resource to a committed group of its own hash, which is younger than the interval or which this very call inserted for its own notification, no earlier than its own clock |
| NotificationGrouping.OneLockEach | db/notifications.go:364-366 | no call ever holds two locks |
| NotificationGrouping.NoDeadlock | db/notifications.go:358-404 | while some call is unfinished, it or the holder of the lock it waits for can take a step |
| NotificationGrouping.BoundedSteps | db/notifications.go:358-404 | a call takes at most eight steps, whatever the others do |
| NotificationGrouping.LinksNameOneGroup | db/notifications.go:383-399 | committed groups have different non-nil ids, so a link names one group |
| NotificationGrouping.RunsAreAtomic | db/notifications.go:369-401 | every committed group has a link and every link a committed group |
| NotificationGrouping.FailedCallsLeaveNothing | db/notifications.go:383-401 | the row that a failed call inserted is in no committed group and in no link |
| GroupStore.Store.GetOrCreateGroupLock | db/notifications.go:351-354 | every caller with one hash gets the same mutex, and no two hashes ever share one |
| GroupStore.Store.Transact | db/notifications.go:368-401 | without a fault on its way the transaction links the youngest recent group, or creates and links one exactly when no recent one exists; otherwise it changes no group and no link |
| GroupStore.Store.AddResourceToGroup | db/notifications.go:358-404 | the whole new state of one call made without contention: nothing for an empty hash, otherwise the outcome, the group and the link in terms of the committed groups and the faults |
| GroupStore.DecisionAnswers | db/notifications.go:368-401 | failure, reuse and creation each under its exact condition, the reused group the youngest recent one, the created group with the notification and hash of the call |
| GroupStore.AloneIsRun | db/notifications.go:358-404 | such a call is a run of the machine, so all statements about runs apply to it |
| ScopeAlgebra.IntersectScopeExact | auth/impersonation.go:24-83 | the result matches exactly what both scopes match, and a rejected pair shares no resource |
| ScopeAlgebra.IntersectScopeSound | auth/impersonation.go:24-83 | for every comparison of names the result matches no more than both scopes |
| ScopeAlgebra.IntersectScopeExactWhenNamesNest | auth/impersonation.go:68-79 | for every comparison of names the result is exact when the scopes clash, one lists no names, or one list of names contains the other |
| ScopeAlgebra.ExactForEveryComparisonIff | auth/impersonation.go:24-83 | exactly under that condition the result is exact for every comparison and every resource |
| ScopeAlgebra.WildcardNamesAreLost | auth/impersonation.go:68-79 | an instance of the failing half: a wildcard and a name are rejected although both match a resource |
| ScopeAlgebra.MergeTags | auth/impersonation.go:40-53 | merging tags in any key order gives the union, and fails exactly on a contradiction |
| ScopeAlgebra.IntersectScopes | auth/impersonation.go:24-83 | the loop form agrees with the intersection the lemmas are about |
| ScopeAlgebra.IntersectListSound | auth/impersonation.go:88-102 | for every comparison of names the product of two lists matches no more than both lists |
| ScopeAlgebra.IntersectListExactBy | auth/impersonation.go:88-102 | for every comparison under which each pair is exact, the product matches exactly what both lists match |
| ScopeAlgebra.IntersectListExact | auth/impersonation.go:88-102 | the product of two lists matches a resource exactly when both lists do |
| ScopeAlgebra.IntersectLists | auth/impersonation.go:88-102 | the nested loop computes that product in order |
| ScopeAlgebra.SplitScopeList | auth/impersonation.go:104-113 | allow and deny scopes are separated, each in order |
| ScopeAlgebra.IntersectPermissionedSound | auth/impersonation.go:115-123 | for every comparison of names the result permits no more than both lists permit, deny scopes included |
| ScopeAlgebra.IntersectPermissionedExactBy | auth/impersonation.go:115-123 | for every comparison under which each pair of allow scopes is exact, the result permits exactly what both lists permit |
| ScopeAlgebra.IntersectPermissionedExact | auth/impersonation.go:115-123 | the result permits exactly what both lists permit, deny scopes included |
| ScopeAlgebra.IntersectPermissionedScopeList | auth/impersonation.go:115-123 | the loop form computes that list, exact for literal names and sound for every comparison |
| ScopeAlgebra.IntersectPayloadExact | auth/impersonation.go:127-137 | for every kind and for row-level scope ids the intersected payload grants exactly what both grant |
| ScopeAlgebra.ImpersonationNeverWidens | auth/impersonation.go:143-153 | whatever the header says and however names are compared, the result grants no more than the real payload, nor than the header's |
| ScopeAlgebra.ImpersonationExact | auth/impersonation.go:143-153 | the result is exactly the common part, unless the real payload is restricted and the header disabled |
| ScopeAlgebra.HeaderExactIffEnabled | auth/impersonation.go:143-153 | a header gives exactly the common part against every real payload precisely when it is not disabled |
| ScopeAlgebra.DisabledHeaderCountsItsLists | auth/impersonation.go:127-153 | for a restricted user a disabled header grants what its lists permit of the user's own access |
| ScopeAlgebra.HeaderChangesNothingIff | auth/impersonation.go:139-153 | a header leaves access unchanged exactly when it is disabled, for an unrestricted user, or its lists cover the user's, for a restricted one |
| ScopeAlgebra.DisabledHeaderGrantsNothing | auth/impersonation.go:127-153 | the instance without lists: a restricted user is left with nothing |
| ScopeAlgebra.ChainNeverWidens | auth/impersonation.go:127-153 | for every comparison of names no chain of headers, disabled ones included, widens access |
| ScopeAlgebra.ChainExact | auth/impersonation.go:127-153 | folding any chain of enabled headers grants exactly what all of them and the real payload grant, for unrestricted users too |
| ScopeAlgebra.ChainOrder | auth/impersonation.go:127-153 | the order of such a chain does not matter |
| RlsPayload.BuildExact | auth/rls.go:116-208 | for every comparison of names, a resource is permitted exactly when an allowing row reaches it and no denying row does; `Scopes` holds exactly the scope ids found by allowing rows; building fails exactly when a scope query fails |
| RlsPayload.BuildIgnoresOrder | auth/rls.go:116-289 | neither failure nor the meaning of the payload depends on the order of rows, of what is listed inside rows, or of the targets of scopes |
| RlsPayload.AddRefsGrows | auth/rls.go:236-289 | scope references add what their found scopes target, with the row's sign, and fail exactly on a broken query |
| RlsPayload.AddTargetGrows | auth/rls.go:261-285 | a target adds its own kinds, and a global target adds all five |
| RlsPayload.ConvertSelectorMeans | auth/rls.go:291-327 | a converted selector matches what the selector describes |
| RlsPayload.ConvertViewMeans | auth/rls.go:331-346 | a converted view reference matches the named view |
| RlsPayloadBuilder.PayloadObject.AddScopeTarget | auth/rls.go:261-285 | the in-place appends give the payload of the value-level step |
| RlsPayloadBuilder.PayloadObject.ProcessScopeRefs | auth/rls.go:236-289 | the loop stops exactly at a broken query and otherwise appends every found target and id |
| RlsPayloadBuilder.PayloadObject.AddPermissionRow | auth/rls.go:140-204 | one permission row, filled in place |
| RlsPayloadBuilder.BuildRlsPayloadFromScopes | auth/rls.go:116-208 | the loop over rows yields the payload that `BuildExact` describes, or an error |
| RlsCache.SelectedConcern | auth/rls.go:123-135 | the permissions read for a user are those of undeleted read rows whose subject is the user or one of the user's roles |
| RlsCache.UnimpersonatedIsDeserved | auth/rls.go:54-75 | without a header a guest is granted a resource exactly when such a row allows and reaches it, through existing scopes too, and none denies and reaches it, and scope rows exactly when an allowing row names an existing scope; anybody else is granted everything |
| RlsCache.RecomputedIsDeserved | auth/rls.go:54-86 | with a header the payload is what the header leaves of that |
| RlsCache.QuietReadIsDeserved | auth/rls.go:33-87 | whatever run led to a quiet system with successful reloads and prompt stores, a read, cached or not, answers what the tables of that moment give the user |
| RlsCache.RunKeepsSourced | auth/rls.go:50-86 | in every run every cached payload and JWT is what its recorded database and policy give |
| RlsCache.RunKeepsGrounded | auth/rls.go:50-86 | when requests, split or atomic, store before the next flush, a quiet system has cached only what was computed from the current database, and from the policy in memory if no reload without a flush changed that policy meanwhile |
| RlsCache.CachedPayloadCurrentIff | cmd/server.go:328-447 | whichever reloads failed or came without a flush, a quiet cached payload is current exactly when the policy it was computed with gives the same payload as the database's |
| RlsCache.CachedJwtCurrentIff | cmd/server.go:328-447 | the same of a cached JWT and the header it was made with |
| RlsCache.RunKeepsInv | cmd/server.go:411-447 | when reloads succeed too, a quiet system has current caches |
| RlsCache.CachedPayloadsAgree | auth/rls.go:33-87 | with no event pending and the loop idle, every cached payload, impersonated or not, equals its recomputation |
| RlsCache.CacheIsTransparent | auth/rls.go:50-52 | so a cached read answers like an uncached one |
| RlsCache.CachedJwtsAgree | auth/tokens.go:63-101 | without impersonation the payload in every cached JWT is current too |
| RlsCache.HeaderSticksToSession | auth/tokens.go:65-69 | in every such quiet state a cached JWT is served whatever header a later request carries, and means the user's own payload exactly when its header takes nothing away |
| RlsCache.HeaderOpensSession | auth/tokens.go:63-101 | any header gets into a session that starts with it |
| RlsCache.LateStoreCoherentIff | auth/rls.go:71-86 | a read that stores late keeps the cache current exactly when what changed since it was computed makes no difference to its payload |
| RlsCache.LateJwtCoherentIff | auth/tokens.go:84-99 | the same of a token that is signed and stored after its payload was read |
| RlsCache.RacyReadLeavesOldPayload | auth/rls.go:71-86 | a run with such a store: quiet again, the old payload cached, and the cache current exactly when the change did not matter |
| RlsCache.FailedReloadUsesOldPolicy | cmd/server.go:411-423 | a run with a failed reload: the cache refilled from the old policy, current exactly when the policies agree on the payload |
| RlsCache.LateReloadLeavesOldPayload | cmd/server.go:328-354 | that run followed by a successful reload without a flush: the policy in memory is current, the payload still the old one |
| RlsCache.LateReloadKeepsFullAccess | cmd/server.go:328-354 | for a user whom the change makes a guest without permissions, full access stays cached where nothing is due |
| RlsCacheStore.Server.GetRLSPayload | auth/rls.go:33-87 | the memoised read in place: disabled feature, hit, error and miss, with the new cache; after a miss the payload is what tables and roles give the user |
| RlsCacheStore.Server.GetOrCreateJWTToken | auth/tokens.go:63-101 | the JWT cache in place, keyed by session and user only: hit, disabled feature, failing read, failing signature and success |
| RlsCacheStore.Server.FlushTokenCache | auth/tokens.go:28-30 | both caches are empty afterwards and nothing else changes, whoever calls it |
| RlsCacheStore.Server.InvalidateRLSCacheForUser | auth/rls.go:24-31 | the key without a header is gone and every other one keeps its payload |
| RlsCacheStore.Server.ReloadPolicyAlone | cmd/server.go:328-354 | notification and playbook updates load the roles of the database, unless the reload fails, and change no cache |
| RlsCacheStore.Server.HandlePolicyEvent | cmd/server.go:411-447 | one turn of the loop is reload then flush, the flush even after a failed reload: both caches empty and one event fewer pending |
| AccessTokens.DeletedIsHiddenForADay | auth/tokens.go:140-146 | once a deletion found its row, no call returns the token for 24 hours, whatever failed or happened since |
| AccessTokens.DeletedComesBackIff | auth/tokens.go:204-221 | after a completed deletion some run returns the token again exactly when a cached copy outlives the blacklist entry |
| AccessTokens.LateDeletionIsFinal | auth/tokens.go:139-221 | with copies made before expiry, deleting a token that expires within a day is final |
| AccessTokens.ExpiryNeverDecreases | db/people.go:79-84 | in every run the stored expiry of a token never moves back |
| AccessTokens.CopyEndsWithTokenIff | auth/tokens.go:172-184 | a new copy ends no later than its token exactly when the lifetime is computed strictly before the expiry |
| AccessTokens.RunKeepsCopiesEnd | auth/tokens.go:170-185 | then no copy outlives the stored expiry, renewals and other copies included |
| AccessTokens.ReturnedIsUnexpired | auth/tokens.go:139-188 | and every returned token is unexpired against its row, although copies keep older expiries |
| AccessTokens.LateCopyIsReturnedForever | auth/tokens.go:174-184 | a lifetime computed after the expiry is negative, and the expired token is returned from then on |
| AccessTokens.GetFetches | auth/tokens.go:139-188 | every outcome of a fetch under its exact condition; a known, unlisted, unexpired token is returned as its row, is stored with an expiry of now plus thirty days exactly when it renews itself and has less than fifteen days left, and is cached until the expiry it had |
| AccessTokenStore.ExpiringCache.Set | auth/tokens.go:32-41 | the entry ends after the given lifetime; lifetime zero means the default, a negative one means no end |
| AccessTokenStore.ExpiringCache.Lookup | auth/tokens.go:140-146 | an entry is found up to and including its last moment |
| AccessTokenStore.Store.CreateAccessToken | db/auth.go:21-46 | the new row is added under an id never used before |
| AccessTokenStore.Store.GetAccessToken | auth/tokens.go:139-188 | cache, blacklist, database, expiry, renewal and caching in place, with every outcome and the whole new state in terms of the row, the copy, the blacklist and the clock |
| AccessTokenStore.Store.Admit | auth/tokens.go:170-187 | the part after the blacklist check: what expires is rejected, what runs out is renewed, what is returned is cached |
| AccessTokenStore.Store.DeleteAccessToken | auth/tokens.go:204-221 | the blacklist entry of a day is written first and survives later failures; the row goes exactly on success |
| AccessTokenStore.Store.FlushTokenCache | auth/tokens.go:28-30 | copies go, the blacklist stays |
| TokenPermissions.AllPermissions | rbac/permissions.go:11-17 | the listed permissions are exactly every object with every action, without subject |
| TokenPermissions.RunKeepsInv | auth/controllers.go:187-207 | token persons have deny rules only, are grouped under nobody but their creator, and are reached only by later tokens |
| TokenPermissions.TokensNeverExceedCreators | auth/controllers.go:187-207 | at every moment of every run a token may do nothing its creator may not |
| TokenPermissions.TokensNeverExceedOrigin | auth/controllers.go:164-207 | however many tokens lie between, it never exceeds the person the chain starts from |
| TokenPermissions.LiveTokensExact | auth/controllers.go:191-207 | a live token may do exactly what its creator may and no listed permission outside its scope covers |
| TokenPermissions.ListedPermissionExact | auth/controllers.go:191-207 | a listed permission is allowed exactly when the creator has it and the scope, if not empty, names it |
| TokenPermissions.CutTokensAreDead | auth/tokens.go:223-226 | without its grouping neither the token nor any token made from it may do anything |
| TokenPermissions.DeletionGrantsNothingIff | auth/tokens.go:223-231 | removing the roles grants nobody anything; removing the rules grants nothing exactly when the roles are gone or the rules withheld nothing |
| TokenPermissions.GainsExactly | auth/tokens.go:223-231 | who gains what when the rules go while the roles stay: followers of the token, what its creator may do, its own rules withheld and no other token in between withholds |
| TokenPermissions.FailedRoleRemovalEscalates | auth/tokens.go:224-230 | a run in which the failed removal turns a read-only token into a full one |
| TokenHandlers.BlankSubjects | auth/controllers.go:193-195 | subjects are removed in place, everything else stays |
| TokenHandlers.PermissionsToDeny | auth/controllers.go:197-202 | the denials are exactly the listed permissions outside the scope |
| TokenHandlers.BlankingKeepsScope | auth/controllers.go:192-195 | what the scope names does not depend on the subjects sent with it |
| TokenHandlers.CreateToken | auth/controllers.go:187-211 | the edges, the rules and the report of success after success and after each failure |
| TokenHandlers.CreationIsExact | auth/controllers.go:187-211 | a creation adds the one edge unless grouping failed, and exactly the deny rules of listed permissions that a non-empty scope leaves out unless a call failed; it removes nothing |
| TokenHandlers.CreationIsRun | auth/controllers.go:187-209 | an undisturbed creation is a run of the machine |
| TokenHandlers.DeleteGrants | auth/tokens.go:223-231 | roles and then rules are removed, each failure skips only its own part, edges and rules of others stay |
| ConfigForest.PreviewLists | catalog/report_controllers.go:337-415 | the preview lists, once each, exactly the configs that are not on or below a cycle of chosen parents |
| ConfigForest.PreviewIsPermutationIffAcyclic | catalog/report_controllers.go:337-415 | the preview is a permutation of the selection exactly when the chosen parents are acyclic |
| ConfigForest.MutualParentsAreLost | catalog/report_controllers.go:337-391 | two configs that name each other as parent give an empty preview |
| ConfigForest.PreviewAncestorsFirst | catalog/report_controllers.go:404-415 | every ancestor precedes its descendants |
| ConfigForest.SiblingsSorted | catalog/report_controllers.go:393-402 | sibling lists are sorted and keep their multiset |
| ConfigForest.SiblingsByFields | catalog/report_controllers.go:393-402 | of two siblings the one with the smaller type at the first difference comes first; with equal types the same holds of names, then of ids |
| ConfigForest.PreviewSiblingsByFields | catalog/report_controllers.go:393-415 | in the flattened preview that sibling and everything below it precede the other sibling |
| Text.LessAtDifference | catalog/report_controllers.go:397-397 | of two sort keys the one with the smaller character at the first difference is smaller |
| ConfigForest.PreviewIgnoresSelectionOrder | catalog/report_controllers.go:337-415 | rearranging the selection does not change the preview |
| ConfigForest.SortKeyIdentifies | catalog/report_controllers.go:395-397 | equal sort keys mean equal ids |
| ConfigForest.ParentChosen | catalog/report_controllers.go:370-391 | a selected parent id other than the own one wins; else the last path segment that names a selected config other than this; else there is no parent |
| MaterialisedPaths.ChosenParentIsNearest | catalog/report_controllers.go:370-391 | with a well-formed path the chosen parent is the nearest selected ancestor |
| MaterialisedPaths.WellFormedPreview | catalog/report_controllers.go:337-415 | well-formed paths leave no cycle, so nothing is lost |
| MaterialisedPaths.WellFormedRoots | catalog/report_controllers.go:357-363 | the roots are exactly the configs without a selected ancestor |
| ConfigForestBuilder.CollectIds | catalog/report_controllers.go:247-256 | each id once, in order of first mention |
| ConfigForestBuilder.FindSelectedConfigParent | catalog/report_controllers.go:370-391 | the backward scan returns the node of the chosen parent |
| ConfigForestBuilder.AttachChildren | catalog/report_controllers.go:345-355 | appending through pointers links every config under its chosen parent, in selection order |
| ConfigForestBuilder.SortConfigTreeNodes | catalog/report_controllers.go:393-402 | the recursive sort in place sorts every child list below the given nodes and nothing else, and stops |
| ConfigForestBuilder.BuildConfigForest | catalog/report_controllers.go:337-368 | the linked forest is the specified one wherever a walk from the roots can get, edge types included |
| ConfigForestBuilder.PreviewCatalogReport | catalog/report_controllers.go:65-85 | building and flattening on the heap yields the linked forest and the specified preview |
| RelationshipTree.ParseParentId | cmd/catalog_get.go:501-512 | the result is the segment right before the first later occurrence of the id, and empty without one |
| RelationshipTree.ParentIdBySegments | cmd/catalog_get.go:501-512 | the parent that the tree uses is that segment |
| RelationshipTree.WalkMeetsAllIffAcyclic | cmd/catalog_get.go:472-497 | a walk meets the root and every related config exactly once precisely when no parent cycle exists |
| RelationshipTree.HangsOnce | cmd/catalog_get.go:483-494 | every related config is a child of exactly one node, once |
| RelationshipTree.HangsBySegments | cmd/catalog_get.go:482-494 | that node is the one named by the segment before its id, if it is known, and the root otherwise |
| RelationshipTree.ChildrenInOrder | cmd/catalog_get.go:483-494 | children of one node come in the order of the input |
| RelationshipTree.TruePathsLoseNothing | cmd/catalog_get.go:482-512 | paths taken from one acyclic tree lose nothing |
| RelationshipTree.SelfParentIsLost | cmd/catalog_get.go:501-512 | a path that repeats its own id makes a config its own parent and loses it |
| RelationshipTree.BuildRelationshipTree | cmd/catalog_get.go:472-497 | the linked nodes have exactly the specified children, in input order |
| BackupDedup.OriginKeyInjective | db/applications.go:194-194 | the text key separates config and source |
| BackupDedup.SearchFindsPrevious | db/applications.go:203-211 | the backward search finds the very event it looks for, with interleaved keys and equal times |
| BackupDedup.RemovePrevious | db/applications.go:203-211 | the last matching element is removed, or nothing |
| BackupDedup.DedupBackupChanges | db/applications.go:183-226 | the loops compute the declarative filter |
| BackupDedup.DedupedKeepsExactly | db/applications.go:182-226 | an event is dropped exactly when it is a start whose next event of the same origin is a completion; order is kept |
| BackupDedup.CompletionsSurvive | db/applications.go:182-226 | every event that is not a start is listed |
| BackupDedup.GetApplicationBackups | db/applications.go:148-180 | the published list is the filtered one reversed, newest first |
| ArtifactSync.PendingOldestFirst | artifacts/jobs.go:49-49 | the queue holds the rows pushed without their data, each as often as the table, by creation time |
| ArtifactSync.Agent.FindPending | artifacts/jobs.go:49-49 | a batch is the oldest pending artifacts up to the limit |
| ArtifactSync.Agent.SyncOne | artifacts/jobs.go:58-80 | one artifact: store, read, push, mark, which fault stops it first and what that leaves |
| ArtifactSync.Agent.SyncArtifactItems | artifacts/jobs.go:43-81 | terminates; leaves a prefix of the pending artifacts pushed and marked; stops exactly where the queries, the store or an artifact make it stop, and says why |
| ArtifactSync.CompletesIff | artifacts/jobs.go:47-80 | a call succeeds exactly when none of the queries it makes fails and, if it has work, neither does the store nor an artifact |
| ArtifactSync.SuccessLeavesNothing | artifacts/jobs.go:53-55 | success leaves nothing pending, unless the limit is zero, and reports the initial number |
| ArtifactSync.CleanCallDrains | artifacts/jobs.go:43-81 | without faults every call with a limit other than zero drains the queue in order |
| ArtifactSync.EveryExitIsSafe | artifacts/jobs.go:57-80 | at every exit what is marked had been pushed before, the rest is still pending, and the number reported is the number marked, or zero after a failing query or mark |
| ArtifactSync.RetryFinishes | artifacts/jobs.go:43-81 | a later successful call handles exactly the rest, pushing one artifact twice only if marking it had failed |
| BearerTokens.ExtractBearerTokens | clientcmd/connection_browser.go:692-720 | in any iteration order each offered audience keeps one of its tokens with the most scopes |
| BearerTokens.CandidateIff | clientcmd/connection_browser.go:696-713 | an entry counts exactly when its key contains the marker and its non-empty secret decodes to unexpired claims with an audience |
| BearerTokens.FieldCountIsWords | clientcmd/connection_session_render.go:14-16 | the number of scopes is the number of words of the scope text, however much white space is around them |
| BearerTokens.EveryTextIsSpread | clientcmd/connection_session_render.go:14-16 | every scope text has such words |
| BearerTokens.ExtractionOrderIrrelevant | clientcmd/connection_browser.go:692-720 | the audiences and their numbers of scopes do not depend on the order |
| BearerTokens.ExtractionUniqueIff | clientcmd/connection_browser.go:692-720 | the tokens themselves do not depend on the order exactly when all most-scoped entries of an audience carry one secret |
| BearerTokens.ExtractionExists | clientcmd/connection_browser.go:692-720 | every storage has an extraction, so the condition is about real outcomes |
| BearerTokens.TiesDependOnOrder | clientcmd/connection_browser.go:714-717 | an instance of the failing half in which a required scope is met or not depending on the order |
| BearerTokens.SelectBearerToken | clientcmd/connection_browser.go:722-745 | the selected audience is eligible and has the most scopes among the eligible ones |
| BearerTokens.ContainsIff | clientcmd/connection_browser.go:677-684 | the recursive containment test finds a substring exactly when it occurs at some position |
| BearerTokens.HasRequiredToken | clientcmd/connection_browser.go:675-690 | the guard holds exactly when some unexpired token meets audience and scope |
| BearerTokens.GuardPromisesSelection | clientcmd/connection_browser.go:193-197 | on an extraction, once the guard holds, selection succeeds and its choice meets audience and scope with the most scopes |
| BearerTokens.UnrequiredSelection | clientcmd/connection_browser.go:722-745 | without requirements selection succeeds exactly on non-empty extractions |
| CleanJson.CleanedIsTidy | clientcmd/connection_crd.go:275-303 | afterwards no object reached through objects holds an empty field |
| CleanJson.CleaningIsIdempotent | clientcmd/connection_crd.go:275-303 | cleaning twice is cleaning once |
| CleanJson.LeavesStay | clientcmd/connection_crd.go:282-301 | a leaf, arrays included, is at its path afterwards exactly when it was there and is not empty |
| CleanJson.FieldsStay | clientcmd/connection_crd.go:277-301 | kind by kind which field values are dropped and which are kept as they were, objects by their content |
| CleanJson.EmptiedIffNoContent | clientcmd/connection_crd.go:278-282 | an object ends up empty exactly when it has no non-empty leaf |
| CleanJson.ObjectsStay | clientcmd/connection_crd.go:278-282 | an object below the top stays exactly when it has content |
| JsonObjects.JsonObject.CleanEmptyFields | clientcmd/connection_crd.go:275-303 | deleting keys in place, in any order, turns the tree of objects into its cleaned value |
| IncludeExclude.TrimSpaceCorrect | db/applications.go:511-511 | trimming removes exactly the white space at both ends |
| IncludeExclude.ParseIncludeExcludeList | db/applications.go:507-523 | the loop collects the included and excluded entries of the pieces in order |
| IncludeExclude.PrintedIsRead | db/applications.go:510-521 | a printed entry is read back with any white space around it |
| IncludeExclude.ReadIffShown | db/applications.go:509-521 | a piece contributes an entry exactly when it shows it, with any white space around it and behind the dash |
| IncludeExclude.LayoutIsIgnored | db/applications.go:507-523 | a list laid out with blanks, tabs and line ends anywhere between legible entries is read as those entries in order |
| IncludeExclude.ParseUndoesPrint | db/applications.go:507-523 | joining any interleaving of printable entries and parsing gives both lists back in order |
| IncludeExclude.ParsedHasCanonicalForm | db/applications.go:507-523 | every input parses like the printed form of what it contains |

## Left out

- HTTP handlers, command wiring, rendering, browser automation and process teardown: user interface and foreign calls.
- SQL, Postgres triggers, casbin, JWT signing and password hashing: represented by tables, maps, predicates and
  parameters. Casbin's matcher is an arbitrary predicate and its grouping is transitive without a depth limit.
- Matching of scopes in the database: scopes are matched by id, tags, agents and names as described above.
- Team membership events and team deletion: those handlers invalidate or flush before they change roles, and membership
  changes clear only the key without a header, so no coherence is claimed for them.
- RlsCache.RunKeepsGrounded: a payload is computed from one snapshot of roles, permissions and scopes, which the source
  reads one after the other.
- Mission Control in several processes: the grouping mutex exists once per process.
- NotificationGrouping.GroupsAreSpaced: the call's own transaction is the one that commits. The caller is a synchronous
  event handler (notification/events.go:52, notification/send.go:526); if its context carries an open transaction, the
  group is committed only with that, after the mutex is released, and the statement does not apply. Time is an integer,
  so the grouping interval is not rounded as the query does.
- The `%f` rendering of the grouping interval and clocks inside the database: the lookup uses one time per transaction,
  and a new row's creation time is at least that time.
- Non-atomic runs of `getAccessToken`: a call already past its blacklist check may still return a token that is being
  deleted.
- Deletion of tokens whose person is not an access-token person: the handler then leaves the policy alone.
- Members of `lo.Intersect` results: only membership is relied on, not order or multiplicity.
- Tag selectors arrive parsed, as maps of tags.
- ArtifactSync.Agent.FindPending: of artifacts created at the same time the one earlier in the table comes first, and
  rows locked by another process are not modelled.
- AccessTokens.ReturnedIsUnexpired: no claim is made that a token in steady use is renewed, because cache hits return
  before the renewal.
- BearerTokens.GuardPromisesSelection: the selected token need not be the one that satisfied the guard, and selection
  does not look at expiry again.
- JsonObjects.JsonObject.CleanEmptyFields: nested objects form a tree, as decoded JSON does; shared submaps are not
  modelled.
- Connection, CRD and model converters, small classifiers and generated deep copies: field copying only.
