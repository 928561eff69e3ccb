# A verified model of the issuer's revocation machinery

The repository is an authentication service: it signs access and refresh tokens, tracks
sessions, and must make a role change, a deactivation, a deletion or a logout take effect for
tokens that were already handed out. This project models that machinery and the engines around
it, and proves what the service is trusted for.

`dafny verify dfyconfig.toml` checks everything.

## What is modelled

* **The authorization-generation protocol** (`Authorization`, `IssuerStore`, `Protocol` and the
  `Protocol...` theorem modules). `Authorization` gives every transaction as a function of the
  database rows; `IssuerStore` has the same transactions as imperative methods over mutable rows,
  each proved equal to its function. `RoleMatrix` and `RowColumns` say by ranks and columns what
  those functions decide and leave, independently of how they are written. `HandlerRuns` shows that
  the login, refresh and logout handlers, and `AdminRuns` that changes, deletions and repairs, are
  runs of the protocol. `Protocol` interleaves them step by step: a login reads its
  account without a lock, signs, and commits its session later; a refresh holds the row lock; an
  administrative transaction takes the policy lock, then the row lock and its guards, then
  commits; repairs, logouts, expiry deletes, outbox workers, tombstone cleanup and Redis commands
  run in between, and anything in flight may crash. Theorems are about every run.
* **Reads gone stale** (`StaleRead`, `StaleProtocol`, `StaleTiming`, `StaleWitness`). The administrative
  transactions read their account before they lock its row and never look again. `StaleRead` is
  what such a transaction writes, `StaleProtocol` the protocol with these requests in it, whose runs
  are proved to be runs of `Protocol` under stated conditions, `StaleTiming` states one of these in
  time, and `StaleWitness` has runs that break them.
* **The transactional outbox** (`OutboxRows`, `OutboxWorker`, `OutboxFleet`, `OutboxRefinement`,
  `ProtocolDelivery`). `OutboxWorker` is the sequential worker as it runs; `OutboxFleet` is any
  number of workers that stall, crash and overwrite each other; `OutboxRefinement` shows that a
  drain of the first is a run of the second; `ProtocolDelivery` follows a revocation from its row
  into Redis.
* **The event hub** (`EventIds`, `EventBuffer`, `EventHub`, `EventStream`): identifiers on the
  wire, the ring buffer and resume decision, the hub's methods over mutable queues, and one
  consumer's stream over every run of publishes, overflows, disconnects, shutdowns and restarts
  (resume by Last-Event-ID, section 9.2 of the WHATWG HTML Standard).
* **The fixed-window limiter** (`Calendar`, `RateLimits`, `LimiterRaces`): calendar buckets and
  resets with leap years and December, TTLs, Retry-After, the early-exit loop and its closed form,
  and overlapping checks one increment at a time.
* **Sweeps, write-behind and repair** (`BatchSelection`, `Retention`, `ApiKeyPurge`, `AuditPurge`,
  `WriteBehind`, `SecurityPreflight`).

## Premises

* The administrative transactions of `Protocol` check and write from the row they lock. The code
  drops the result of its locking query and does not refresh the object it read before
  (role_admin.py:196-198, unlike auth.py:194-200). `StaleProtocol` lets that read be any time
  earlier, on a database whose role/flag CHECK is installed. Its runs are runs of `Protocol` as
  long as no reap takes the publish row a request in flight would collide with, and deletions,
  which enqueue nothing, check fresh reads; vouched-for tokens are current without the second
  condition. The unique constraint on outbox rows is what turns the other changes away. A completed
  row is kept for its retention (an hour by default, but it can be configured to zero), and the
  first condition holds whenever no reap finds a request open that was read longer ago than that,
  less what a worker's clock reading lags behind its claim (`StaleTiming.YoungRequestsAreRetained`).
* The select-then-insert of `create_client_session` is one step; nothing in the schema makes a
  session unique per account. `ProtocolRefresh.TwoRowsAndNoRedisAllowReuse` shows what the
  refresh guarantee loses if two rows exist.
* Sessions have a foreign key to users: a login whose account is gone aborts. The role column is
  NOT NULL: a role supplied as null aborts the transaction. Apart from these and from
  `StaleProtocol` no theorem relies on a unique or CHECK constraint.
* User ids and token identifiers are fresh and never reused; the identifier digest is injective.
  A Lua script and a MULTI pipeline are atomic. The clock does not go back, and each boot's epoch
  is later than the last.
* `updated_at` moves with every write (the mixin that owns it is not part of this model).
* Theorems about tombstones, leases and final rows are over runs in which a delivery outlasts its
  lease only if no other worker has held a batch meanwhile. All runs of one drain loop
  (main.py:140-171) are of that kind, however slow it is (`LoneWorkerRunIsPrompt`);
  `OutboxFleet.LateFinishReopensCompletedRow` shows what a second worker changes.
* The last-superuser theorem is over runs whose self-service deletes are made with tokens the
  status decision vouches for. The route believes the claims of its token and takes no lock;
  `OutdatedTokenEmptiesSet` is a run in which an outdated one empties the set, and
  `SelfDeleteEmptiesIff` says exactly when. The unlocked convenience wrapper `update_user` is not
  a step.
* One background loop flushes last-use times.
* The closed forms of the limiter are about checks of one API key made one after another, each
  window reading the clock for itself; `LimiterRaces` has overlapping ones.

## Where the code and its documentation disagree

* services/audit.py:314-320 says a purge's own row survives every subsequent purge. It survives a
  later purge only while that purge's window reaches back to it
  (`AuditPurge.OwnRowSurvivesIff`).
* services/audit.py:139-148 says the stall guard stops a sweep whose deletes are suppressed. With
  rows of equal age across the edge of a batch it need not
  (`AuditPurge.StallDetectedIffNoTieAtEdge`); the API-key sweep, ordered by id, always ends.
* core/client.py:91 says the TTL is set on the first call; it is renewed by every call.
* services/outbox.py:124 and db_models/outbox.py:72-73 call a duplicate enqueue harmless; it
  violates the unique constraint and aborts the transaction. From fresh reads it never happens
  (`ProtocolAdministration.OutboxKeysStayUnique`); from stale ones the abort is what keeps the
  second change out (`StaleRead.TransitionCommitsIffUnannounced`).

## Model

| member | source | states |
|---|---|---|
| ProtocolTheorems.VouchedTokensAreCurrent | auth_user_service/services/generation.py:215-258 | Over every run, a token the status decision answers active for carries exactly the role, superuser flag and activation of its owner's current row, and was signed at its current generation (which is history, not a claim) |
| ProtocolTheorems.SlowLoginVouchedIffUnchanged | auth_user_service/services/client_sessions.py:61-98 | A login committing after a concurrent change is vouched for exactly when no transition intervened since its unlocked read |
| ProtocolTheorems.VouchesIffLive | auth_user_service/services/generation.py:231-258 | In every state satisfying the invariant, the ordered decision is equivalent to one unrevoked row of the token stamped with its owner's generation |
| ProtocolTheorems.RedisNeverChangesTheAnswer | auth_user_service/routes/private.py:284-304 | Over every run the answer with Redis up, down, expired or flushed is the database decision |
| ProtocolTheorems.RevocationIsPermanent | auth_user_service/services/generation.py:80-92 | A token answered active and later inactive is never answered active again, through reactivation, repair, new logins or tombstone cleanup |
| ProtocolTheorems.NeverActiveAgain | auth_user_service/services/client_sessions.py:70-96 | From any state of the invariant, an inactive token whose session write is settled stays inactive over every continuation |
| ProtocolTheorems.StepInv | auth_user_service/services/role_admin.py:314-382 | Every step of the protocol keeps the invariant: stamps at most the owner's generation, tokens agree with their generation, locks match transactions, blacklisted tokens have no row |
| ProtocolTheorems.StepNoRevival | auth_user_service/services/client_sessions.py:61-98 | A step keeps a session row and its owner's generation, or removes the row, or writes it for a token that had none |
| ProtocolInvariant.StartInv | auth_user_service/services/generation.py:80-92 | A deployment with legacy sessions, unstamped tokens and arbitrary accounts satisfies the invariant |
| ProtocolTheorems.LoginThenLogout | auth_user_service/routes/login.py:503-535 | The run theorems are not vacuous: from one account there is a run whose login is vouched for and a continuation whose logout ends that |
| ProtocolAdministration.LastSuperuserSurvives | auth_user_service/services/role_admin.py:274-290 | Over every interleaving of multi-step changes and deletions with steps that take no lock and with self-service deletes made with vouched-for tokens, a non-empty set of active canonical superusers stays non-empty |
| ProtocolAdministration.UnlockedStepsOnlyGrowTheSet | auth_user_service/services/role_admin.py:114-149 | A step without the policy lock never removes a member of the set and never touches a locked row |
| ProtocolAdministration.CommitKeepsSuperuser | auth_user_service/services/role_admin.py:406-428 | A commit whose guards passed earlier leaves a superuser although other steps ran in between |
| ProtocolAdministration.SelfDeleteEmptiesIff | auth_user_service/routes/profile.py:114-132 | The self-service delete empties the set exactly when the caller is its only member and the token's claims, which the route's guard reads, do not say superuser |
| ProtocolAdministration.OutdatedTokenEmptiesSet | auth_user_service/core/deps.py:198-238 | A run from a starting deployment does so: login, promotion, the other superuser's demotion, delete with the old token before its blacklist effect is drained |
| ProtocolAdministration.VouchedSelfDeleteKeepsSet | auth_user_service/routes/profile.py:119-128 | With a token the status decision still vouches for, the guard on the claims keeps the set as it was |
| ProtocolAdministration.ChangeIsAllOrNothing | auth_user_service/services/role_admin.py:293-382 | A committed change is a transition exactly when the role or activation of the row changed; a transition advances the generation by one, leaves no session of the user, and enqueues one publish row plus one blacklist row per captured session; otherwise none of these move |
| ProtocolAdministration.KeysOnlyRevokedByDeactivation | auth_user_service/services/api_keys.py:303-324 | A change revokes the owner's keys exactly on deactivation, never clears a revocation and never touches another owner's key |
| ProtocolAdministration.OutboxKeysStayUnique | auth_user_service/db_models/outbox.py:71-82 | Over every run no two outbox rows share the four-column key, and a row's generation is at most its account's |
| ProtocolRoles.RolesRiseOnlyByOthers | auth_user_service/services/role_admin.py:262-271 | Over every run an account's role stands strictly higher at the end only if a commit of another actor's change or a repair raised it at some step |
| RoleMatrix.ChangeRefusedIff | auth_user_service/services/role_admin.py:189-193 | By ranks and columns: a change is refused as self-promotion exactly when the actor is its target and asks for a strictly higher role, for the last superuser exactly when it takes role or activation from the only one, at the last generation or for a null role exactly as they come after; else it commits |
| RoleMatrix.DeletionRefusedIff | auth_user_service/services/role_admin.py:406-411 | A deletion is refused exactly for the only active canonical superuser and at the last generation |
| RoleMatrix.CommittedChangeColumns | auth_user_service/services/role_admin.py:341-373 | The row a committed change leaves: what was asked for, the flag its role implies, one generation more exactly if role or activation moved |
| RoleMatrix.CommittedChangeRest | auth_user_service/services/role_admin.py:341-382 | And the other rows: the account's sessions go, the revision counts up and effects under the new generation are enqueued exactly if they moved; its keys are revoked exactly on deactivation; nothing of anybody else |
| RoleMatrix.NobodyRaisesThemselves | auth_user_service/services/role_admin.py:262-271 | No committed change whose actor is its target leaves a strictly higher role |
| ProtocolRefresh.RefreshIsSingleUse | auth_user_service/routes/login.py:416-486 | With one session row per account, each identifier is refreshed at most once over every interleaving, whatever Redis does between requests |
| ProtocolRefresh.SwapAloneIsSingleUse | auth_user_service/core/client.py:521-580 | With Redis up for every refresh the atomic swap alone gives single use, however many rows an account has |
| ProtocolRefresh.TwoRowsAndNoRedisAllowReuse | auth_user_service/services/auth.py:202-224 | From every state in which an account with a live delivered token has a second row and a free lock, there is a run with Redis down that refreshes the token twice |
| ProtocolRefresh.LegacyRowsAllowReuse | auth_user_service/services/client_sessions.py:61-98 | A starting deployment with two sessions of one account reaches such a state by one login |
| ProtocolRefresh.OneRowStep | auth_user_service/services/client_sessions.py:61-98 | Every step keeps at most one session row per account |
| ProtocolTombstones.LoneWorkerRunIsPrompt | auth_user_service/main.py:140-171 | Runs with one worker draining at a time are prompt, however far its deliveries outlast their lease, so the tombstone result holds over all of them |
| ProtocolTombstones.TombstoneOutlivesEffects | auth_user_service/services/generation.py:277-303 | Over prompt runs a deleted account keeps its tombstone while any pending, leased or dead effect names it or the horizon has not passed |
| ProtocolTombstones.CleaningIsExact | auth_user_service/services/generation.py:277-303 | A cleanup at any moment of a prompt run leaves a deleted account's tombstone, unchanged, exactly if a pending, leased or dead effect names it or the horizon has not passed |
| ProtocolTombstones.DeletedSubjectIsDenied | auth_user_service/services/generation.py:164-181 | Its terminal generation exceeds every generation its tokens were stamped with, and no token of it is ever vouched for again |
| Authorization.RetentionSeconds | auth_user_service/services/generation.py:95-116 | The tombstone horizon is the largest of the four lifetimes and one of them |
| Authorization.SessionOf | auth_user_service/services/generation.py:235-237 | The lookup finds a row with the identifier, and none exactly when there is none |
| RowColumns.WrittenSession | auth_user_service/services/client_sessions.py:61-98 | The row a session write leaves, re-stamped or inserted: token, stamp, access and refresh expiry as given, a reused row's revoked flag kept, no other row touched |
| RowColumns.CapturedIff | auth_user_service/services/client_sessions.py:258-286 | A transition enqueues a blacklist row for a session exactly if it is the account's, not revoked and before its refresh expiry; the row carries the access expiry |
| RowColumns.PublishedOnce | auth_user_service/services/outbox.py:109-168 | The rows of a transition are blacklists and then exactly one publish, all pending and untried |
| ProtocolSessions.WrittenSessionIsCapturedUntilRefreshExpiry | auth_user_service/services/client_sessions.py:258-286 | A session a login or a refresh of any state of the invariant writes is captured by an altering change of its account exactly at times before the refresh expiry given, and its blacklist row is dated with the access expiry given |
| RowColumns.DecisionIff | auth_user_service/services/generation.py:231-258 | The decision is active exactly for a current unrevoked row of a live, consistent, untombstoned owner, and says whose and of what generation |
| RowColumns.DeletedColumns | auth_user_service/services/role_admin.py:385-428 | A committed deletion takes the account, its sessions and its keys, nothing of anybody else, and leaves a tombstone above its generation |
| RowColumns.RepairedColumns | auth_user_service/services/security_preflight.py:271-302 | A repair happens exactly for a row whose role and flag disagree with a generation left, and leaves the role asked for, its flag, the next generation and no session |
| StaleProtocol.RetainedRowsRestoreThePremise | auth_user_service/services/role_admin.py:314-382 | Over every run of requests that read at any time before they lock, if no publish row is reaped from under a request and deletions check fresh reads, some run of the main protocol leads to the same state |
| StaleProtocol.VouchedTokensAreCurrentWhenRetained | auth_user_service/services/generation.py:215-258 | Over every run that retains its publish rows, stale deletions included, a token answered active still carries its owner's current claims |
| StaleProtocol.LastSuperuserSurvivesWhenRetained | auth_user_service/services/role_admin.py:274-290 | So over these runs, with self-service deletes made with vouched-for tokens, the superuser set still never becomes empty |
| StaleProtocol.OnlyReapingForgets | auth_user_service/services/outbox.py:353-378 | A step meets the retention condition unless it reaps a completed publish row that a request in flight would collide with |
| StaleTiming.YoungRequestsAreRetained | auth_user_service/services/outbox.py:353-378 | In time: rows are retained over every run in which workers claim within some lag of reading the clock and no reap finds a request open that was read longer ago than the retention less that lag |
| StaleWitness.StaleReadVouchesWrongToken | auth_user_service/services/role_admin.py:341-373 | Without it a run exists: two changes of one read reach the same generation, the row between them delivered and reaped, and the login between them is vouched for with a role its owner does not have |
| StaleWitness.StaleDeleteEmptiesSet | auth_user_service/services/role_admin.py:406-428 | A deletion that read its target before a promotion leaves no superuser after the other one's demotion |
| StaleRead.TransitionCommitsIffUnannounced | auth_user_service/db_models/outbox.py:71-82 | A transition past its guards, from whatever read, commits exactly when the outbox has no publish row of the generation after the one it read |
| StaleRead.FreshReadIsTheModel | auth_user_service/services/role_admin.py:196-198 | With a fresh read, the column-wise UPDATE is the transaction of the main model |
| StaleRead.EveryEarlierStampStaleIffFresh | auth_user_service/services/generation.py:153-162 | A transition that commits makes every earlier stamp stale exactly when its read was fresh |
| StaleRead.SlowLoginAfterStaleChange | auth_user_service/services/role_admin.py:341-373 | After a transition that commits, a login that read just before it is vouched for exactly when the read was one generation behind |
| StaleRead.StaleChangeEmptiesSetIff | auth_user_service/services/role_admin.py:274-290 | A change past its guards commits and empties the superuser set exactly when its target is the only member, was read as no member, loses role or activation, and its outbox rows have free keys |
| StaleRead.StaleChangeSplitsRoleFromFlagIff | auth_user_service/services/users.py:148-158 | It commits and separates role and flag exactly when the new role's flag is the one read while the row's flag differs, and its outbox rows have free keys |
| StaleRead.FreshDeleteIsTheModel | auth_user_service/services/role_admin.py:406-428 | With a fresh read the deletion is that of the main model |
| StaleRead.StaleDeleteEmptiesIff | auth_user_service/services/role_admin.py:408-411 | A deletion past its guard empties the set exactly when its target is the only member and was read as no member |
| StaleRead.TerminalCoversStampsIffFresh | auth_user_service/services/generation.py:165-181 | Its tombstone's terminal generation exceeds the account's exactly when the read was fresh |
| StaleRead.StaleDeleteDeniesItsSubjectOnly | auth_user_service/services/generation.py:231-233 | Fresh or stale, its subject is answered inactive from then on and every other answer is unchanged |
| IssuerStore.Issuer.CreateClientSession | auth_user_service/services/client_sessions.py:45-101 | Re-stamps a row of the user if there is one, else inserts one, with the stamp, token and two expiries given column by column; nothing else changes |
| IssuerStore.Issuer.CaptureAndDeleteUserSessions | auth_user_service/services/client_sessions.py:267-286 | Captures exactly the unrevoked, unexpired rows, deletes every row of the user and returns their number |
| IssuerStore.Issuer.ApplyPostCommitRevocation | auth_user_service/services/client_sessions.py:289-323 | Blacklists each target with time left for that time and removes every target from the allowlist |
| IssuerStore.BlacklistedUntil | auth_user_service/services/client_sessions.py:289-323 | After it a target with a whole second left is blacklisted until within a second of its expiry, and no other entry is touched |
| IssuerStore.Issuer.RevokeAllUserSessions | auth_user_service/services/client_sessions.py:366-390 | Deletes all rows of the user and returns their number, then the accelerators for exactly the captured ones |
| IssuerStore.Issuer.RevokeSessionJti | auth_user_service/services/client_sessions.py:104-147 | Deletes exactly the rows of the identifier and blacklists it for its remaining whole seconds; fails exactly when Redis is up and these are zero |
| IssuerStore.Issuer.EnqueueRoleChangeEffects | auth_user_service/services/outbox.py:109-168 | Appends one blacklist row per target, in order, and one publish row |
| IssuerStore.Issuer.DecideJtiStatus | auth_user_service/services/generation.py:216-258 | The checks in code order compute the decision function on a row found for the identifier |
| IssuerStore.Issuer.RevokeAndEnqueueAuthorizationChange | auth_user_service/services/role_admin.py:293-311 | Bumps the generation by one, drops the user's sessions and enqueues their effects under the new generation |
| IssuerStore.Issuer.GuardChange | auth_user_service/services/role_admin.py:262-290 | Refuses exactly a strictly higher role asked for oneself and the only superuser's loss of role or activation, in that order |
| IssuerStore.Issuer.ChangeUserAuthorization | auth_user_service/services/role_admin.py:314-382 | Refuses with nothing changed, or commits exactly the change function's rows and outbox rows |
| IssuerStore.Issuer.DeleteUserAccount | auth_user_service/services/role_admin.py:385-428 | Refuses with nothing changed, or removes the row, its sessions and keys and leaves the tombstone |
| IssuerStore.Issuer.WriteDeletionTombstone | auth_user_service/services/generation.py:165-181 | An upsert that can only raise the terminal generation |
| IssuerStore.Issuer.CleanupExpiredTombstones | auth_user_service/services/generation.py:278-303 | A tombstone remains, unchanged, exactly if its subject is referenced or it is younger than the retention; the result is the number of the others |
| IssuerStore.Issuer.RepairUser | auth_user_service/services/security_preflight.py:309-369 | Not found, already consistent under another role, no-op repeat, or the repair with its effects |
| IssuerStore.Issuer.CheckJtiStatus | auth_user_service/routes/private.py:284-304 | An active answer needs a current unrevoked row of an active, consistent, untombstoned owner and no unexpired blacklist key; without such a key it is the database decision |
| IssuerStore.Issuer.LoginAccessToken | auth_user_service/routes/login.py:241-289 | Rejected exactly for no match or an inactive account, blocked exactly for an inconsistent one, else the session row stamped with the account's generation and the identifier admitted |
| IssuerStore.Issuer.Logout | auth_user_service/routes/login.py:503-535 | Exactly the rows of the validated access token go, with or without Redis, and those of the refresh token if the access token was not revoked and Redis is there; which Redis keys go; and when the request fails |
| IssuerStore.Issuer.LoginRefreshToken | auth_user_service/routes/login.py:400-499 | Each outcome exactly by the checks before it, success by the columns it needs, and rows, allowlist and blacklist after it, detected reuse included |
| HandlerRuns.LoginIsRun | auth_user_service/routes/login.py:241-289 | What a login leaves in the rows and in Redis is what its three steps of the protocol leave, or nothing if it is refused |
| HandlerRuns.RefreshIsRun | auth_user_service/routes/login.py:400-499 | What a refresh leaves is what a run of the protocol leaves: none if it is turned away, its lock, swap and commit if it succeeds, and the revocation with its post-commit steps if it detects reuse |
| HandlerRuns.LogoutIsRun | auth_user_service/routes/login.py:503-535 | What a logout leaves, whichever tokens validate and whether or not Redis is there, is what a run of logout and Redis steps leaves |
| HandlerRuns.LogoutDenies | auth_user_service/routes/login.py:310-350 | After a logout with a validated access token, Redis or not, or with only a validated refresh token and Redis, every status check of it at any time is answered inactive |
| AdminRuns.ChangeIsRun | auth_user_service/services/role_admin.py:314-382 | What an administrative change leaves in the rows and appends to the outbox is what its lock, guard and commit steps leave, or a profile edit; nothing if it is refused |
| AdminRuns.DeleteIsRun | auth_user_service/services/role_admin.py:385-428 | The same of a deletion, which its run records as deleted |
| AdminRuns.RepairIsRun | auth_user_service/services/security_preflight.py:309-369 | The same of a repair, one with nothing to do being the empty run |
| RedisStore.Redis.Rotate | auth_user_service/core/client.py:562-580 | Swaps the identifiers exactly when the old one is present, else changes nothing |
| SecurityPreflight.Preflight | auth_user_service/services/security_preflight.py:83-124 | The two reported lists together are exactly the inconsistent rows, and the session list those of them with an active session |
| SecurityPreflight.ReportColumns | auth_user_service/services/security_preflight.py:83-124 | Which list holds which mismatch, and whose sessions count as active |
| SecurityPreflight.RepairMovesReport | auth_user_service/services/security_preflight.py:83-124 | One repair takes its account off every list and counts one more active superuser exactly if it made an active account one; nothing else in the report moves |
| SecurityPreflight.RepairsInOneGo | auth_user_service/services/security_preflight.py:309-369 | Any sequence of repairs amounts to one simultaneous repair of every named mismatched row to the first role given for it |
| SecurityPreflight.RepairsEnqueueWhatWasThere | auth_user_service/services/security_preflight.py:278-303 | Whatever was repaired before it, a repair enqueues the effects of the sessions its account had at the start, under the generation after the one it had |
| SecurityPreflight.CleanIffEveryReportedIdRepaired | auth_user_service/services/security_preflight.py:72-124 | The preflight is clean afterwards exactly when every reported id was named and had generations left |
| SecurityPreflight.RepairsKeepWhatIsConsistent | auth_user_service/services/security_preflight.py:271-302 | No active canonical superuser is lost, consistent rows are untouched, each repaired generation moves once, and sessions go exactly with a repair |
| SecurityPreflight.RepeatedRepairsChangeNothing | auth_user_service/services/security_preflight.py:219-268 | Repeating any of the repairs changes nothing |
| OutboxFleet.OutboxLosesNothing | auth_user_service/services/outbox.py:218-328 | With any number of workers crashing or stalling anywhere, every row ever enqueued is pending, leased or dead, or its effect was applied or its token had expired |
| OutboxFleet.OnlyReapedRowsDisappear | auth_user_service/services/outbox.py:353-378 | A row leaves the table exactly when a reap finds it completed and past retention |
| ProtocolDelivery.RevocationsReachRedis | auth_user_service/services/outbox.py:252-328 | Over every run of the whole system, a blacklist row that is undelivered at some moment is so at every later one, or its identifier was in between put on Redis's blacklist until its token's expiry, to the second, or its token has expired |
| OutboxFleet.LeasesRecoverAndExclude | auth_user_service/services/outbox.py:218-250 | Over prompt runs, in which a delivery outlasts its lease only if its worker is alone, two workers never hold one row at once, and an expired lease is claimable at every later instant |
| OutboxFleet.FinishedIsFinal | auth_user_service/services/outbox.py:276-328 | Over prompt runs a completed or dead row never changes again in any continuation, and is gone exactly if it was completed and a reap past its retention ran |
| OutboxFleet.LoneWorkerIsPrompt | auth_user_service/main.py:140-171 | One worker's runs are prompt, however far its drains outlast their leases |
| OutboxFleet.LateFinishReopensCompletedRow | auth_user_service/services/outbox.py:276-328 | Without promptness a late worker reopens a completed row |
| OutboxFleet.LateFinishReopensIff | auth_user_service/services/outbox.py:276-328 | A late finish moves a completed row out of that state exactly when its own delivery fails; the row then counts from the attempts the late worker had read and keeps the other's completion time |
| OutboxRows.DeadAfterExactlyMaxAttempts | auth_user_service/services/outbox.py:276-328 | However often one worker polls, a row that keeps failing is dead exactly once it has been delivered the maximum number of times |
| OutboxRows.RetrySchedule | auth_user_service/services/outbox.py:213-216 | After the k-th failure a row is eligible exactly from min(base*2^(k-1), cap) on |
| OutboxRows.ClaimableOverLife | auth_user_service/services/outbox.py:227-243 | A new row is claimable at once, a claimed one exactly after its lease |
| OutboxRows.BackoffDoubles | auth_user_service/services/outbox.py:213-216 | The first delay is the base and each one doubles, up to the cap |
| OutboxRows.BackoffMonotoneAndCapped | auth_user_service/services/outbox.py:213-216 | Delays never decrease and never pass the cap |
| OutboxWorker.FirstEligibleIsOldest | auth_user_service/services/outbox.py:218-250 | A batch is eligible rows in creation order, and a row is passed over only for a full batch of older ones |
| OutboxWorker.Worker.ClaimBatch | auth_user_service/services/outbox.py:218-250 | Leases exactly the batch and leaves every other row, by columns: what was claimable, what the lease is, and what may be passed over |
| OutboxWorker.Worker.SelectBatch | auth_user_service/services/outbox.py:227-243 | The query's loop computes the oldest eligible rows |
| OutboxWorker.Worker.ApplyEffect | auth_user_service/services/outbox.py:252-274 | An effect succeeds exactly if it publishes, has less than a second left, or both commands go through; then it is blacklisted until within a second of its expiry |
| OutboxWorker.Worker.ProcessRow | auth_user_service/services/outbox.py:276-328 | The row after one delivery, by columns: completed exactly if there is nothing to blacklist any more or both commands went through, else one attempt more and dead or retried after its backoff |
| OutboxWorker.Worker.DrainOnce | auth_user_service/services/outbox.py:330-351 | The table after a drain; the counters are the numbers of claimed rows left completed, pending and dead |
| OutboxWorker.Worker.ReapCompleted | auth_user_service/services/outbox.py:353-378 | Removes exactly the completed rows past retention and returns their number |
| OutboxRefinement.DrainIsPromptRun | auth_user_service/services/outbox.py:330-351 | What a drain leaves is what some prompt run of the concurrent machine leaves, however the clock advances during its deliveries |
| EventIds.ParseOfEventId | auth_user_service/events/hub.py:73-86 | An identifier the hub writes reads back as the epoch and number it was written from |
| EventIds.NumeralIff | auth_user_service/events/hub.py:73-81 | The sequence part is a number exactly if it is digits with single underscores between them |
| EventIds.UnderscoresIgnored | auth_user_service/events/hub.py:73-81 | The underscores carry no value |
| EventIds.BlanksAndPlusIgnored | auth_user_service/events/hub.py:73-81 | Blanks around it and one plus sign before it do not matter |
| EventIds.EventIdInjective | auth_user_service/events/hub.py:160-165 | Different events never share an identifier, within and across epochs |
| EventBuffer.ResumableIffEverythingMissedIsBuffered | auth_user_service/events/hub.py:184-203 | A header is resumable exactly when it names this epoch and every event after it is still buffered, and the replay is exactly those events in order |
| EventBuffer.PushKeepsNewest | auth_user_service/events/hub.py:159-166 | The ring buffer holds exactly the newest events of the epoch |
| EventHub.Hub.Fanout | auth_user_service/events/hub.py:154-180 | Numbers and buffers the event; a consumer with room gets it, one without is marked as overflowed, one already marked is left |
| EventHub.Hub.ResumeFrom | auth_user_service/events/hub.py:184-203 | The checks in code order compute the resume decision |
| EventHub.Hub.Connect | auth_user_service/events/hub.py:211-213 | The replay is settled and an empty queue registered in one step |
| EventHub.Hub.CloseAll | auth_user_service/events/hub.py:124-132 | Every consumer with room gets the sentinel, saturated ones are left |
| EventStream.StreamWithoutSilentLoss | auth_user_service/events/hub.py:154-243 | Over every run, received events are the ones published under their numbers, never repeat or go back, and neighbouring ones are consecutive within one epoch, so every hole is announced by a gap frame |
| EventStream.IdleConsumerIsCurrent | auth_user_service/events/hub.py:205-243 | Over every run a connected consumer with nothing left to receive has the newest event or was told of a gap since its last one exactly when it has received an event, and otherwise has received nothing at all |
| EventStream.NoIdMeansSilentLoss | auth_user_service/events/hub.py:188-189 | The other case occurs: a consumer that reconnects before its first event misses what was published meanwhile without a gap frame |
| EventStream.ConnectInv | auth_user_service/events/hub.py:211-222 | A reconnect with the last id received continues the log: the successor next, or a gap frame first |
| Calendar.ResetIsFirstOtherBucket | auth_user_service/core/client.py:64-88 | The reset is the first later instant with a different key, and there is none only in the last bucket of the last year |
| Calendar.ResetIsStartPlusLength | auth_user_service/core/client.py:67-88 | The reset is the start of the window plus its length, through month ends, leap days and December |
| Calendar.OrdersAgree | auth_user_service/core/client.py:37-42 | Comparing instants field by field is the order of time |
| Calendar.TtlOutlastsBucket | auth_user_service/core/client.py:44-49 | An increment's TTL outlasts its bucket |
| Calendar.TwoBucketsCover | auth_user_service/core/client.py:37-49 | An interval as long as a minute, hour or day window, or 28 days, meets at most two buckets, its end point included |
| Calendar.ThreeBucketsIffLonger | auth_user_service/core/client.py:37-49 | Some interval of a length meets three buckets exactly when it is more than a microsecond longer than that |
| Calendar.ThirtyOneDaysMeetThreeMonths | auth_user_service/core/client.py:41-48 | 31 days can meet three month buckets |
| Calendar.RetryAfterLandsInNewBucket | auth_user_service/core/deps.py:384-395 | Waiting the advertised seconds lands in a new bucket of the exceeded window, at most a second after the reset |
| RateLimits.AllowedIffAdmitted | auth_user_service/core/client.py:124-149 | Over every run a request is allowed exactly when, in every window, fewer than the limit had got that far in its bucket |
| RateLimits.CounterIsReachCount | auth_user_service/core/client.py:90-102 | At every later instant the counter of its bucket is exactly the number of requests that reached the window in that bucket, expiry notwithstanding |
| RateLimits.CounterIsSumOfCappedSubBuckets | auth_user_service/core/client.py:124-149 | The closed form: a bucket's counter is the sum over its finer sub-buckets of the requests reaching them, each capped at their limit, less the passing requests whose next reading left the bucket, plus those that came in over its edge |
| RateLimits.NobodyStraddles | auth_user_service/core/client.py:59-62 | When no request's two readings straddle an edge, both corrections are zero |
| RateLimits.AdmittedWithinLimit | auth_user_service/core/client.py:104-149 | Admitted requests never exceed any window's limit in any bucket |
| RateLimits.AdmittedWithinTwiceLimitAnywhere | auth_user_service/core/client.py:104-149 | Nor twice the limit over any interval as long as the window (28 days for a month) |
| RateLimits.PassesAreCapped | auth_user_service/core/client.py:112-115 | Of the requests reaching a window in one bucket exactly the first limit-many pass it |
| RateLimits.RemainingIsWhatIsLeft | auth_user_service/core/client.py:104-122 | An allowed request is told the first window's limit less the number of requests its bucket has seen, itself included |
| RateLimits.Limiter.CheckAllLimits | auth_user_service/core/client.py:124-149 | Increments windows up to the first exceeded one and reports that one, else the first window, with its limit, what is left of it, and its reset |
| LimiterRaces.CounterIsIncrementCount | auth_user_service/core/client.py:90-102 | Over every interleaving of overlapping checks, one increment at a time, in which no increment finds its key expired, a counter is the number of increments of its bucket |
| LimiterRaces.CounterLastsItsBucket | auth_user_service/core/client.py:44-49 | If increments run within the bucket of their reading, it is still there at every later instant of the bucket |
| LimiterRaces.AdmittedWithinLimitWhenInterleaved | auth_user_service/core/client.py:90-102 | No window then lets more than its limit of requests through a bucket |
| LimiterRaces.PassesIffRoomWhenInterleaved | auth_user_service/core/client.py:104-122 | And a request gets past a window exactly when fewer than the limit have done so in that bucket before it |
| LimiterRaces.FirstExcessIff | auth_user_service/core/client.py:90-122 | The first increment that takes a bucket past its limit is exactly one that finds the key of a full bucket expired, the limit not being zero |
| LimiterRaces.ReadWithinTwiceLimitAnywhere | auth_user_service/core/client.py:37-49 | Nor are more than twice the limit let through over any interval as long as the window, dated by the readings |
| LimiterRaces.RanWithinTwiceLimitAnywhere | auth_user_service/core/client.py:37-49 | And dated by the increments, if these run within the bucket of their reading |
| LimiterRaces.AdmittedPassedEveryWindow | auth_user_service/core/client.py:124-149 | Every request let through has passed each window |
| LimiterRaces.InBucketRunIsAlive | auth_user_service/core/client.py:44-49 | Increments that run within the bucket of their reading never find their key expired |
| LimiterRaces.StalledIncrementExceedsLimit | auth_user_service/core/client.py:90-102 | One that stalls past the end of its bucket can, and two requests pass a limit of one |
| RateLimits.GetLimits | auth_user_service/services/api_keys.py:327-353 | One window per period with a limit, finest first, a key's own limit before its user's |
| RateLimits.OwnLimitWins | auth_user_service/services/api_keys.py:327-353 | The key's own first row for a period decides, its user's first row only when it has none, and without either there is no limit |
| RateLimits.DefaultLimits | auth_user_service/services/api_keys.py:403-415 | Exactly the periods with a positive default, finest first |
| BatchSelection.ForcedIffNoTieAtEdge | auth_user_service/services/audit.py:221-228 | An ordered, limited query has one possible answer exactly when no tie lies across the edge of the batch |
| ApiKeyPurge.KeyTable.SweepDeadKeys | auth_user_service/services/api_keys.py:455-495 | With honest deletes exactly the dead keys go and are counted; against any suppression the loop ends, stalls exactly when the last claimed full batch came back whole, and overstates its count by the deletes undone |
| ApiKeyPurge.KeyTable.PurgeDeadApiKeys | auth_user_service/services/api_keys.py:498-577 | Below the floor nothing is touched, otherwise exactly the keys revoked and untouched since the horizon, or expired before it, go, and the purge's own row records their number |
| ApiKeyPurge.KeyTable.GetActiveKey | auth_user_service/services/api_keys.py:261-286 | Finds a key exactly if its digest is the one presented, it is not revoked, and it has no expiry or one not before now |
| ApiKeyPurge.KeyWorksUntil | auth_user_service/services/api_keys.py:261-324 | Over every run of operations a created key resolves exactly until it or all its owner's keys are revoked and, if it has an expiry, up to that instant |
| ApiKeyPurge.ByIdIsForced | auth_user_service/services/api_keys.py:472-481 | Ordering by id makes every claim of the same dead keys the same set |
| ApiKeyPurge.PurgeIsUnobservable | auth_user_service/services/api_keys.py:438-577 | At every time from a purge onward, and after any later creations, revocations and uses, every presented key resolves as without it |
| ApiKeyPurge.LookupsUnchangedIff | auth_user_service/services/api_keys.py:438-452 | For any horizon, lookups at a time are unchanged exactly when no live key expires from then on and before the horizon |
| AuditPurge.AuditTable.SweepExpiredRows | auth_user_service/services/audit.py:254-288 | Removes exactly the rows older than the horizon, returns their number and never reports a stall |
| AuditPurge.AuditTable.DeleteClaimedBatch | auth_user_service/services/audit.py:232-251 | The batch goes and the guard flag is down afterwards |
| AuditPurge.AuditTable.PurgeExpiredAuditRows | auth_user_service/services/audit.py:291-362 | Below the floor nothing is touched, otherwise the sweep's result plus the purge's own row |
| AuditPurge.OwnRowSurvivesIff | auth_user_service/services/audit.py:314-320 | A purge's own row survives a later purge exactly while that purge's window reaches back to it |
| AuditPurge.StallDetectedIffNoTieAtEdge | auth_user_service/services/audit.py:270-288 | With every delete suppressed the guard is sure to end the sweep at its second claim exactly when no tie lies across the edge of the batch |
| AuditPurge.SpinFor | auth_user_service/services/audit.py:272-287 | With such a tie the sweep can go on for any number of claims |
| WriteBehind.WriteBehindIsWriteThrough | auth_user_service/main.py:75-113 | Over every interleaving of requests that read the clock and write later, and of flushes failing anywhere, the latest time written for a key stays known throughout exactly when no step loses it: a write over a newer time, a failed visit or a failed flush that nothing else holds |
| WriteBehind.OrderedWritesReachTheRow | auth_user_service/core/deps.py:404-409 | So it does when a key's writes land in the order of their times and flushes succeed; after a commit with nothing queued the row holds exactly it |
| WriteBehind.ReorderedWritesLoseTheLastUse | auth_user_service/core/deps.py:404-409 | Two overlapping requests can land in the other order, and the later time is lost for good |
| WriteBehind.StoredNeverMovesBack | auth_user_service/main.py:106-110 | In whatever order writes land, a row never moves back and never past the latest time written |
| WriteBehind.Flusher.FlushLastUsedAt | auth_user_service/main.py:92-113 | One flush empties the hash and raises each row to its queued time if that is newer |

## Left out

- ApplyEffect: sub-second blacklist coverage, because the code truncates the TTL to whole seconds.
- LeasesRecoverAndExclude: says nothing of runs in which a worker delivers past its lease while another has claimed, because the code never rechecks a lease.
- SweepExpiredRows: proved for honest deletes; with suppressed deletes the loop need not end, as `StallDetectedIffNoTieAtEdge` and `SpinFor` show.
- AllowedIffAdmitted: checks of one key made one after another; with overlapping ones which request's command comes first can differ from window to window, and `LimiterRaces.PassesIffRoomWhenInterleaved` speaks of one increment at a time.
- CounterIsReachCount: the same; `LimiterRaces.CounterIsIncrementCount` has overlapping checks.
- ParseOfEventId: headers are ASCII; Python's `int` also accepts other Unicode digits and refuses numerals of more than 4300 digits.
- LastSuperuserSurvives: self-service deletes with tokens no longer vouched for are left out, because it is false of them; the unlocked `update_user` is not a step of its runs.
- RetainedRowsRestoreThePremise: databases without the role/flag CHECK; and a request whose account is gone when it locks (a change aborts then, a deletion can at most write the tombstone of a missing account).
- SKIP LOCKED contention between concurrent sweeps: a claim sees every row.
- Stateless and hybrid modes and the version-1 status answer, which deliberately do not track access revocation.
- Token encoding, password hashing, encryption, digests and key sets: library cryptography.
- Google login, the HTTP layer, cookies, metrics, logging and settings validation.
- The login, IP, refresh and probe limiters and the anti-abuse counter: simpler repeats of the fixed window.
- API-key audiences, capabilities and the SDK's role hierarchy: only a linear order with SUPERADMIN on top is used.
- Names, e-mail, avatar and provider of an account: one opaque column no authorization decision reads.
- Heartbeat frames of the event stream, which carry neither an id nor an event.
- The audit row of each privileged action, other than the purges' own.
