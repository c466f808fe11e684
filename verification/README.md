# BOS platform: verified model of its stateful cores

A Dafny model of the parts of the BOS backend that keep state across calls, and
proofs of what they promise:

- the session and refresh-token protocol of the auth service, with logout,
  password reset, second-factor login, login lockout and access-token revocation;
- the activity columns cached on a lead;
- the SQL statement splitter, the literal escaper and the tenant seeder;
- the Redis index of webhook tokens;
- round-robin lead assignment.

## How it is modelled

**Two granularities of the token protocol.** In `AuthCalls` each service call
runs alone but may die after any of its writes: `Plan` lists a call's writes in
order, a cut call performs a prefix of them, and theorems speak of every run of
complete and cut calls from empty tables. In `RefreshInterleaving` every awaited
statement is a step and any number of refreshes interleave with each other and
with the writes of all other services. `CallRunIsInterleaving` proves that every
run of the first kind is one of the second. `AuthServices` has the repositories
(the methods of `AuthStore`, one write each) and the services as classes that
update rows in place; a ghost log ties each service to its plan, write by write
and in order.

**The same two granularities elsewhere.** Password resets, second-factor calls,
login attempts, requests on a lead's activities and webhook operations are each
modelled call by call (`AuthCalls`, `TwoFactor`, `LoginLockout`,
`LeadActivityCache`, `WebhookIndex`) and statement by statement
(`ResetInterleaving`, `TwoFactorInterleaving`, `LockoutInterleaving`,
`LeadActivityInterleaving`, `WebhookInterleaving`). What holds of whole calls and
fails of interleaved statements is stated there with its exact condition.

**Tables** are maps. Unique and foreign-key constraints are part of the writes,
so token ids and hashes need no freshness assumption: a colliding insert is
rejected, as the database does it. A call reads one clock value, except
`RequestReset` and the creation of an activity, which read two. SHA-256 stays
outside: callers pass digests, or an arbitrary function where backup codes are
hashed. Password and TOTP verification are boolean inputs. UUIDs are numbers.
Transactions are one write; a bulk update is one write.

**Imperative code** (repositories, services, loops) is modelled by classes and
methods with loops. Each is proved equal to a specification function, which the
theorems are about, and the contracts of the services also state the stored rows
and the rows left alone outright, without naming that function.

## Where the code and its documentation differ

The model follows the code.

- Refresh tokens are documented as used exactly once. That holds when calls do
  not interleave (`TokensAreSingleUse`). With interleaving two calls can rotate
  one token (`DoubleUseIsReachable`), and can do so exactly when both have read
  it before either marked it (`DoubleUseNeedsOverlap`, `OverlapAllowsDoubleUse`);
  nothing else gives two stored tokens one parent (`SharedParentNeedsOverlap`).
  What does survive interleaving is the session check (`ReuseHandlerStopsFamily`).
- Reset tokens are documented as single-use. They are when calls do not overlap
  (`ResetRowWorksOnce`). With acceptance and commit as steps, a row changes the
  password twice exactly if two calls had both accepted it before either committed
  (`RowChangesTwiceIff`), and a row that expires in between still works
  (`AcceptedRowChangesPassword`, `TwoChangesAreReachable`).
- Backup codes are documented as single-use. They are when calls do not overlap
  (`BackupCodeWorksOnce`), and in every run in which no call writes over a record
  that changed since it read it (`FreshRunIsAtomic`, `RepeatNeedsStaleWrite`). A
  spent code works again exactly if a call that read before it was spent is still
  to write (`SpentCodeWorksAgainIff`, `CodeLogsInTwice`). In the same way a pending
  login turns a second factor back on that was disabled meanwhile
  (`ComesBackOnIff`, `DisableIsUndone`).
- A lockout is documented to last 30 minutes. `lockedUntil` is stored but never
  compared, so the lock stays until something unlocks the account
  (`LockDoesNotLapse`).
- The counter is documented as 10 failures within 15 minutes. Its key lives as
  long as the lockout, from the first failure on, and two such windows can meet, so
  a stretch shorter than the lockout can see up to twice the limit less
  one, and for every limit some run does (`RejectionsInAnyStretch`,
  `BoundIsReached`); only a limit of one is never exceeded
  (`StretchesWithinLimitIff`).
- The counter is documented to have a time to live and to stop at the limit.
  Statement by statement it can pass the limit by as many attempts as are in flight
  (`CounterBound`, `BoundIsReached` and `CountReachableIff` in `LockoutInterleaving`),
  and an attempt that dies between its increment and its expiry leaves a counter
  that never lapses (`StuckCounterNeverLapses`).
- The lead's columns are documented as kept in step with its activities. They are
  when requests do not interleave (`CacheIsExact`). When they do,
  `ColumnsAreRightIff` says exactly when each is right in the end, and
  `OrderlyRunsEndExact` what suffices for all three. Five runs, each possible from
  every exact lead, show them wrong: two deletions of one activity
  (`TwoDeletionsMiscount`), a task created while a deletion recalculates
  (`StaleStoreForgetsTask`), two creations counted against the order of their clocks
  (`CountsOutOfOrder`), a creation inserted after a recalculation that followed its
  count (`LateInsertIsForgotten`), and one counted after its own deletion
  (`CountAfterDeletion`).
- `lastActivityAt` is taken from the program's clock, `createdAt` from the
  database's. `TwoClocksExactIff` says exactly when the cache is then right.
- `*` on a role is documented as all permissions. For a vertical role the code
  iterates the string, so such a role gets at most a permission called `*`
  (`StarOnVerticalRoleGrantsNothing`, `HoldsEverySeededIff`).
- Seeding "skips conflicts", but only on the slug: it fails exactly when two
  permissions to be inserted share resource and action (`SeedPermissions`).
- The Redis keys of a regenerated webhook token are documented as swapped
  atomically; they are two commands. A stored webhook is found exactly when its
  token has a key, and one without it waits for an operation that still owes the key
  (`FoundIffKeyed`). A regeneration that dies after its row write leaves its webhook
  found under neither token (`CutRegenerationHides`, `CutRegenerationIsReachable`);
  once no operation has a write left, every webhook is found
  (`QuiescentLookupIsScan`).
- The request guard checks expiry and revocation at two instants: a request that
  straddles `exp` can get through with a revoked token
  (`RevokedRequestAdmittedIff`).

## Model

| member | source | states |
|---|---|---|
| AuthTables.WriteEvolves | apps/auth-service/src/modules/auth/repositories/refresh-tokens.repository.ts:9-43 | No write of any service removes a row, changes a token's identity, or takes back a use, a revocation or a session end |
| AuthTables.WriteKeepsSound | apps/auth-service/src/modules/auth/repositories/refresh-tokens.repository.ts:9-43 | Every write keeps: unique hashes, families rooted at their id and living in one session, every parent used |
| AuthCalls.RotationEffect | apps/auth-service/src/modules/auth/services/refresh.service.ts:66-100 | A complete rotation marks the token, adds one unused child of the same family, session and user, touches the session, and changes nothing else |
| AuthCalls.RefreshEffect | apps/auth-service/src/modules/auth/services/refresh.service.ts:41-109 | What each refresh leaves, row by row: unknown, revoked and expired tokens are refused with every table as it was; a usable token whose session is closed, or whose child cannot be stored, is only marked used; reuse is reported exactly for used, unrevoked tokens, and then only the family's standing tokens are revoked and the one session ended |
| AuthCalls.LoginEffect | apps/auth-service/src/modules/auth/services/login.service.ts:119-158 | A login adds its session row and, without a pending second factor and with id and hash free, the root row; all other rows stay |
| AuthCalls.LogoutCurrentEffect | apps/auth-service/src/modules/auth/services/logout.service.ts:20-35 | A logout revokes the presented token if it stands and ends its one session; every other row stays |
| AuthCalls.LogoutAllEffect | apps/auth-service/src/modules/auth/repositories/sessions.repository.ts:32-37 | A logout everywhere revokes exactly the user's standing tokens and ends exactly the user's open sessions; other users' rows and rows already revoked or ended stay |
| AuthCalls.DeactivateEffect | apps/crm-core/src/modules/staff/repositories/staff.repository.ts:359-404 | A deactivation ends exactly the user's open sessions in the tenant and revokes exactly the standing tokens on them; rows of other tenants and users stay |
| AuthCalls.ResetPasswordEffect | apps/auth-service/src/modules/auth/services/password-reset.service.ts:108-147 | A reset of a redeemable row consumes that row, sets its user's password and purges that user only; any other reset changes nothing |
| AuthCalls.RotationKeepsGood | apps/auth-service/src/modules/auth/services/refresh.service.ts:66-98 | Cut after any of its writes, a rotation keeps every family one chain, because the old token is burned first |
| AuthCalls.RunKeepsGood | apps/auth-service/src/modules/auth/services/refresh.service.ts:52-98 | Every run of complete or cut calls keeps every family one parent chain with all tokens but the last used |
| AuthCalls.ReachableFamiliesAreChains | apps/auth-service/src/modules/auth/services/login.service.ts:149-158 | In every reachable state the tokens of a family are one parent chain from the root whose id is the family id |
| AuthCalls.TokensAreSingleUse | apps/auth-service/src/modules/auth/services/refresh.service.ts:25-28 | In every reachable state of non-interleaved calls no token has two children and a family has at most one unused token |
| AuthCalls.DeadFamilyStaysDead | apps/auth-service/src/modules/auth/services/refresh.service.ts:48-50 | A family whose tokens are all revoked gains no member in any continuation and stays revoked |
| AuthCalls.ReplayRevokesAndEnds | apps/auth-service/src/modules/auth/services/refresh.service.ts:52-60 | Replaying a used, unrevoked token is reported as reuse, revokes the whole family and ends its session |
| AuthCalls.ReplayKillsFamilyForGood | apps/auth-service/src/modules/auth/services/refresh.service.ts:48-60 | After a replay, in every continuation, the family gains no token, its session stays ended, and each of its tokens is refused without a write |
| AuthCalls.PurgeRevokesAndEnds | apps/auth-service/src/modules/auth/services/logout.service.ts:37-43 | A complete logout everywhere or password reset leaves all the user's tokens revoked and sessions ended |
| AuthCalls.PurgeIsForGood | apps/auth-service/src/modules/auth/services/password-reset.service.ts:123-147 | After such a purge, in every continuation, no token the user held is accepted and no session the user had supports a rotation, also of tokens inserted later |
| AuthCalls.PendingSecondFactorOutlivesPurge | apps/auth-service/src/modules/auth/services/two-factor.service.ts:190-198 | A pending second-factor login can still insert an unrevoked token on a session the purge ended |
| AuthCalls.LogoutIsForGood | apps/auth-service/src/modules/auth/services/logout.service.ts:20-35 | After a complete logout, in every continuation, the presented token is refused and no token of the session rotates |
| AuthCalls.AtMostOneResetAcceptable | apps/auth-service/src/modules/auth/services/password-reset.service.ts:68-80 | With a clock that never goes back, at every moment at most one reset row per user is unused and unexpired |
| AuthCalls.ResetRowWorksOnce | apps/auth-service/src/modules/auth/services/password-reset.service.ts:108-134 | Over any run of non-interleaved calls a reset row changes the password at most once |
| ResetInterleaving.AcceptedRowChangesPassword | apps/auth-service/src/modules/auth/services/password-reset.service.ts:121-134 | Under every interleaving an accepted row changes its user's password whenever the call commits, expired, superseded or used since; no other step changes a password |
| ResetInterleaving.RowChangesTwiceIff | apps/auth-service/src/modules/auth/services/password-reset.service.ts:108-134 | In every run that lets both calls end, a row has changed the password twice if and only if at some moment both had accepted it and neither had committed |
| ResetInterleaving.OverlapAllowsTwoChanges | apps/auth-service/src/modules/auth/services/password-reset.service.ts:123-134 | From every such moment both can commit, at any instants: the password is the first's, then the second's |
| ResetInterleaving.TwoChangesAreReachable | apps/auth-service/src/modules/auth/services/password-reset.service.ts:117-134 | A run in which an expired row changes the password twice |
| ResetInterleaving.AdjacentStepsAreTheCall | apps/auth-service/src/modules/auth/services/password-reset.service.ts:108-147 | An acceptance followed at once by its commit is the atomic call |
| AuthServices.RefreshService.Execute | apps/auth-service/src/modules/auth/services/refresh.service.ts:41-109 | On every path leaves the tables, row by row, as `RefreshEffect` says; refused silently it writes nothing, else it writes in the order of its plan |
| AuthServices.LoginService.OpenSession | apps/auth-service/src/modules/auth/services/login.service.ts:119-158 | Stores the open session, and without a pending second factor the root token exactly if its id and hash are free; all other rows stay |
| AuthServices.LogoutService.LogoutCurrent | apps/auth-service/src/modules/auth/services/logout.service.ts:27-34 | Revokes the presented token if it stands, then ends the one session; all other tokens and sessions stay as they were |
| AuthServices.LogoutService.LogoutAll | apps/auth-service/src/modules/auth/services/logout.service.ts:37-39 | Revokes exactly the user's standing tokens, then ends exactly the user's open sessions; what was revoked or ended before, and all rows of other users, stay |
| AuthServices.PasswordResetService.RequestReset | apps/auth-service/src/modules/auth/services/password-reset.service.ts:64-80 | Stores the row with the configured lifetime in seconds and expires the user's unused rows; used rows and other users' rows stay |
| AuthServices.PasswordResetService.ResetPassword | apps/auth-service/src/modules/auth/services/password-reset.service.ts:108-147 | Goes through exactly if the row is there, unused and unexpired; then consumes that row, sets that user's password, and revokes and ends that user's tokens and sessions only |
| RefreshInterleaving.ExecKeepsInv | apps/auth-service/src/modules/auth/services/refresh.service.ts:41-109 | Every interleaving keeps families in one session with used parents, and every call's copy of its row true to the table |
| RefreshInterleaving.EndedSessionSupportsNoRefresh | apps/auth-service/src/modules/auth/services/refresh.service.ts:70-73 | Once a session has ended, no call that has not passed the session check ever passes it, under every interleaving |
| RefreshInterleaving.ReuseHandlerStopsFamily | apps/auth-service/src/modules/auth/services/refresh.service.ts:52-73 | Once a reuse handler is done, no refresh on any token of the family, also one inserted after the revocation, passes the session check |
| RefreshInterleaving.DoubleUseNeedsOverlap | apps/auth-service/src/modules/auth/services/refresh.service.ts:43-68 | Two calls go through with one token only if at some moment both had read it unused and neither had marked it |
| RefreshInterleaving.SharedParentNeedsOverlap | apps/auth-service/src/modules/auth/services/refresh.service.ts:90-98 | Two stored tokens have one parent only if two calls inserted them that had both read it unused before either marked it |
| RefreshInterleaving.OverlapAllowsDoubleUse | apps/auth-service/src/modules/auth/services/refresh.service.ts:66-98 | From every such moment on an open session both calls can go through and leave two children |
| RefreshInterleaving.DoubleUseIsReachable | apps/auth-service/src/modules/auth/services/refresh.service.ts:25-28 | A run in which two interleaved calls rotate the same token |
| RefreshInterleaving.UnrevokedChildOutlivesReuseHandler | apps/auth-service/src/modules/auth/services/refresh.service.ts:57-58 | A child inserted between the family revocation and the session end is unrevoked when the handler is done |
| RefreshInterleaving.OnlyLaterChildrenEscapeRevocation | apps/auth-service/src/modules/auth/services/refresh.service.ts:57-58 | Whatever runs after the revocation step, a family token that is unrevoked later is a child that was not in the table when the step ran |
| RefreshInterleaving.UnrevokedChildIsReachable | apps/auth-service/src/modules/auth/services/refresh.service.ts:52-98 | A run that reaches that state |
| RefreshInterleaving.CallRunIsInterleaving | apps/auth-service/src/modules/auth/services/refresh.service.ts:41-109 | Every run of complete and cut calls has the same effect as some interleaving of single steps, in which a refresh is made of its own steps only |
| RefreshInterleaving.UninterruptedRefreshIsTheCall | apps/auth-service/src/modules/auth/services/refresh.service.ts:41-109 | A refresh whose steps nothing comes between leaves the tables and the answer of the call as one |
| AccessRevocation.NoGapIff | libs/auth-client/src/services/token-revocation.service.ts:19-26 | A revocation key leaves no instant uncovered if and only if it outlives `exp` |
| AccessRevocation.NoRevocationGap | apps/auth-service/src/modules/auth/services/token-issuer.service.ts:88-108 | A revoked tenant token is at every later instant covered by a live key or expired, whatever is revoked meanwhile; a request admitted with it straddles `exp` |
| AccessRevocation.RevokedRequestAdmittedIff | libs/auth-client/src/guards/jwt-auth.guard.ts:66-71 | The guard admits a request with a revoked token exactly if it verified before `exp` and looked the key up after Redis dropped it, which is not before `exp` |
| AccessRevocation.TokenRevocationService.Revoke | libs/auth-client/src/services/token-revocation.service.ts:23-26 | Sets the key to drop after the given seconds, at least one, and leaves the others alone |
| AccessRevocation.TokenRevocationService.IsRevoked | libs/auth-client/src/services/token-revocation.service.ts:32-36 | Answers whether the key is still there |
| AccessRevocation.TokenRevocationService.RevokeMany | libs/auth-client/src/services/token-revocation.service.ts:42-51 | Sets exactly the listed keys |
| LoginLockout.AssertUserCanLogIn | apps/auth-service/src/modules/auth/services/login.service.ts:173-191 | Lets through exactly the active accounts and answers each other status with its own refusal |
| LoginLockout.LoginAttempts.Execute | apps/auth-service/src/modules/auth/services/login.service.ts:82-107 | At the limit any password is refused and locks; below it a right one clears the counter, a wrong one counts, with the window's end set only by the first, and locks exactly if the new count reaches the limit; a lock stores its end; an account that is not active is left as it is |
| LoginLockout.LimitLocksOut | apps/auth-service/src/modules/auth/services/login.service.ts:100-102 | Once the window holds the limit of rejections, every later login answers locked, right password or not, at any time |
| LoginLockout.AttemptTracks | apps/auth-service/src/modules/auth/services/login.service.ts:84-107 | After an attempt the stored key is still the rejections of the current window, at most the limit, with the window's end |
| LoginLockout.CounterTracksHistory | apps/auth-service/src/modules/auth/services/login.service.ts:84-107 | In every run, whatever unlocks happen, the counter is the rejections since the window opened and never exceeds the limit |
| LoginLockout.WindowBound | apps/auth-service/src/modules/auth/services/login.service.ts:86-99 | In every run, as long as no window opens, no more passwords than the limit are rejected, whatever unlocks happen |
| LoginLockout.RejectionsInAnyStretch | apps/auth-service/src/modules/auth/services/login.service.ts:84-104 | In every run a stretch shorter than the lockout without an accepted password rejects at most twice the limit less one, and more than the limit exactly if a window opens in it and the gains of the old and the new counter together exceed it |
| LoginLockout.BoundIsReached | apps/auth-service/src/modules/auth/services/login.service.ts:84-104 | For every limit a run reaches twice the limit less one |
| LoginLockout.StretchesWithinLimitIff | apps/auth-service/src/modules/auth/services/login.service.ts:86-99 | No run has a short stretch above the limit if and only if the limit is one or the lockout empty |
| LoginLockout.LockDoesNotLapse | apps/auth-service/src/modules/auth/services/login.service.ts:182-183 | Logins alone never get past a lock, also after `lockedUntil` |
| LockoutInterleaving.CounterBound | apps/auth-service/src/modules/auth/services/login.service.ts:84-104 | If never more than m attempts are between the check and the increment, the counter stays below the limit plus m |
| LockoutInterleaving.BoundIsReached | apps/auth-service/src/modules/auth/services/login.service.ts:84-104 | For every limit and every m some run reaches one below that |
| LockoutInterleaving.CountReachableIff | apps/auth-service/src/modules/auth/services/login.service.ts:84-104 | At or past the limit, the counter can get to n before the key is lost exactly if enough attempts are in flight |
| LockoutInterleaving.ExpiryIsOwed | apps/auth-service/src/modules/auth/services/login.service.ts:96-99 | In every reachable state a counter without expiry is one whose expiry some attempt has still to set |
| LockoutInterleaving.StuckCounterNeverLapses | apps/auth-service/src/modules/auth/services/login.service.ts:96-99 | If that attempt dies, the counter never lapses: without a right password it only grows |
| LockoutInterleaving.StuckCounterIsReachable | apps/auth-service/src/modules/auth/services/login.service.ts:96-99 | A run that leaves such a counter |
| LockoutInterleaving.UninterruptedAttemptIsTheCall | apps/auth-service/src/modules/auth/services/login.service.ts:82-107 | An attempt whose steps nothing comes between leaves the status and the count of the attempt as one, and no key without expiry |
| TwoFactor.RunKeepsInv | apps/auth-service/src/modules/auth/services/two-factor.service.ts:61-137 | Every run keeps: enabled implies a secret, spent and stored codes together at most ten, no spent code stored or repeated |
| TwoFactor.BackupLoginsAreBounded | apps/auth-service/src/modules/auth/services/two-factor.service.ts:159-176 | Since codes were last installed at most ten backup logins happened, no hash twice |
| TwoFactor.Without | apps/auth-service/src/modules/auth/services/two-factor.service.ts:168-175 | Consuming a code removes every copy of its hash, keeps all others, and strictly shrinks the list |
| TwoFactor.BackupCodeWorksOnce | apps/auth-service/src/modules/auth/services/two-factor.service.ts:147-176 | A code that logged in does not again, in any letter case, until codes are installed anew |
| TwoFactor.LetterCaseIsIgnored | apps/auth-service/src/modules/auth/services/two-factor.service.ts:276-278 | Codes are upper-cased alike if and only if they differ at most in letter case |
| TwoFactorInterleaving.ExecKeepsInv | apps/auth-service/src/modules/auth/services/two-factor.service.ts:61-137 | Under every interleaving of reads and writes: 2FA on, or any code stored, implies a secret, and at most ten codes are stored |
| TwoFactorInterleaving.FreshRunIsAtomic | apps/auth-service/src/modules/auth/services/two-factor.service.ts:147-176 | An interleaving in which no call writes over a record that changed since its read leaves what the same calls leave one after the other |
| TwoFactorInterleaving.AdjacentStepsAreTheCall | apps/auth-service/src/modules/auth/services/two-factor.service.ts:147-176 | A read followed at once by its write is the call as one |
| TwoFactorInterleaving.RepeatNeedsStaleWrite | apps/auth-service/src/modules/auth/services/two-factor.service.ts:153-176 | A code logs in twice since the last installation only if some call wrote over a changed record |
| TwoFactorInterleaving.StaleNeedsWriteBetween | apps/auth-service/src/modules/auth/services/two-factor.service.ts:153-176 | A pending call's copy has gone stale only because another call wrote between its read and now |
| TwoFactorInterleaving.CodeWorksIff | apps/auth-service/src/modules/auth/services/two-factor.service.ts:153-176 | In every reachable state a code can log in before the next installation exactly if its hash is stored or a call that read it is still to write |
| TwoFactorInterleaving.SpentCodeWorksAgainIff | apps/auth-service/src/modules/auth/services/two-factor.service.ts:159-176 | After a run without stale writes a spent code can log in again exactly if a call that read before it was spent is still to write |
| TwoFactorInterleaving.CodeLogsInTwice | apps/auth-service/src/modules/auth/services/two-factor.service.ts:147-176 | Whatever ten codes are issued, each can log in twice in an interleaved run |
| TwoFactorInterleaving.ComesBackOnIff | apps/auth-service/src/modules/auth/services/two-factor.service.ts:124-137 | With 2FA off it comes back on without a new setup exactly if a call that will store it on is pending |
| TwoFactorInterleaving.DisableIsUndone | apps/auth-service/src/modules/auth/services/two-factor.service.ts:135-176 | A run in which a login that read before a completed disable turns 2FA back on |
| TwoFactor.TwoFactorService.BeginSetup | apps/auth-service/src/modules/auth/services/two-factor.service.ts:61-93 | Unless 2FA is on, stores the secret and the hashes of the codes with 2FA off; otherwise changes nothing |
| TwoFactor.TwoFactorService.ConfirmSetup | apps/auth-service/src/modules/auth/services/two-factor.service.ts:99-119 | Enables exactly if 2FA is off, a secret is stored and the code is right, keeping secret and codes; otherwise changes nothing |
| TwoFactor.TwoFactorService.Disable | apps/auth-service/src/modules/auth/services/two-factor.service.ts:124-137 | Clears the record exactly if 2FA is on and a TOTP or backup code is right; otherwise changes nothing |
| TwoFactor.TwoFactorService.VerifyLogin | apps/auth-service/src/modules/auth/services/two-factor.service.ts:147-198 | Gets past the code exactly if 2FA is on with a secret and the code is a right TOTP code or a stored backup code; refused, it changes nothing; else it takes every copy of the used backup hash and inserts the root token, and if the table rejects that, fails with the code spent |
| TwoFactor.TwoFactorService.RegenerateBackupCodes | apps/auth-service/src/modules/auth/services/two-factor.service.ts:215-234 | Replaces the codes by the hashes of the new ones exactly if 2FA is on with a secret and the TOTP code is right; otherwise changes nothing |
| LeadActivityCache.CacheIsExact | apps/crm-core/src/modules/lead-activities/repositories/lead-activity.repository.ts:13-150 | In every state of create, update and delete runs the three columns of every lead are what its live activities say |
| LeadActivityCache.TwoClocksExactIff | apps/crm-core/src/modules/lead-activities/repositories/lead-activity.repository.ts:20-51 | With two clocks a creation leaves `lastActivityAt` right if and only if the program's reading is the later of the database's and the newest live creation |
| LeadActivityCache.EveryInterleavingAgrees | apps/crm-core/src/modules/lead-activities/repositories/lead-activity.repository.ts:137-149 | Every interleaving of the three parallel parts of a deletion ends in the same row, the one recomputed from scratch |
| LeadActivityInterleaving.ColumnsAreRightIff | apps/crm-core/src/modules/lead-activities/repositories/lead-activity.repository.ts:13-150 | Whenever all interleaved requests have ended: the count is off by the deletions that stamped an already deleted activity; `nextFollowUpAt` is right exactly if the least due time is the same at the query and the store of the last recalculation; `lastActivityAt` exactly if the greatest creation time is, with announced creations, or the last store counted a creation that none is later than and that is not deleted |
| LeadActivityInterleaving.FollowUpStoreRightIff | apps/crm-core/src/modules/lead-activities/repositories/lead-activity.repository.ts:220-237 | A recalculation stores the right `nextFollowUpAt` if and only if the least due time is as at its query |
| LeadActivityInterleaving.ActivityStoreRightIff | apps/crm-core/src/modules/lead-activities/repositories/lead-activity.repository.ts:48-51 | A count stores the right `lastActivityAt` if and only if no creation the lead accounts for is later and its own is not deleted; a recalculation, if and only if the greatest creation time at its query is still the greatest |
| LeadActivityInterleaving.OrderlyRunsEndExact | apps/crm-core/src/modules/lead-activities/repositories/lead-activity.repository.ts:13-150 | All three columns end right if no deletion stamps a deleted activity, creations are counted in clock order and before their deletion, and no recalculation is disturbed or stores while a creation is announced |
| LeadActivityInterleaving.TwoDeletionsMiscount | apps/crm-core/src/modules/lead-activities/services/lead-activity.service.ts:70-78 | From every exact state, two overlapping deletions of one activity leave the count one too low |
| LeadActivityInterleaving.StaleStoreForgetsTask | apps/crm-core/src/modules/lead-activities/repositories/lead-activity.repository.ts:137-149 | From every state, a deletion overlapping the creation of the soonest task leaves `nextFollowUpAt` without it |
| LeadActivityInterleaving.CountsOutOfOrder | apps/crm-core/src/modules/lead-activities/repositories/lead-activity.repository.ts:22-53 | From every state, two creations counted against the order of their clocks leave the earlier time |
| LeadActivityInterleaving.LateInsertIsForgotten | apps/crm-core/src/modules/lead-activities/repositories/lead-activity.repository.ts:22-53 | From every state, a creation counted before and inserted after an undisturbed recalculation is missing from `lastActivityAt` |
| LeadActivityInterleaving.CountAfterDeletion | apps/crm-core/src/modules/lead-activities/repositories/lead-activity.repository.ts:22-53 | From every state, a creation counted after its activity was inserted and deleted brings its time back |
| LeadActivityInterleaving.UndisturbedCreation | apps/crm-core/src/modules/lead-activities/repositories/lead-activity.repository.ts:13-60 | A creation whose steps nothing comes between leaves the activities and the lead of the call as one |
| LeadActivityInterleaving.UndisturbedUpdate | apps/crm-core/src/modules/lead-activities/repositories/lead-activity.repository.ts:98-131 | So does an update |
| LeadActivityInterleaving.UndisturbedDeletion | apps/crm-core/src/modules/lead-activities/repositories/lead-activity.repository.ts:133-150 | So does a deletion |
| LeadActivityCache.EarliestIsLeast | apps/crm-core/src/modules/lead-activities/repositories/lead-activity.repository.ts:222-232 | A first row of the ordered query holds the least due time of the live open tasks, and there is one if there are any |
| LeadActivityCache.LatestIsGreatest | apps/crm-core/src/modules/lead-activities/repositories/lead-activity.repository.ts:241-245 | A first row of the ordered query holds the greatest live creation time, and there is one if there are any |
| LeadActivityCache.LeadActivityRepository.RecalcNextFollowUp | apps/crm-core/src/modules/lead-activities/repositories/lead-activity.repository.ts:220-237 | Sets the column to the soonest due time of live pending or started tasks, or to nothing if there are none; all else stays |
| LeadActivityCache.LeadActivityRepository.RecalcLastActivityAt | apps/crm-core/src/modules/lead-activities/repositories/lead-activity.repository.ts:239-250 | Sets the column to the newest live creation time, or to nothing if there are none; all else stays |
| LeadActivityCache.LeadActivityRepository.Create | apps/crm-core/src/modules/lead-activities/repositories/lead-activity.repository.ts:13-60 | Goes through exactly if the lead stands and a task has a due time; then adds the stated activity, a task as pending, counts it, takes the program's clock as last activity and, for a task, the soonest due time; otherwise changes nothing |
| LeadActivityCache.LeadActivityRepository.Update | apps/crm-core/src/modules/lead-activities/repositories/lead-activity.repository.ts:98-131 | Goes through exactly for a live activity of the lead; sets due time and status exactly as sent, and if either was sent stores the soonest due time |
| LeadActivityCache.LeadActivityRepository.SoftDelete | apps/crm-core/src/modules/lead-activities/repositories/lead-activity.repository.ts:133-150 | Goes through exactly for a live activity of the lead; stamps it, lowers the count by one and stores newest creation and soonest due time |
| LeadActivityCache.LeadActivityRepository.Summarise | apps/crm-core/src/modules/lead-activities/repositories/lead-activity.repository.ts:167-180 | The total over the groups is the number of live activities, so the touchpoint count of an exact row |
| SqlSplitter.SplitSqlStatements | libs/database/src/services/tenant-schema-manager.service.ts:264-294 | The loop yields exactly the statements that the following rows characterise |
| SqlSplitter.LinesAreExact | libs/database/src/services/tenant-schema-manager.service.ts:266 | The lines of a text are what lies between its newlines, and only that |
| SqlSplitter.CommentIff | libs/database/src/services/tenant-schema-manager.service.ts:267 | A line is a comment if and only if two dashes follow its leading blanks |
| SqlSplitter.TrimTakesBlanks | libs/database/src/services/tenant-schema-manager.service.ts:282 | Trimming takes blanks off both ends, all of them and nothing else |
| SqlSplitter.LinesAreKeptSingly | libs/database/src/services/tenant-schema-manager.service.ts:267 | Each line is dropped or kept by itself: dropped if and only if it is a comment, whatever is around it |
| SqlSplitter.CommentLineChangesNothing | libs/database/src/services/tenant-schema-manager.service.ts:265-268 | A comment line put before a text, after it or between any two of its lines changes nothing |
| SqlSplitter.PiecesAreACut | libs/database/src/services/tenant-schema-manager.service.ts:270-291 | The untrimmed pieces with their semicolons put back are the text, and no piece has a semicolon at even parity or, but for the last, ends inside a block |
| SqlSplitter.CutIsUnique | libs/database/src/services/tenant-schema-manager.service.ts:275-289 | A text has only one such cut |
| SqlSplitter.ScannerIsExact | libs/database/src/services/tenant-schema-manager.service.ts:265-293 | The scanner's pieces are exactly the cut of the comment-stripped text at the semicolons at even parity |
| SqlSplitter.SplitUndoesJoin | libs/database/src/services/tenant-schema-manager.service.ts:258-294 | Splitting a joined list of well-formed statements gives the list back |
| SqlSplitter.SplitReadsScript | libs/database/src/services/tenant-schema-manager.service.ts:258-294 | A script of well-formed statements with any comment lines before, between and after them splits to exactly those statements in order |
| SqlLiteral.LiteralReadsBackIff | libs/database/src/services/tenant-schema-manager.service.ts:308-310 | An escaped literal reads back as its value and ends at its own quote if and only if no quote follows |
| SqlLiteral.EscIsInjective | libs/database/src/services/tenant-schema-manager.service.ts:308-310 | Different values have different literals |
| SqlLiteral.PermissionRowReadsBack | libs/database/src/services/tenant-schema-manager.service.ts:199-206 | A permission's insert reads back with exactly its columns and texts, whatever the texts hold |
| SqlLiteral.RoleRowReadsBack | libs/database/src/services/tenant-schema-manager.service.ts:216-223 | So does a role's, with its vertical or `NULL` |
| TenantSeeder.TenantSchema.SeedPermissions | libs/database/src/services/tenant-schema-manager.service.ts:197-207 | On an empty table goes through if and only if the seeds do not clash, and then holds the first seed of each slug |
| TenantSeeder.TenantSchema.SeedRoles | libs/database/src/services/tenant-schema-manager.service.ts:210-224 | Adds for each declared slug that is not taken the first role declared with it, as it is, and keeps those that were there |
| TenantSeeder.TenantSchema.GrantRole | libs/database/src/services/tenant-schema-manager.service.ts:233-241 | Adds exactly the role's pairs whose rows exist |
| TenantSeeder.TenantSchema.SeedGrants | libs/database/src/services/tenant-schema-manager.service.ts:226-255 | Adds exactly the declared pairs whose rows exist |
| TenantSeeder.TenantSchema.SeedTenantDefaults | libs/database/src/services/tenant-schema-manager.service.ts:189-256 | On an empty schema the permissions and roles are the first declared of each slug, and the grants are the declared pairs restricted to seeded permissions, so exactly the roles a core seed declares `*` or whose lists name every permission hold them all; seeding again changes nothing |
| TenantSeeder.HoldsEverySeededIff | libs/database/src/services/tenant-schema-manager.service.ts:226-255 | After seeding an empty schema a role holds every seeded permission exactly if a core role of its slug is declared `*` or its lists name all of them |
| TenantSeeder.StarOnVerticalRoleGrantsNothing | libs/database/src/services/tenant-schema-manager.service.ts:244-255 | A role only the vertical declares, as `*`, ends up with at most the permission whose slug is `*` |
| WebhookIndex.EntrySurvivesSplit | apps/crm-core/src/modules/webhooks/services/lead-webhook.service.ts:80-81 | Tenant and schema survive the entry and its split if and only if neither holds a bar |
| WebhookIndex.ResolveIsSound | apps/crm-core/src/modules/webhooks/services/lead-webhook.service.ts:71-88 | Whatever operation stopped where, a resolved token is an active webhook with that token in that tenant's own schema |
| WebhookIndex.OpKeepsIndexed | apps/crm-core/src/modules/webhooks/services/lead-webhook.service.ts:25-64 | A complete operation with a fresh token keeps every stored webhook indexed under its own tenant |
| WebhookIndex.ResolveRefinesScan | apps/crm-core/src/modules/webhooks/services/lead-webhook.service.ts:71-88 | When all operations complete, the lookup answers exactly as a scan of all tenant schemas |
| WebhookInterleaving.LookupIsSound | apps/crm-core/src/modules/webhooks/services/lead-webhook.service.ts:25-88 | However operations interleave, also between the two reads of a lookup, its answer is an active webhook with that token in that tenant's own schema when the table is read |
| WebhookInterleaving.FoundIffKeyed | apps/crm-core/src/modules/webhooks/services/lead-webhook.service.ts:25-88 | In every reachable state, also after operations that died, a stored active webhook is found exactly if its token has a key; if not, an operation past its row write still owes that key with the right entry |
| WebhookInterleaving.QuiescentLookupIsScan | apps/crm-core/src/modules/webhooks/services/lead-webhook.service.ts:25-88 | Once no operation has a write left, however they interleaved and whichever writes were rejected, the lookup answers exactly as the scan |
| WebhookInterleaving.CutRegenerationHides | apps/crm-core/src/modules/webhooks/services/lead-webhook.service.ts:49-64 | A regeneration that dies after its row write hides its webhook from the lookup under both tokens, while the scan finds it |
| WebhookInterleaving.CutRegenerationIsReachable | apps/crm-core/src/modules/webhooks/services/lead-webhook.service.ts:49-64 | A run that ends so |
| WebhookInterleaving.UndisturbedOpIsTheCall | apps/crm-core/src/modules/webhooks/services/lead-webhook.service.ts:25-64 | An operation whose writes nothing comes between leaves the state of the call as one |
| WebhookIndex.LeadWebhookService.CreateWebhook | apps/crm-core/src/modules/webhooks/services/lead-webhook.service.ts:25-32 | For a known tenant and a free id and token stores an active webhook and then its key with tenant and schema; otherwise changes nothing |
| WebhookIndex.LeadWebhookService.UpdateWebhook | apps/crm-core/src/modules/webhooks/services/lead-webhook.service.ts:34-39 | Sets whether a stored webhook is active and nothing else; refused exactly if it is not stored |
| WebhookIndex.LeadWebhookService.DeleteWebhook | apps/crm-core/src/modules/webhooks/services/lead-webhook.service.ts:41-47 | Removes a stored webhook, then its key, and nothing else; refused exactly if it is not stored |
| WebhookIndex.LeadWebhookService.RegenerateToken | apps/crm-core/src/modules/webhooks/services/lead-webhook.service.ts:49-64 | Gives a stored webhook the new token, then sets the new key and removes the old one in either order; nothing else changes |
| WebhookIndex.LeadWebhookService.Resolve | apps/crm-core/src/modules/webhooks/services/lead-webhook.service.ts:71-88 | Answers the lookup, and whatever it answers the scan would find |
| RoundRobin.AgentsAreTheEligibleUsers | apps/crm-core/src/modules/lead-assignment/repositories/lead-assignment-config.repository.ts:36-55 | The agents are strictly increasing by user id and exactly the eligible users |
| RoundRobin.ConsecutiveValuesAreFair | apps/crm-core/src/modules/lead-assignment/processors/lead-assignment.processor.ts:57-60 | Over any k consecutive counter values each of n agents is chosen k/n times, rounded down or up |
| RoundRobin.WorkersShareFairly | apps/crm-core/src/modules/lead-assignment/processors/lead-assignment.processor.ts:46-60 | In every state interleaved workers reach, each agent was selected for a fair share of the drawn jobs |
| RoundRobin.LeadsAreOwnedFairly | apps/crm-core/src/modules/lead-assignment/processors/lead-assignment.processor.ts:46-67 | No agent ever owns more than the larger share, and once every drawn job is written each owns a fair share of the leads |
| RoundRobin.AnnouncedToOwnerOnce | apps/crm-core/src/modules/lead-assignment/processors/lead-assignment.processor.ts:62-80 | However workers interleave a lead is announced at most once, to the agent who owns it, and every job that has ended has announced its lead |
| RoundRobin.UndisturbedJobIsTheCall | apps/crm-core/src/modules/lead-assignment/processors/lead-assignment.processor.ts:57-80 | The steps of one job after another leave the owner and announcement of the call as one |
| RoundRobin.LeadAssignmentProcessor.HandleLeadCreated | apps/crm-core/src/modules/lead-assignment/processors/lead-assignment.processor.ts:37-83 | Assigns and announces the agent at the position of the old counter value modulo the number of agents; moves only the counter if the lead is gone; changes nothing without an active configuration, a role or an agent |

## Left out

- Controllers, modules, request validation, logging, mail templates, queues, health and configuration: no state of their own.
- JWT signing, argon2, SHA-256 and the TOTP computation: inputs or arbitrary functions.
- The checks of a login after the password (active membership) and of an invite: they decide whether the session writes happen, not what they are.
- Deletion of users, sessions or tenants: no service in the modelled code deletes those rows.
- AuthServices.LoginService.OpenSession: models the session and token writes of login and invite acceptance; `recordLogin` and the user columns it stamps are not modelled.
- RoundRobin.WorkersShareFairly: models a fixed list of agents and one job per lead; a job that the queue runs again after a failure draws a second value.
- TwoFactor.TwoFactorService.VerifyLogin: `recordLogin` and the user columns it stamps are not modelled.
- LeadActivityCache.LeadActivityRepository.SoftDelete: performs its three parallel parts in one order; `EveryInterleavingAgrees` and `LeadActivityInterleaving` cover the other orders.
- LeadActivityCache.LeadActivityRepository.Create: performs its two parallel writes in one order; `LeadActivityInterleaving` covers both.
- WebhookInterleaving.QuiescentLookupIsScan: generated tokens are new to tables, keys and operations under way.
- LeadActivityInterleaving.ColumnsAreRightIff: one creation reads one clock; `TwoClocksExactIff` says what two clocks change. A request that dies half-way is not at its end, so the columns are then not claimed.
- SqlLiteral.RoleRowReadsBack: the scope type is written without escaping; the two values it has hold no quote.
- Text columns of activities, sessions and webhooks that are only copied, and `updatedAt`.
- TwoFactor.LetterCaseIsIgnored: upper-casing is modelled on the letters a to z; the codes handed out hold no others.
- SqlSplitter.SplitSqlStatements: text is a sequence of Unicode characters rather than of UTF-16 units.
- `applyMigrationToAllTenants` and schema creation: loops over the splitter's output whose effect is the database's.
- The caches of tenant clients and resolved permissions: behaviour of a library that is not part of this model.
