# Remote-access platform: a verified model

This project models the stateful cores of a remote-access platform written in Go and proves what
they keep over whole runs. Tables, Redis and the file system are maps held in class fields; time
is an integer passed to each step; cryptography is symbolic; random values are parameters, and
fresh where the original draws them at random.

Most modules have the same three parts. A value-level `Step` or specification function says what
one call, or one statement of a call, does. A class holds the mutable fields and the imperative
code, each method proved equal to the specification. Lemmas then say, without going through that
specification's own wording, what each call answers and changes, and speak about every run, or every
interleaving, of steps.

| file | what it models |
|---|---|
| `RefreshTokens.dfy` | refresh-token families: rotation, reuse detection, revocation |
| `RateLimit.dfy`, `Lockout.dfy` | the attempt limiter on expiring counters; account lockout |
| `Vault.dfy` | master-key wrapping across registration, resets and sign-ins |
| `Sql.dfy`, `FilterConditions.dfy` | three-valued SQL conditions with placeholders; conditions and their compilation |
| `AuditLogs.dfy`, `DbAuditLogs.dfy`, `RecordingAccess.dfy`, `CheckoutList.dfy` | the four filter builders |
| `AuditListings.dfy`, `Paging.dfy`, `Arrangements.dfy` | the listings composed from them; pages of separately ordered queries |
| `Checkouts.dfy`, `Approvers.dfy`, `CheckoutInbox.dfy` | the load-then-write checkout workflow, interleaved; who may approve; what an approver sees |
| `Firewall.dfy`, `SqlComments.dfy` | firewall policy resolution; the comment stripper before classification |
| `TilePaths.dfy`, `TileCache.dfy` | tile names; the single-flight cache, interleaved |
| `Forwarder.dfy`, `Reopening.dfy`, `Reconnect.dfy`, `Framing.dfy` | the tunnel agent: stream forwarder, streams opened again, reconnect loop, line framing |
| `IpRanges.dfy` | CIDR containment, the allowlist, forbidden connection targets |
| `Jobs.dfy` | the conversion job store and its workers |
| `Arithmetic.dfy`, `Options.dfy`, `Texts.dfy`, `StringOrder.dfy` | shared helpers |

`dafny verify dfyconfig.toml` checks the whole project.

## Where the code falls short of its intent

Each of these is proved, together with the exact condition under which the intent is met or, where the code never
meets it, with what it does instead.

- After a reset without the recovery key, signing in with the new password fails, because the vault
  session is opened even when the row says that the vault needs recovery: it works if and only if
  that password is also the one the vault is wrapped under, a passkey is enrolled, or sessions are
  not cached (`Vault.RightPasswordSignsInIff`).
- Each page of a listing is a query of its own and the order has no tie-breaker, so a row can appear on two
  pages and another on none: reading all pages gives each row exactly once, however ties are broken, if and
  only if no page boundary falls between rows of equal sort key (`AuditListings.CallerPagesCoverIff`).
- The checkout list admits a status in any letter case but casts it to the enum as it stands: the list runs
  if and only if the status is empty or spelled exactly as a label (`CheckoutList.ListFilterMeaning`).
- Search terms are not escaped: the search is literal containment if and only if the term has no
  pattern character (`Sql.SearchIsContainmentIffPlain`).
- The duplicate check of a checkout request and its insert are separate statements: with checks that stand,
  requests stay unique if and only if no two creates of the same request are in flight
  (`Checkouts.ContinuationsUniqueIffSerial`, `Checkouts.DuplicateRace`).
- An administrator's own request is hidden from the administrator's list, but nothing stops its requester
  from approving it (`CheckoutInbox.OwnRequestIsHiddenButDecidable`).
- The shared tile download runs under the first caller's context: that caller's leaving can fail the others
  (`TileCache.WaiterFailsIff`).
- The limiter named "sliding window" is a fixed window; twice the limit is attained
  (`RateLimit.BurstIsAdmitted`).
- The forwarder can answer a broker's CLOSE with one of its own, exactly if the copy loop was already
  about to send it (`StreamForwarder.SilentAfterBrokerClose`).
- Opening a stream again can leak the new connection, exactly while a connection of the stream is before its
  own removal from the map. The agent does not check this, and an empty map entry does not imply it: after
  OPEN and CLOSE the old loop may still be asleep (`StreamReopening.OpeningNeverLeaksIff`,
  `StreamReopening.OpenCloseOpenLeaks`).
- The reconnect delay wraps around if and only if its cap is 2^62 nanoseconds or more
  (`Reconnect.BacksOffIff`). The comment on the loop speaks of five WebSocket cycles after a failed QUIC
  dial; the code tries WebSockets in the failing iteration as well, six times in all.
- An unclosed block comment leaves its last character for the classifier
  (`SqlComments.UnclosedBlockLeavesItsLastCharacter`).

Two more results are guarantees with a condition that other code meets: the caller's audit listing is scoped
for every caller with an id, which authentication ensures (`AuditListings.OwnRowsOnlyIffIdentified`); and the
three computations of who may approve agree exactly if the stored ids are trimmed and not empty, which
generated ids are (`Approvers.SecretComputationsAgreeIff`, `Approvers.UncleanIdsDisagree`).

## Model

| member | source | states |
|---|---|---|
| `RefreshTokens.TokenService.RefreshToken` | backend/internal/authservice/login_sessions.go:56-146 | `Refresh`: the new tables and the answer are those of the step relation, for unknown, foreign-bound, revoked, expired, disabled and live tokens |
| `RefreshTokens.TokenService.LogoutToken` | backend/internal/authservice/login_sessions.go:13-54 | `Logout`: deletes the whole family of the presented token, or nothing |
| `RefreshTokens.TokenService.SwitchTenantTo` | backend/internal/authservice/login_sessions.go:148-212 | `SwitchTenant`: membership checks, activation, deletion of the user's tokens, one new token |
| `RefreshTokens.TokenService.IssueTokensForFamily` | backend/internal/authservice/login_tokens.go:106-153 | inserts one unrevoked row of the family with its lifetime and binding hash |
| `RefreshTokens.TokenService.IssueDeviceAuthTokens` | backend/internal/authservice/login_sessions.go:214-231 | device sign-in starts a command-line family |
| `RefreshTokens.TokenService.LoginUser` | backend/internal/authservice/login_tokens.go:23-25 | a browser sign-in starts a fresh family |
| `RefreshTokens.FamiliesOfEveryRun` | backend/internal/authservice/login_sessions.go:56-146 | over every run of issue, refresh, logout, tenant switch, reset and account changes from empty tables: tokens of a family share user and creation time, at most one is unrevoked, and a `cli:` family carries the persistent expiry |
| `RefreshTokens.RunKeepsInv` | backend/internal/authservice/login_tokens.go:106-153 | the invariant behind it is kept by every run from any state that has it |
| `RefreshTokens.UuidFamilies` | backend/internal/authservice/login_tokens.go:98-104 | browser and command-line family names never coincide |
| `RefreshTokens.KillingStep` | backend/internal/authservice/login_sessions.go:77-118 | reuse, foreign binding, disabled user, logout, tenant switch and reset each leave no row of the family |
| `RefreshTokens.RunKeepsDead` | backend/internal/authservice/login_tokens.go:106-153 | no later run brings a dead family or token back |
| `RefreshTokens.KilledFamilyNeverRefreshes` | backend/internal/authservice/login_sessions.go:77-118 | after any such step, in every continuation, every token of the family is refused and changes nothing |
| `RefreshTokens.RefreshRotates` | backend/internal/authservice/login_sessions.go:56-146 | a refresh succeeds if and only if the token is live; the successor is then the family's only unrevoked token and all other rows are untouched |
| `RefreshTokens.IssuedTokenIsLive` | backend/internal/authservice/login_tokens.go:106-153 | a new token can be refreshed if and only if it is within its advertised lifetime, its user is enabled and the binding matches |
| `RefreshTokens.ReuseEndsTheSuccessor` | backend/internal/authservice/login_sessions.go:100-104 | presenting a rotated token again ends the successor as well, in every continuation |
| `RefreshTokens.SwitchTenantEffect` | backend/internal/authservice/login_sessions.go:148-212 | a successful switch leaves exactly the target membership active and the new token as the user's only one, and touches no other user |
| `RefreshTokens.SwitchRepliesIff` | backend/internal/authservice/login_sessions.go:148-182 | a tenant switch is answered with a token if and only if a tenant is named, the user has an unexpired membership there and exists; a blank tenant answers 400 and a missing or expired membership 403, with every table unchanged |
| `RefreshTokens.NewFamilies` | backend/internal/authservice/login_tokens.go:23-104 | sign-ins and switches start a family of their own at that moment; a device's is a `cli:` family with the persistent expiry |
| `RefreshTokens.SignInReplies` | backend/internal/authservice/login_tokens.go:106-153 | sign-ins are answered with a token exactly for existing users and touch no other row |
| `RefreshTokens.AdvertisedLifetime` | backend/internal/authservice/login_tokens.go:74-96 | the cookie lifetime: the tenant's own, else the configured one, else seven days; none for a command-line token |
| `RefreshTokens.RefusedRefreshEffect` | backend/internal/authservice/login_sessions.go:70-118 | what a refused refresh leaves: nothing changes for an unknown token; foreign binding, reuse and a disabled user cost exactly the family; an expired token goes alone |
| `RefreshTokens.LogoutEffect` | backend/internal/authservice/login_sessions.go:13-54 | logging out removes exactly the family of the token and names its user |
| `RefreshTokens.ResetEffect` | backend/internal/authservice/password_reset_complete.go:168-170 | a completed password reset removes exactly the user's tokens |
| `RateLimit.LimiterStore.EnforceSlidingWindowLimit` | backend/internal/authservice/security.go:78-103 | one call of the limiter over expiring counters: new counters and verdict, and the division by zero for a positive window below one millisecond |
| `RateLimit.LiveIff` | backend/internal/authservice/security.go:88-98 | a counter is live until the instant of its expiry |
| `RateLimit.CountersRefineHistory` | backend/internal/authservice/security.go:83-98 | every live counter equals the number of calls that fell into its window; a counter that is gone belongs to a window that is over or was never hit |
| `RateLimit.AdmitsFirstOfWindow` | backend/internal/authservice/security.go:83-102 | a call is admitted if and only if it is among the first maxAttempts of its aligned window |
| `RateLimit.AtMostTwiceTheLimit` | backend/internal/authservice/security.go:78-103 | any interval of one window's length admits at most 2 * maxAttempts calls |
| `RateLimit.BurstIsAdmitted` | backend/internal/authservice/security.go:83-86 | the factor two is attained for every limit and window: the limiter is a fixed window, not a sliding one |
| `Lockout.Account.Login` | backend/internal/authservice/login_primary.go:60-100 | the lock check and the password branch of a login, on the two stored columns |
| `Lockout.Account.RecordInvalidPassword` | backend/internal/authservice/login_primary.go:135-166 | stores the attempt count, or the lock and a zero count at the threshold |
| `Lockout.LoginAnswers` | backend/internal/authservice/login_primary.go:60-183 | what each login answers and stores, for every state of the counters; a login clears the count and the lock |
| `Lockout.LockoutSlowsGuessing` | backend/internal/authservice/login_primary.go:135-166 | without a success, F failed passwords span at least duration * floor((F-1)/threshold), and the stored count stays below the threshold |
| `Lockout.ShapeAfterHistory` | backend/internal/authservice/login_primary.go:135-166 | after any history the stored count is the number of failures modulo the threshold, and a full round has set the lock |
| `Lockout.LockHoldsUntilExpiry` | backend/internal/authservice/login_primary.go:60-66 | while the lock lasts every login is refused and nothing is stored |
| `Vault.HexRoundTrip` | backend/internal/authservice/register_crypto.go:47-52 | hexadecimal decoding inverts encoding on every byte sequence |
| `Vault.OpenWrapped` | backend/internal/authservice/security.go:191-255 | a wrapped master key opens with its wrapping secret and with no other |
| `Vault.Account.Register` | backend/internal/authservice/register.go:26-172 | registration writes the key wrapped under the password and under the recovery key it hands out |
| `Vault.Account.ForgotPassword` | backend/internal/authservice/password_reset.go:25-81 | a request stores a reset token and its expiry, unless the account has no password hash or is locked |
| `Vault.Account.CompletePasswordReset` | backend/internal/authservice/password_reset_complete.go:26-187 | a reset is refused, re-wraps the vault, or marks it as needing recovery; then both vault sessions are dropped |
| `Vault.Account.StoreVaultSession` | backend/internal/authservice/security.go:31-76 | caches the master key under the server key, or fails when the entered password does not open the vault |
| `Vault.Account.SignIn` | backend/internal/authservice/login_primary.go:102-108 | a password sign-in stores the vault session unless a passkey is enrolled, and fails if that fails |
| `Vault.ResetDoneIff` | backend/internal/authservice/password_reset_complete.go:26-56 | over every history, a reset is done if and only if it presents the token of the last request that sent one, within its lifetime, with no reset done since, the SMS check passed where there is one and the password not breached; every other reset changes nothing |
| `Vault.ResetTokensWorkOnce` | backend/internal/authservice/password_reset_complete.go:111-160 | after a reset is done no reset is done until another token has been sent |
| `Vault.ForgotPasswordTellsNothing` | backend/internal/authservice/password_reset.go:25-81 | the request for a reset token is answered alike whether the account exists, is locked or has a password |
| `Vault.RegistrationAnswers` | backend/internal/authservice/register.go:26-64 | what a registration answers in every case, and what only a new account changes |
| `Vault.WrongPasswordIsRefused` | backend/internal/authservice/login_primary.go:75-88 | a password that is not the account's present one is refused, whatever came before |
| `Vault.SignInStores` | backend/internal/authservice/security.go:35-69 | a sign-in stores both entries of the master key exactly if it opened the vault |
| `Vault.ExternalAccountsStayExternal` | backend/internal/authservice/password_reset.go:52-54 | an account without a password hash is never sent a reset token, so it never gets a password by way of a reset |
| `Vault.VaultSurvivesEveryRun` | backend/internal/authservice/password_reset_complete.go:62-166 | over every chain of registration, resets and sign-ins: the recovery key issued last opens the recovery column to the master key of the registration, no other key does, and unless recovery is needed the present password opens the vault to the same key |
| `Vault.ResetPreservesIff` | backend/internal/authservice/password_reset_complete.go:62-166 | an accepted reset preserves the vault if and only if it presents the recovery key issued last |
| `Vault.LateRecoveryRestores` | backend/internal/authservice/password_reset_complete.go:81-143 | however many resets went without the key, one with it restores the original master key |
| `Vault.RightPasswordSignsInIff` | backend/internal/authservice/security.go:35-49 | exactly when the right password signs in: passkey enrolled, no session caching, or the vault is wrapped under that password |
| `Vault.ResetWithoutKeyBlocksSignIn` | backend/internal/authservice/password_reset_complete.go:146-166 | the failing family: a reset without the right recovery key makes the new password fail at sign-in unless the vault is wrapped under it |
| `Vault.ResetWithoutKeyExample` | backend/internal/authservice/password_reset_complete.go:146-166 | a concrete run of that family |
| `Vault.SessionsHoldTheMasterKey` | backend/internal/authservice/security.go:51-69 | every cached vault session holds the master key of the registration |
| `FilterConditions.ClauseMeaning` | backend/internal/auditapi/query_helpers.go:97-137 | each emitted clause is true of a row exactly if its condition holds, NULL columns and operator precedence included |
| `FilterConditions.CompileMeaning` | backend/internal/auditapi/query_helpers.go:89-140 | for every list of conditions and start index, the compiled clauses with their arguments bound accept exactly the rows the conditions accept |
| `FilterConditions.CompileDense` | backend/internal/auditapi/query_helpers.go:93-96 | the placeholders used are exactly the dense range of the arguments |
| `Sql.JoinMeaning` | backend/internal/auditapi/recording_access.go:58-67 | clauses joined by AND accept a row exactly if each does |
| `Sql.TailMeaning` | backend/internal/auditapi/query_helpers.go:136-140 | a condition continued by an `AND ...` tail is the conjunction of both |
| `Sql.SearchIsContainmentIffPlain` | backend/internal/auditapi/query_helpers.go:117-135 | the bound `%term%` means literal containment on every text if and only if the term has no pattern character: terms are not escaped |
| `AuditLogs.BuildAuditFilters` | backend/internal/auditapi/query_helpers.go:89-140 | the growing builder emits the compilation of the query's conditions, from any start index |
| `AuditLogs.CondsMeanQuery` | backend/internal/auditapi/query_helpers.go:97-135 | the conditions hold of a row exactly if every set field of the query accepts it |
| `AuditLogs.AuditFilterMeaning` | backend/internal/auditapi/query_helpers.go:89-140 | continued from any condition, the filter accepts exactly the rows the query describes, with dense placeholders |
| `AuditListings.CallerFilter` | backend/internal/auditapi/service_logs.go:8-31 | the two composed filters accept exactly the caller's rows that match the query |
| `AuditListings.ListAuditLogs` | backend/internal/auditapi/service_logs.go:8-54 | returns the requested page of exactly those rows as the database orders them by the sort key, with total and page count |
| `AuditListings.ListTenantAuditLogs` | backend/internal/auditapi/service_logs.go:56-116 | the same for the audit rows of the tenant's accepted members, each once |
| `AuditListings.TenantRowsAreMembersRows` | backend/internal/auditapi/service_logs.go:79-87 | joining with the accepted memberships and scoping to the tenant shows each audit row of an accepted member that the query accepts, exactly once |
| `AuditListings.ListConnectionAuditLogs` | backend/internal/auditapi/service_logs.go:118-180 | the same for one connection, without the target-type filter |
| `AuditListings.OwnRowsOnlyIffIdentified` | backend/internal/auditapi/service_logs.go:8-9 | the caller's listing stays within the caller's own rows, for every query, exactly for callers with an id, as authentication guarantees |
| `AuditListings.OrderMeans` | backend/internal/auditapi/query_helpers.go:142-152 | rows come by time unless the action is asked for, and newest or last first unless ascending order is asked for |
| `AuditListings.CallerPagesCoverIff` | backend/internal/auditapi/query_helpers.go:142-152 | a caller who reads all pages, each by its own query, gets every matching row of the caller's exactly once however ties are broken, if and only if no page boundary inside the result falls between rows of equal sort key |
| `AuditListings.TiedRowsAreLost` | backend/internal/auditapi/query_helpers.go:142-152 | two log-ins sorted by action, one to a page: correctly ordered queries that show the first twice and the second never |
| `Arrangements.PagesCoverIff` | backend/internal/auditapi/query_helpers.go:142-152 | the exact condition, for rows of any kind, any key and any page size |
| `Arrangements.TiedBoundaryRepeats` | backend/internal/auditapi/query_helpers.go:142-152 | at every tied boundary some orders show the row before it twice and the row after it not at all |
| `Arrangements.DistinctKeysCover` | backend/internal/auditapi/query_helpers.go:142-152 | rows of pairwise different keys are always paged without loss |
| `Paging.PagesCoverResult` | backend/internal/auditapi/query_helpers.go:259-264 | pages 1 to totalPages of one fixed arrangement partition it and the last is not empty |
| `DbAuditLogs.BuildFilters` | backend/internal/dbauditapi/query_helpers.go:85-123 | the append-then-number builder emits the compilation of its conditions |
| `DbAuditLogs.DbFilterMeaning` | backend/internal/dbauditapi/query_helpers.go:85-123 | exactly a query type that is no label makes the filter an SQL error; otherwise it accepts exactly the tenant's rows the query describes, three-argument search included, with dense placeholders |
| `DbAuditLogs.ParsedTypesRun` | backend/internal/dbauditapi/query_helpers.go:40-48 | every query type a request can carry runs, and every label can be asked for in any letter case |
| `FilterConditions.CompileFailsIff` | backend/internal/dbauditapi/query_helpers.go:98-100 | a compilation has a failing clause exactly if it compares an enum with a text that is no label |
| `Sql.JoinFails` | backend/internal/auditapi/recording_access.go:58-67 | a conjunction is an SQL error exactly if one of its clauses is |
| `RecordingAccess.Clauses` | backend/internal/auditapi/recording_access.go:38-56 | appends its arguments to the caller's list so that own and access clauses stay one compilation |
| `RecordingAccess.JoinConditions` | backend/internal/auditapi/recording_access.go:58-67 | the join loop computes the conjunction |
| `RecordingAccess.AccessFilterMeaning` | backend/internal/auditapi/recording_access.go:38-67 | a recording query accepts exactly the rows its own conditions accept and the caller may see |
| `RecordingAccess.VisibleIff` | backend/internal/auditapi/recording_access.go:38-56 | who sees a recording, spelled out for every caller, tenant and visibility |
| `RecordingAccess.GetSessionRecording` | backend/internal/auditapi/service_recordings.go:8-58 | returns a newest recording of the session among those the caller may see, however ties are broken, or none |
| `CheckoutList.BuildListFilter` | backend/internal/checkouts/reads_list.go:78-115 | emits the list filter, or none when the caller can approve nothing |
| `CheckoutList.ListFilterMeaning` | backend/internal/checkouts/reads_list.go:78-115 | exactly a status that is no label makes the filter an SQL error; with any other it accepts exactly the requests the list is meant to show, for each role |
| `CheckoutList.List` | backend/internal/checkouts/reads_list.go:11-76 | empty for an approver of nothing, an error for a status that is no label, otherwise a page of exactly the listed requests, newest first, and their number |
| `CheckoutList.AdmittedStatusFailsIff` | backend/internal/checkouts/helpers.go:107-114 | a request's status is admitted although the query then fails exactly if it is a label in other letter case |
| `CheckoutList.LowerCaseStatusFails` | backend/internal/checkouts/reads_list.go:111-113 | `status=pending` is admitted, and the filter then fails on every row |
| `CheckoutInbox.AuthorityIff` | backend/internal/checkouts/mutations.go:80-203 | for every actor: a pending request is approved or rejected exactly by those who own or administer its resource, an approved one is checked in exactly by them and by its requester, and nothing else can be done |
| `CheckoutInbox.AllowedIff` | backend/internal/checkouts/reads_list.go:155-203 | the approver check, spelled out over the tables: owner, owner or administrator of the secret's tenant, administrator of the connection's team |
| `CheckoutInbox.InboxIsDecidable` | backend/internal/checkouts/reads_list.go:84-103 | the pending list of an approver is exactly the requests that the approver may decide, without the approver's own |
| `CheckoutInbox.OwnRequestIsHiddenButDecidable` | backend/internal/checkouts/mutations.go:91-97 | a request of one's own for a resource one administers is never listed, yet its requester may decide it |
| `CheckoutInbox.AdministratorDecidesOwnRequest` | backend/internal/checkouts/mutations.go:91-97 | such a request: a tenant administrator who does not own the secret |
| `CheckoutList.ListFilterDense` | backend/internal/checkouts/reads_list.go:78-115 | its placeholders, one of them reused, are the dense range of its arguments |
| `Checkouts.RequestTable.Exec` | backend/internal/checkouts/mutations.go:106-116 | the guarded decision UPDATEs and the unguarded check-in UPDATE, with affected-row counts |
| `Checkouts.RequestTable.Decide` | backend/internal/checkouts/mutations.go:80-132 | an uninterrupted Approve, Reject or Checkin: exact success condition, new row and error codes |
| `Checkouts.RequestTable.Create` | backend/internal/checkouts/mutations.go:14-78 | an uninterrupted Create with every refusal |
| `Checkouts.DecidedAtMostOnce` | backend/internal/checkouts/mutations.go:88-163 | in every interleaving of load and write steps of any number of calls, at most one decision takes effect on a request; approver and expiry are set by it and only then |
| `Checkouts.EveryWriteIsAuthorized` | backend/internal/checkouts/mutations.go:80-203 | for any interleaving, every write that took effect was made by an actor accepted by the approver check at load, or was the requester's own check-in |
| `Checkouts.LoadRemembersTheCheck` | backend/internal/checkouts/mutations.go:91-97 | what a call carries from its load to its write is the actor, the action and the check's verdict |
| `Checkouts.NormalizeMeans` | backend/internal/checkouts/helpers.go:32-41 | an optional id counts exactly if something is left of it when trimmed |
| `Checkouts.RunKeepsInv` | backend/internal/checkouts/mutations.go:80-219 | the invariant behind it, calls in flight included |
| `Checkouts.UninterruptedCalls` | backend/internal/checkouts/mutations.go:14-132 | an uninterrupted decision or create is the interleaving of its own two statements |
| `Checkouts.RunEvolves` | backend/internal/checkouts/mutations.go:185-219 | a decided request keeps approver and expiry, and the unguarded check-in never moves a pending or rejected request |
| `Checkouts.LoserChangesNothing` | backend/internal/checkouts/mutations.go:106-116 | of two calls that both passed their checks the second write changes nothing |
| `Checkouts.UniqueIffInsertsClear` | backend/internal/checkouts/mutations.go:35-66 | pending requests stay unique per requester and resource throughout a run if and only if every insert still finds no duplicate |
| `Checkouts.DuplicateRace` | backend/internal/checkouts/mutations.go:35-66 | two interleaved creates both insert: the check alone does not ensure it |
| `Checkouts.SerialCreatesStayUnique` | backend/internal/checkouts/mutations.go:35-66 | creates of the same request that do not overlap keep it, whatever else interleaves |
| `Checkouts.ContinuationsUniqueIffSerial` | backend/internal/checkouts/mutations.go:35-66 | from any state whose checks stand, every continuation that starts no new create keeps pending requests unique if and only if no two creates of the same request are in flight |
| `Approvers.AppendUnique` | backend/internal/checkouts/notifications.go:98-112 | appends the trimmed id unless blank or present |
| `Approvers.UniqueStrings` | backend/internal/checkouts/helpers.go:116-135 | the sorted, duplicate-free trimmed ids |
| `Approvers.AppendAll` | backend/internal/checkouts/notifications.go:120-136 | the row loop appends the cleaned ids of its rows |
| `Approvers.FindApproverIDs` | backend/internal/checkouts/notifications.go:98-174 | the duplicate-free list of exactly the cleaned ids of the approvers of a resource |
| `Approvers.UserCanApproveResource` | backend/internal/checkouts/reads_list.go:155-203 | true exactly for owners and administrators of the resource |
| `Approvers.ApprovableResourceIDs` | backend/internal/checkouts/reads_list.go:117-153 | the sorted, duplicate-free cleaned ids of exactly the resources a user approves |
| `Approvers.SecretComputationsAgreeIff` | backend/internal/checkouts/reads_list.go:117-203 | list of approvers, check and list of resources agree for secrets if and only if the ids involved are trimmed and not empty |
| `Approvers.ConnectionComputationsAgreeIff` | backend/internal/checkouts/reads_list.go:117-203 | the same for connections |
| `Approvers.UncleanIdsDisagree` | backend/internal/checkouts/helpers.go:116-135 | a table on which they disagree |
| `Firewall.BuildConnectionFirewallRules` | backend/internal/dbsessions/query_policy_connection_overrides.go:42-70 | the usable settings in order, normalised |
| `Firewall.EvaluateFirewall` | backend/internal/dbsessions/query_policy_firewall.go:12-46 | the evaluation is the first match of the resolved rules, else of the built-ins |
| `Firewall.RefusedIff` | backend/internal/dbsessions/query_policy_firewall.go:12-46 | in every mode a query is refused if and only if the firewall is on and the best-ranked matching candidate blocks, or no candidate matches and a blocking built-in is found |
| `Firewall.RankedRuleDecides` | backend/internal/dbsessions/query_policy_firewall.go:20-33 | the best-ranked match refuses exactly if its action is BLOCK in any letter case and white space, and the answer carries its name and action |
| `Firewall.BuiltinsDecide` | backend/internal/dbsessions/query_policy_firewall.go:34-45 | the built-in list, spelled out, decides when no candidate matches |
| `Firewall.RulesOfSettings` | backend/internal/dbsessions/query_policy_connection_overrides.go:42-70 | each setting gives at most one rule, in order, with its defaults |
| `Firewall.HitsIff` | backend/internal/dbsessions/query_policy_firewall.go:75-89 | when a rule matches: pattern found, and the scope, unless blank, names the database or the table |
| `Firewall.SortIsStable` | backend/internal/dbsessions/query_policy_connection_overrides.go:72-82 | the sort orders by descending priority and keeps the order within each priority |
| `Firewall.StableSortIsUnique` | backend/internal/dbsessions/query_policy_connection_overrides.go:72-82 | those two facts determine the result |
| `Firewall.BestMatchIsBest` | backend/internal/dbsessions/query_policy_firewall.go:20-33 | the best match matches, and every other match ranks lower or comes later |
| `Firewall.MergeDecides` | backend/internal/dbsessions/query_policy_connection_overrides.go:29-40 | merge mode: the connection list's best match or the tenant list's first match decides, by priority, ties to the connection rule |
| `Firewall.MergeLeavesToBuiltinsIff` | backend/internal/dbsessions/query_policy_firewall.go:20-43 | in merge mode the built-ins decide exactly the queries that no usable connection rule and no tenant rule matches |
| `Firewall.OverrideDecides` | backend/internal/dbsessions/query_policy_connection_overrides.go:29-40 | override mode: the connection list's best match decides alone |
| `Firewall.EmptyMergeInherits` | backend/internal/dbsessions/query_policy_connection_overrides.go:29-70 | merging without a usable connection rule decides as inheriting does |
| `SqlComments.StripLeadingSQLComments` | backend/internal/dbsessions/query_policy_classify.go:83-114 | the index loops terminate and compute the stripping of the remaining text |
| `SqlComments.StripLeavesBareSuffix` | backend/internal/dbsessions/query_policy_classify.go:83-114 | the result is a suffix that starts with neither white space nor a comment opener, and only such texts are unchanged |
| `SqlComments.StripIsIdempotent` | backend/internal/dbsessions/query_policy_classify.go:83-114 | stripping twice is stripping once |
| `SqlComments.StripIgnoresPrefix` | backend/internal/dbsessions/query_policy_classify.go:83-114 | any sequence of white space, newline-ended line comments and closed block comments in front is ignored |
| `SqlComments.ClassIgnoresPrefix` | backend/internal/dbsessions/query_policy_classify.go:40-81 | the SQL branch of classification is invariant under such prefixes |
| `SqlComments.ClassIsThatOfFirstFound` | backend/internal/dbsessions/query_policy_classify.go:40-81 | for every engine, text and ignorable prefix, the class is that of the first pattern of an explicit list that is found, WITH having a list of its own with SELECT as default, and OTHER if none is |
| `SqlComments.DdlFirst` | backend/internal/dbsessions/query_policy_classify.go:43-44 | a text with the DDL pattern is DDL whatever else is found |
| `SqlComments.OnlyDelete` | backend/internal/dbsessions/query_policy_classify.go:51-52 | a text on which only the DELETE pattern is found is DELETE |
| `SqlComments.OtherIff` | backend/internal/dbsessions/query_policy_classify.go:42-81 | OTHER exactly if none of the patterns but CALL is found |
| `SqlComments.UnclosedBlockLeavesItsLastCharacter` | backend/internal/dbsessions/query_policy_classify.go:102-110 | an unclosed block comment is not swallowed whole: its last character survives unless it is white space |
| `TilePaths.RequestsNameTheMap` | backend/cmd/map-assets/service.go:83-108 | a request parses to a key if and only if the key lies on the map |
| `TilePaths.NamesApart` | backend/cmd/map-assets/cache.go:27-34 | distinct tiles have distinct in-flight keys, cache files and temporary files, and a temporary file is never a cache file |
| `TilePaths.TileKeyStringInjective` | backend/cmd/map-assets/service.go:140-144 | the in-flight key determines the tile |
| `TileCache.TileStore.ReadCachedTile` | backend/cmd/map-assets/cache.go:36-51 | stat, then read: a tile, the not-cached error, or another error |
| `TileCache.TileStore.WriteCachedTile` | backend/cmd/map-assets/cache.go:53-73 | write to a temporary file, rename, stat, with every failure point |
| `TileCache.TileStore.GetTile` | backend/cmd/map-assets/service.go:110-138 | the uninterrupted call: files and answer in all circumstances |
| `TileCache.AloneIsARun` | backend/cmd/map-assets/service.go:110-138 | the uninterrupted call is one of the interleavings of its own file operations |
| `TileCache.RunKeepsInv` | backend/cmd/map-assets/service.go:110-138 | the invariant of every interleaving of file-system operations of any number of callers |
| `TileCache.ServedTilesAgree` | backend/cmd/map-assets/service.go:110-138 | every caller ever served for a tile got the same bytes and time stamp, those of its cache file |
| `TileCache.InstalledAtMostOnce` | backend/cmd/map-assets/cache.go:59-67 | no cache file is put in place twice |
| `TileCache.OneWriterPerTempPath` | backend/cmd/map-assets/cache.go:59-67 | a temporary path has one writer at a time, and what it renames is what it downloaded |
| `TileCache.CancelledOnlyThroughLeader` | backend/cmd/map-assets/service.go:119-132 | in every interleaving a call fails as cancelled only if a call for the same tile was cancelled, the one it names |
| `TileCache.WaiterFailsIff` | backend/cmd/map-assets/service.go:119-132 | the next step can fail a waiting call as cancelled if and only if its fetch is downloading and the call that started it was cancelled, whatever became of the waiting call's own client |
| `TileCache.LeaderCancellationFailsWaiters` | backend/cmd/map-assets/service.go:119-132 | the cancellation of the call that started a fetch can fail every other call waiting for it |
| `TileCache.StepKeepsTiles` | backend/cmd/map-assets/service.go:117-132 | a cached tile is never changed nor downloaded again |
| `TileCache.TilesStay` | backend/cmd/map-assets/service.go:117-132 | the same over whole runs |
| `StreamForwarder.Forwarder.HandleOpen` | gateways/tunnel-agent/forwarder.go:27-68 | the uninterrupted handler takes the steps dial, map update, OPEN frame, and on failure removal and close |
| `StreamForwarder.Forwarder.HandleData` | gateways/tunnel-agent/forwarder.go:70-80 | unknown streams are ignored; a failed write removes and closes the connection |
| `StreamForwarder.Forwarder.HandleClose` | gateways/tunnel-agent/forwarder.go:82-84 | removes and closes the stream's connection |
| `StreamForwarder.Forwarder.DestroyAll` | gateways/tunnel-agent/forwarder.go:86-94 | empties the map and closes exactly the connections it held |
| `StreamForwarder.Forwarder.CopyLocalToTunnel` | gateways/tunnel-agent/forwarder.go:102-123 | the uninterrupted loop: DATA frames for what it read, then CLOSE only if the stream was still mapped |
| `StreamForwarder.ClosingsComeToAllClosed` | gateways/tunnel-agent/forwarder.go:86-94 | closing the removed connections one by one, in any order, comes to closing them all |
| `StreamForwarder.RunKeepsInv` | gateways/tunnel-agent/forwarder.go:27-143 | the invariant of every interleaving of handlers and copy loops in which no stream is opened while a connection of it is before its own removal |
| `StreamForwarder.QuietMeansNoLeak` | gateways/tunnel-agent/forwarder.go:27-143 | once no step is pending, exactly the connections in the map are open |
| `StreamForwarder.AtMostOneClose` | gateways/tunnel-agent/forwarder.go:102-123 | an opened stream sends at most one CLOSE, and only after all it read went out |
| `StreamForwarder.SilentAfterBrokerClose` | gateways/tunnel-agent/forwarder.go:82-84 | after the broker's CLOSE was handled the connection sends none, in any continuation, if and only if its loop was not already about to send one |
| `StreamForwarder.SilentAfterDestroy` | gateways/tunnel-agent/forwarder.go:86-94 | the same after `DestroyAll` |
| `StreamForwarder.CloseRaceIsReachable` | gateways/tunnel-agent/forwarder.go:113-121 | the excepted moment is reachable |
| `StreamReopening.OpeningNeverLeaksIff` | gateways/tunnel-agent/forwarder.go:54-68 | in every state an orderly run reaches, opening a stream can never leak a connection if and only if no connection of the stream is before its own removal from the map |
| `StreamReopening.OrderlyIffAlwaysSafe` | gateways/tunnel-agent/forwarder.go:27-143 | the orderly runs are exactly those in which no step makes a leak possible |
| `StreamReopening.ReopenLeaks` | gateways/tunnel-agent/forwarder.go:113-121 | from every other state an explicit interleaving leaves the new connection open and unreachable |
| `StreamReopening.LeakedStays` | gateways/tunnel-agent/forwarder.go:113-121 | nothing but its own loop ever ends a leaked connection |
| `StreamReopening.OpenCloseOpenLeaks` | gateways/tunnel-agent/forwarder.go:82-84 | OPEN, CLOSE and OPEN again suffice: the map is empty and the CLOSE fully handled, but the old loop has not woken up |
| `Reconnect.Agent.WaitReconnect` | gateways/tunnel-agent/agent.go:221-234 | waits the present delay, then doubles and caps it, in 64 bits |
| `Reconnect.Agent.RunAuto` | gateways/tunnel-agent/quic.go:103-159 | the loop follows the trace of its dial outcomes, iteration by iteration |
| `Reconnect.IterationMeans` | gateways/tunnel-agent/quic.go:105-158 | when one iteration dials, connects and over what, how long it waits and what it leaves |
| `Reconnect.FirstIterationDials` | gateways/tunnel-agent/quic.go:104-113 | the first iteration dials QUIC |
| `Reconnect.DoubledIsSigned` | gateways/tunnel-agent/agent.go:224-224 | doubling is multiplication by two in signed 64-bit arithmetic |
| `Reconnect.CooldownIsExact` | gateways/tunnel-agent/quic.go:112-133 | exactly five iterations without a QUIC dial separate a failed one from the next |
| `Reconnect.ConnectedDialsAgain` | gateways/tunnel-agent/quic.go:112-127 | after a QUIC connection the next iteration dials QUIC |
| `Reconnect.EveryWait` | gateways/tunnel-agent/quic.go:103-159 | in every run the j-th wait since the last connection is min(initial * 2^j, max), under a cap below 2^62 |
| `Reconnect.BacksOffIff` | gateways/tunnel-agent/agent.go:221-227 | that formula holds for every j if and only if the cap is below 2^62 nanoseconds |
| `Reconnect.DelayWrapsAround` | gateways/tunnel-agent/agent.go:224-227 | at or above that cap the 63rd delay is negative, if the formula held until then |
| `Framing.TrimQUICLine` | gateways/tunnel-agent/quic.go:348-353 | the shrinking loop computes the trimmed line |
| `Framing.Stream.WriteQUICLine` | gateways/tunnel-agent/quic.go:330-346 | appends the payload and a newline |
| `Framing.Stream.ReadMessages` | gateways/tunnel-agent/quic.go:218-226 | the reading loop yields every complete line, trimmed |
| `Framing.RoundTripsIff` | gateways/tunnel-agent/quic.go:330-353 | writing then reading gives back exactly the messages with nothing left over if and only if none contains a newline or ends in a carriage return |
| `Framing.OneMessagePerNewline` | gateways/tunnel-agent/quic.go:218-226 | a reader gets exactly one message per newline |
| `Framing.PartialLineIsLeft` | gateways/tunnel-agent/quic.go:191-195 | an incomplete last line stays unread and disturbs nothing |
| `IpRanges.ContainsIsRange` | backend/internal/authservice/ip_allowlist.go:72-85 | bitwise prefix containment equals the numeric range test, for every prefix and address |
| `IpRanges.InCIDRIff` | backend/internal/authservice/ip_allowlist.go:50-86 | what one entry contains, for every address: nothing if unparsable, one address, or the numeric range of a prefix length that fits the family |
| `IpRanges.AllowedByParts` | backend/internal/authservice/ip_allowlist.go:38-48 | a list allows what any of its parts allows, a single entry what it contains, no entry everything |
| `IpRanges.WildcardIff` | backend/internal/connections/host_validation.go:115-117 | the wildcard is the zero address of either family, without a zone |
| `IpRanges.ShorterPrefixAccepts` | backend/internal/authservice/ip_allowlist.go:72-85 | shortening a prefix never rejects more |
| `IpRanges.AddingAnEntryKeepsIff` | backend/internal/authservice/ip_allowlist.go:38-48 | adding an entry keeps every allowed address allowed if and only if the list was not empty or the address is in the entry: an empty list allows everything |
| `IpRanges.FullLengthIsSingle` | backend/internal/authservice/ip_allowlist.go:63-85 | a full-length prefix is the single address, zone apart |
| `IpRanges.OctetTestsAreBlocks4` | backend/internal/connections/host_validation.go:122-138 | the octet tests are exactly 10/8, 172.16/12, 192.168/16, 169.254/16 and 127/8, for every address |
| `IpRanges.MaskTestsAreBlocks6` | backend/internal/connections/host_validation.go:140-165 | the masks are exactly fc00::/7 and fe80::/10, for every address |
| `IpRanges.ForbiddenIff` | backend/internal/connections/host_validation.go:110-157 | exactly which targets are forbidden, as blocks, for every address, interface set and policy |
| `IpRanges.PolicyIsMonotone` | backend/internal/connections/host_validation.go:110-157 | allowing more forbids no more |
| `IpRanges.MappedIsTheSame` | backend/internal/connections/host_validation.go:111-111 | an IPv4-mapped spelling is judged as the IPv4 address |
| `Jobs.JobStore.Create` | gateways/guacenc/jobs.go:38-59 | cleans up, then admits below the cap or refuses with the active count |
| `Jobs.JobStore.Update` | gateways/guacenc/jobs.go:70-85 | changes exactly the named job and stamps terminal ones |
| `Jobs.JobStore.List` | gateways/guacenc/jobs.go:87-97 | cleans up and lists every kept job once |
| `Jobs.JobStore.CleanupExpired` | gateways/guacenc/jobs.go:121-134 | removes exactly the expired jobs |
| `Jobs.JobStore.ActiveCount` | gateways/guacenc/jobs.go:111-119 | counts the pending and converting jobs |
| `Jobs.Server.RunGuacConversion` | gateways/guacenc/main.go:411-452 | the worker marks its job converting, then exactly one terminal status by how the command went |
| `Jobs.Server.RunAsciicastConversion` | gateways/guacenc/main.go:454-534 | the same through its two commands |
| `Jobs.GuacCompleteIff` | gateways/guacenc/main.go:411-452 | a recording is complete exactly if guacenc succeeded and its output can be read; which failure is reported otherwise |
| `Jobs.AsciicastCompleteIff` | gateways/guacenc/main.go:454-534 | the same through both commands, the first failure on the way being reported |
| `Jobs.WorkedJob` | gateways/guacenc/jobs.go:70-85 | what a finished worker leaves of its job and of the table |
| `Jobs.WholeJobIsARun` | gateways/guacenc/main.go:411-452 | a request and its worker are one interleaving of the store's operations |
| `Jobs.StoreInvariant` | gateways/guacenc/jobs.go:38-134 | in every interleaving: at most maxConcurrent active jobs, completion time set exactly on ended jobs, a worker exactly for each active job, and the total is the number of admitted creates |
| `Jobs.CleanupKeepsActive` | gateways/guacenc/jobs.go:121-134 | cleanup removes no active job, and an ended one exactly after the expiry |
| `Jobs.FinishedIsFinal` | gateways/guacenc/jobs.go:70-85 | an ended job is never changed, only removed once expired |
| `Jobs.RefusedIff` | gateways/guacenc/jobs.go:42-46 | a create is refused exactly if maxConcurrent jobs are active; expired jobs never count |

## Left out

- Failures of the database and of Redis in the middle of a call: every modelled statement takes effect.
- Concurrency inside one refresh, limiter, login or reset call: each is one atomic step. Checkouts, the tile cache, the forwarder and the job workers are interleaved.
- HTTP handlers, cookies, JWT signing, audit-log writes, notifications and e-mail.
- The choice of a user's active tenant: its refresh lifetime is part of a request. The row id of a refresh token is identified with the token itself.
- Real cryptography: keys and sealed values are terms, so derivation does not collide and nothing opens with the wrong key. The 72-byte limit of the password hash is not modelled.
- Other writers of the vault columns: password change in user settings, administrator changes and the vault recovery endpoints. One account is modelled, so the lookup of a reset token is a comparison.
- Lockout.LockoutSlowsGuessing: is about a fixed threshold and duration; the original reads both anew at each call.
- SQL text as characters: a condition is a token sequence with matched parentheses. How the database orders and breaks ties is a parameter of each query; the table does not change between the queries for two pages. Integer overflow of OFFSET is not modelled.
- RecordingAccess.GetSessionRecording: the joins with sessions, connections and teams are the table it is given.
- CheckoutList.List: the joined names and the attached resource names are not part of a row; the sort key of the database audit listing is not modelled.
- Case folding and white space outside ASCII.
- Checkouts: the EXPIRED status and deletion of users, whose writers are elsewhere; audit and notification rows.
- Firewall: masking and rate-limit policies, which repeat the same resolution; the regex engine is a parameter, and its cache of compiled patterns is not modelled.
- The Mongo branch of classification and the extraction of accessed tables.
- TileCache.ServedTilesAgree: assumes, as the service does, that nothing deletes cache files; a panicking fetch and entity-tag comparison are not modelled. The upstream request is its outcome.
- StreamForwarder.RunKeepsInv: assumes that no stream is opened while a connection of it is before its own removal; StreamReopening.OpeningNeverLeaksIff shows that the assumption is exact. The target's address is parsed and checked elsewhere: HandleOpen gets the verdict. Bytes written to the local side are not recorded. A CLOSE frame that an old connection sends after its stream was opened again is counted for the old connection.
- Reconnect.Agent.RunAuto: a finite prefix of an uncancelled run; serving a connection and the waiting itself are left out. The QUIC-only and WebSocket-only loops use the same delay and are not modelled apart.
- Framing: JSON encoding and decoding; a stream delivers its bytes in order.
- IpRanges: parsing of addresses and prefix lengths, host-name resolution and the loading of interface addresses. An unparsable entry matches nothing.
- Jobs: rounding of times kept as floating-point seconds, and the deletion of converted files. The duration in a timeout message and the trimming of command output are parameters.
- TLS, WebSocket and QUIC transport, TCP dialing and external commands: only their outcomes appear.
- Client, browser-extension and installer code.
