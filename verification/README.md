# Verification of the archive backend

The repository is a multi-tenant archive backend: one store, changed by many
requests, nightly jobs and queue workers at once. This project models its store,
its services and the steps in which they touch the store, and proves what they
keep over every run and every interleaving.

How the modules fit together:

- `QueryEngine`, `TenantScoping`, `NonInterference`, `TenantRuns`: a small
  relational engine with three-valued filters and sixteen client operations, each
  described row by row, the
  query extension that conjoins and stamps `tenantId`, what the rewrite means, and
  non-interference over runs. `owner` names the tenant that may use a row id; it
  stands for ids being uuids that no two tenants draw alike.
- `Policy`: the deny-overrides policy and the role matrix.
- `Lifecycle`, `LifecycleProtocol`, `LifecycleRights`: versioned history, atomically
  and as a five-step protocol whose only lock is the unique key on item and version,
  and for whom its rows were written.
- `Retention`, `ArchiveService`, `ArchiveRuns`, `RetentionWindow`: policies
  snapshotted at creation, the nightly passes as loops and as a pointwise map, runs
  of everything that writes items, and the timing of erasure.
- `RateLimit`, `LoginThrottle`, `LoginRuns`: the fixed-window limiter over Redis
  commands, a login's use of it as a call, and logins interleaved between commands.
- `Auth`, `Middleware`, `AuthProtocol`, `AuthService`: users, sessions and signed
  tokens; the request gate; every endpoint as separate database steps; the same
  endpoints as calls, tied to the steps by the `Undisturbed...` lemmas.
- `AuthRuns`, `SecondFactor`, `PasswordReset`: for any step of any run, the earlier
  steps it rests on: what a token, an accepted code, or a session rests on.
- `Sharing`, `ResearcherAccess`: reads across tenants and by external researchers,
  each explained by the latest decision on record.
- `Search`: two-step search and the trigger behind the index column.
- `Storage`, `StorageRuns`: object keys, the watermark cache and its cleanup.
- `Drawtext`, `OcrPages`: the watermark label's escaper, and OCR page order.

A run is a sequence of steps of any callers in any order. A step that is not
enabled changes nothing, and a caller that crashes is one never scheduled again.
Clocks, fresh ids, row orders chosen by the database, listings and failures of
foreign services are parameters of the steps and methods, so each theorem holds for
all of them. Methods of classes are proved against functions on the tables they
change; the lemmas are about those functions and about runs of them.

Beside the theorems, lemmas ending in `Means`, `Answers`, `Does` or `Do`, and a few
others next to them, say of a single definition or step what it does to each field,
without its own name, so that a theorem stated through it keeps its sense.

Where the code and its documentation differ, the model follows the code:

- Update payloads are not rewritten, so a payload naming another tenant moves rows
  there (`NonInterference.UpdateConfinedIff`); `findFirstOrThrow`,
  `findUniqueOrThrow` and `createManyAndReturn` are in none of the three operation
  sets and run as written (`ReadConfinedIff`, `InsertConfinedIff`).
- The comment on `reindex` says approved AI text becomes searchable; the trigger
  recomputes the column from title and metadata on that very update
  (`Search.ReindexChangesNothing`).
- The gate checks audience, pending type and session but not that the token is an
  access token; a device token passes as a bearer with no tenant
  (`AuthProtocol.AdmittedWithoutTenantIff`), and the scoped client refuses that
  request (`Middleware.NoTenantNoData`).
- `setupTwoFactor` is described as enrolment, but neither it nor its controller asks
  whether a secret is already enrolled. A pending or a device token can replace it
  and go on to an access token of the tenant (`SecondFactor.HalfAuthenticatedReenrols`);
  a code shows possession of the earlier secret exactly when that did not happen
  (`SecondFactor.CodeShowsEarlierSecretIff`).
- A login reads enforcement once. A role enforced between that read and the signature
  gets its token without a second factor, and only then
  (`SecondFactor.EnforcedWithoutSecondFactorIff`).
- The cleanup works from the rows it read, so a copy recorded on an expired job after
  that read loses its row and stays in the bucket (`StorageRuns.StrandedCopy`).
- The lifecycle comment names an order of statuses; any target status is accepted.

## Model

| member | source | states |
|---|---|---|
| `TenantRuns.RunNonInterference` | src/prisma/prisma.service.ts:98-136 | for any interleaving of any tenants' calls on any model but SharedResource and Tenant, the rows a tenant ends with and every answer it got equal those of the run with all other tenants' calls struck out |
| `TenantRuns.OthersUnaffected` | src/prisma/prisma.service.ts:120-135 | one such call leaves every other tenant's rows in every table as they were |
| `TenantRuns.OwnCallDetermined` | src/prisma/prisma.service.ts:117-135 | a call's answer and its tenant's rows afterwards depend on that tenant's rows alone |
| `TenantRuns.AppendOnlyTablesGrow` | src/prisma/prisma.service.ts:103-113 | in every run of any calls on any models, AuditLog, StatusTransition and EventRevision keep all they held as a prefix |
| `NonInterference.ScopingPreservesMeaning` | src/prisma/prisma.service.ts:120-135 | for each of the thirteen listed operations, the rewritten call on the whole table answers what the call as written, its new rows naming the tenant, answers on the tenant's sub-table, changes that sub-table the same way and no other tenant's rows |
| `NonInterference.ScopedMatch` | src/prisma/prisma.service.ts:121 | the rewritten filter holds of a row exactly if the row is the tenant's and the caller's own where-tree, with any nesting of and, or and not, holds of it, in three-valued logic |
| `NonInterference.CallerTenantOverridden` | src/prisma/prisma.service.ts:121-129 | a top-level tenantId supplied by the caller makes no difference to the rewritten arguments |
| `NonInterference.UpdateConfinedIff` | src/prisma/prisma.service.ts:128-133 | the rewrite does not look at update payloads: each of update, updateMany and upsert, over all filters, other arguments and tables, stays inside the tenant if and only if its payload names no other tenant |
| `NonInterference.ReadConfinedIff` | src/prisma/prisma.service.ts:55 | of the client's read operations exactly the six listed ones answer from the caller's own rows; the OrThrow variants run unscoped |
| `NonInterference.InsertConfinedIff` | src/prisma/prisma.service.ts:56 | of the client's insert operations exactly the two listed ones can add rows to the caller's tenant only |
| `TenantScoping.PrismaService.AllOperations` | src/prisma/prisma.service.ts:98-136 | the hook: unscoped models pass, append-only models refuse mutation before the tenant is asked for, otherwise the arguments are rewritten in place and the query runs on them |
| `TenantScoping.PrismaService.Rewrite` | src/prisma/prisma.service.ts:118-133 | the argument object after the in-place assignments, per operation set |
| `LifecycleProtocol.VersionsContiguousInEveryRun` | src/content-items/content-items.service.ts:73-109 | in every interleaving of transition requests, with failures and crashes at any step, each item's revisions are numbered 1..n in order, and all history rows point to an existing item of their own tenant |
| `LifecycleProtocol.HistoryBalancedInEveryRun` | src/content-items/content-items.service.ts:87-103 | conservation: an item's snapshotted statuses are, with multiplicity, the from-statuses of its transitions plus those of the requests between the two inserts, so revisions minus transitions counts exactly these requests |
| `LifecycleProtocol.OneWinnerPerVersion` | prisma/schema.prisma:436 | of two requests holding the same next number, the one whose insert comes second fails and writes nothing, whatever ran in between |
| `LifecycleProtocol.RunGrows` | src/content-items/content-items.service.ts:80-103 | revisions and transitions only grow; items never disappear or change tenant |
| `LifecycleRights.RevisionsPermitted` | src/content-items/content-items.service.ts:74-94 | in every interleaving, each revision holds the item as one call read it at an earlier step and is in that call's name, of a caller of the item's tenant with a known role, an owner or super admin for RESTRICTED, no researcher for CONFIDENTIAL |
| `LifecycleRights.TransitionsPermitted` | src/content-items/content-items.service.ts:96-103 | and each transition leads from the status so read to the one that call asked for, under the same conditions |
| `LifecycleProtocol.UndisturbedCallIsAtomic` | src/content-items/content-items.service.ts:73-109 | the five steps of a request, uninterrupted, are the atomic transition used in the archive's runs |
| `Lifecycle.NextVersion` | src/content-items/content-items.service.ts:80-85 | the number computed from the latest revision is one past the count of revisions and not yet taken |
| `Lifecycle.LatestIsGreatest` | src/content-items/content-items.service.ts:80-84 | the latest version read is the greatest of the item's revisions in the tenant, in whatever order they stand |
| `Lifecycle.TransitionMeans` | src/content-items/content-items.service.ts:73-123 | over a sound history an uninterrupted request succeeds iff the item is the caller's, the role known, RESTRICTED met only by owner or super admin and CONFIDENTIAL by no researcher; it then appends the next revision of the item as it was and the transition, and sets the status; otherwise it names the reason and writes nothing |
| `ArchiveService.Archive.Create` | src/content-items/content-items.service.ts:42-60 | a new item is RAW in the caller's tenant, with expiry and policy computed from the policy active at that instant |
| `Retention.NewItemTerms` | src/retention/retention-policies.service.ts:30-48 | a new item expires the active policy's days after its creation, to the millisecond, with that policy's values snapshotted; without an active policy never |
| `ArchiveService.Archive.TransitionLifecycle` | src/content-items/content-items.service.ts:73-123 | absent, foreign and forbidden items are refused without a write; otherwise the revision, the transition and the status are written as specified |
| `ArchiveService.Archive.ProcessDocument` | src/documents/document-processing.processor.ts:70-79 | the worker's metadata merge replaces only the extracted text |
| `ArchiveRuns.HistoryReplays` | src/content-items/content-items.service.ts:80-108 | over runs of transitions mixed with retention passes, transitions chain from RAW to the current status except where ARCHIVED was set on an item whose snapshot policy archives; the k-th revision holds the k-th from-status; versions are 1..n |
| `ArchiveRuns.EventsTakeEffect` | src/content-items/content-items.service.ts:87-108 | in every reachable state a permitted caller's transition moves the item, adds one row to each history and changes nothing else |
| `ArchiveRuns.RunEvolves` | src/retention/retention-enforcement.service.ts:98-111 | in every run history rows are kept, expiry and policy snapshot never change after creation, deletedAt is set at most once, and tenants do not change |
| `ArchiveRuns.DeletedOnceExpired` | src/retention/retention-enforcement.service.ts:56-63 | in every run a soft-deleted item had a DELETE policy and had expired by its deletedAt, and keeps both marks in every continuation |
| `ArchiveRuns.OnlyExpiredDeletesScrubbed` | src/retention/retention-enforcement.service.ts:83-111 | a pass changes title or metadata only of items whose snapshot action is DELETE and whose expiry lies seven days before the cutoff |
| `ArchiveService.Archive.Upsert` | src/retention/retention-policies.service.ts:14-22 | updates the tenant's first policy for the content type or inserts one, and touches nothing else |
| `Retention.UpsertSetsTerms` | src/retention/retention-policies.service.ts:14-22 | the days and action upserted are those of the items created next under that tenant and type, unless the existing policy is inactive, and of no others |
| `ArchiveService.Archive.ApplyExpiryActions` | src/retention/retention-enforcement.service.ts:39-81 | the loop, for any listing order and any per-item failures, is the pointwise map over the tenant's expired items, with the audit rows in order |
| `Retention.ExpiryActs` | src/retention/retention-enforcement.service.ts:39-69 | an expired item of the tenant, not soft-deleted, becomes ARCHIVED or soft-deleted at the moment of its update, as its snapshot says and unless that update fails; nothing else of it changes and no other item does |
| `Retention.ExpiryAudited` | src/retention/retention-enforcement.service.ts:71-80 | which entries the first loop leaves: one action per listed item whose update and audit write both succeed |
| `ArchiveService.Archive.HardDeleteExpiredSoftDeletes` | src/retention/retention-enforcement.service.ts:83-116 | the scrub loop likewise; the audit row is written even when the scrub then fails |
| `Retention.ScrubsAudited` | src/retention/retention-enforcement.service.ts:91-96 | an entry for each listed item whose audit write succeeds, whether or not its scrub does |
| `ArchiveService.Archive.Enforce` | src/retention/retention-enforcement.service.ts:34-37 | one tenant's pass is the two loops in sequence |
| `ArchiveService.Archive.Run` | src/retention/retention-enforcement.service.ts:21-32 | the job is the fold of the active tenants' passes |
| `ArchiveService.RunIsPointwise` | src/retention/retention-enforcement.service.ts:21-37 | after the job each item is what its own tenant's pass makes of it; tenant order, other tenants and other items' failures play no part |
| `Retention.PassIdempotent` | src/retention/retention-enforcement.service.ts:39-116 | a second failure-free pass at the same instant leaves the content table unchanged |
| `Retention.PassScrubsExactly` | src/retention/retention-enforcement.service.ts:83-111 | every item of the tenant soft-deleted seven days before the cutoff has the title '[deleted]' and no metadata, whatever a worker wrote to it since, and keeps all other fields; every other item is as the first loop left it |
| `RetentionWindow.ScrubWindow` | src/retention/retention-enforcement.service.ts:39-63 | with passes at most P apart, each lasting at most D, and no failure for the item, a DELETE item expiring at e loses its title and metadata in a pass whose cutoff is in [e + 7 days, e + 7 days + 2P + 2D), and no pass before touches them, under any policy changes and other events in between |
| `RetentionWindow.NeverScrubbed` | src/retention/retention-enforcement.service.ts:45-69 | the title and metadata of an item with any other action are changed by no pass of any run |
| `RateLimit.RateLimitService.Consume` | src/common/rate-limit/rate-limit.service.ts:23-30 | INCR, then EXPIRE for the first of a window; allowed iff the count is within the limit |
| `RateLimit.AllowedBound` | src/common/rate-limit/rate-limit.service.ts:23-34 | for every sequence of commands by any clients, lost EXPIREs included, any interval of the window's length holds at most limit * (2 + resets in it) allowed calls of a key |
| `RateLimit.WindowLetsLimitThrough` | src/common/rate-limit/rate-limit.service.ts:23-34 | with no counter standing, exactly the first `limit` calls of a window are allowed; at its end, or after a reset, the count starts again |
| `LoginRuns.ComparisonsBound` | src/auth/auth.service.ts:48-81 | for logins interleaved between any two of their Redis commands, any number in flight for one email, lost EXPIREs and other clients included: of those counted in any fifteen minutes at most 8 * (2 + resets of that email's counter in them) compare a password |
| `LoginRuns.ComparisonsFromBound` | src/auth/auth.service.ts:49-54 | of the logins from one address counted in any fifteen minutes, for whatever emails and however interleaved, at most 48 compare a password |
| `LoginRuns.UndisturbedAttempt` | src/auth/auth.service.ts:48-81 | a login's steps, uninterrupted, are the attempt of the service method: the same answer and counters |
| `LoginThrottle.Login` | src/auth/auth.service.ts:48-54 | both counters are consumed before either answer is used; a match resets the email's counter only |
| `LoginThrottle.AttemptMeans` | src/auth/auth.service.ts:48-81 | an attempt compares iff its email's counter stands below 8 and its address's below 24; both are counted either way, a match removes the email's, and no other key changes |
| `LoginThrottle.EightPerEmail` | src/auth/auth.service.ts:48 | with no counter standing, the first eight attempts of fifteen minutes pass and no ninth |
| `SecondFactor.AccessRestsOnLogin` | src/auth/auth.service.ts:83-113 | in every interleaving, a staff token signed at any step rests on an earlier step of its own login: its own read of the tenant, which did not enforce the role; or the acceptance of a code for this user and session; or its own device check, which found the session live and a code accepted for it at most 30 days before |
| `SecondFactor.EnforcedWithoutSecondFactorIff` | src/auth/auth.service.ts:83-113 | a token is signed without a code or device check of its login, for a role enforced at that moment, if and only if the role was unenforced at the login's own read and is enforced at the signature |
| `SecondFactor.EnforcedMeanwhile` | src/auth/auth.service.ts:83-113 | this happens from every state in which a login has found the role free |
| `SecondFactor.CodeShowsEarlierSecretIff` | src/auth/auth.service.ts:121-145 | the secret an accepted code is checked against is the one the user had at an earlier step if and only if nobody re-enrolled the user since; unless a full session did, if and only if no pending and no device bearer did |
| `SecondFactor.CodeShowsLoginSecretIff` | src/auth/auth.service.ts:97-145 | every pending bearer's token was given out by a login that matched a password, and the secret is the one of that moment if and only if nobody re-enrolled the user since |
| `SecondFactor.HalfAuthenticatedReenrols` | src/auth/auth.service.ts:121-165 | where it fails, from every state: a pending or a device token replaces an enrolled secret, has a code of the new one accepted and ends with an access token of the user's tenant, let in on every staff route |
| `AuthProtocol.RevocationIsFinal` | src/auth/active-sessions.service.ts:17-29 | after a session row is deleted, by revoke or by a reset, no request with its id is admitted and no device trusted on it, in any continuation, in-flight logins and late freshness writes included |
| `SecondFactor.StaffAdmissionBacked` | src/common/tenant-context/tenant.middleware.ts:150-195 | every bearer let in on a staff route outside the two-factor paths, in any reachable state, is a device token for whose session a code was accepted, or an access token signed on one of the three bases |
| `AuthProtocol.AdmittedWithoutTenantIff` | src/common/tenant-context/tenant.middleware.ts:150-195 | requests pass the gate without a tenant exactly when the bearer is a device token |
| `Middleware.AudiencesExclusive` | src/common/tenant-context/tenant.middleware.ts:119-128 | no token is admitted both on a researcher-portal path and on another |
| `Middleware.GateMeans` | src/common/tenant-context/tenant.middleware.ts:100-196 | which bearers the gate lets in on which paths, iff, and in whose name, tenant and role |
| `Middleware.OpenPathsAre` | src/common/tenant-context/tenant.middleware.ts:29-36 | a path without a dot needs no token iff it is the root, under an asset tree or under one of the six public paths |
| `Middleware.PathIgnoresQuery` | src/common/tenant-context/tenant.middleware.ts:54-56 | the path is the URL up to its query string, whatever the query |
| `AuthService.AuthService.Login` | src/auth/auth.service.ts:43-114 | limiter, first matching candidate, reset, enforcement, trusted device, session: the result, both stores and every error case |
| `AuthService.AuthService.CompareCandidates` | src/auth/auth.service.ts:64-70 | the loop finds the first active candidate whose password matches |
| `Auth.FirstMatchMeans` | src/auth/auth.service.ts:60-70 | the match is the first listed active user of this email with this password, and none means there is none |
| `AuthService.AuthService.CheckTrustedDevice` | src/auth/auth.service.ts:185-199 | a device is trusted iff its token is valid, of that type and user, and its session row is still there and trusted at this moment |
| `AuthService.AuthService.VerifyTwoFactor` | src/auth/auth.service.ts:138-183 | the new session, its trust period and the two tokens, or the failure; a failure changes nothing |
| `AuthService.DeviceRemembered` | src/auth/auth.service.ts:151-163 | a device remembered at a verification spares its user the code for exactly 30 days while its session stands; revoked, or not asked to be remembered, a code is required |
| `AuthService.AuthService.ForgotPassword` | src/auth/auth.service.ts:263-283 | within the limit every candidate, and nobody else, gets its own link valid for an hour; over it nothing changes |
| `AuthService.FiveLinksPerEmail` | src/auth/auth.service.ts:263-264 | five requests for links in fifteen minutes are heard and no sixth; each email has its own counter, apart from the login counters |
| `AuthService.LinksBound` | src/auth/auth.service.ts:263-264 | at most ten in any fifteen minutes, for every interleaving |
| `AuthService.LinkWorksForAnHour` | src/auth/auth.service.ts:268-296 | a link just sent resets its user's password iff used within the hour, and sending it changes nothing else |
| `AuthService.AuthService.ResetPassword` | src/auth/auth.service.ts:285-314 | the first user with this unexpired link gets the password, loses the link and all sessions |
| `AuthService.ResetLinkWorksOnce` | src/auth/auth.service.ts:285-301 | a reset succeeds iff an unexpired link with this token is outstanding, works once, changes its user's password and link and no other user, and ends exactly that user's sessions |
| `PasswordReset.SessionAfterReset` | src/auth/auth.service.ts:285-301 | a session of the user found at any time after a reset's wipe was opened after it: by a code accepted then, by a login already past its password at the reset, or by one that matched the new password or a later one |
| `AuthService.AuthService.Revoke` | src/auth/active-sessions.service.ts:17-29 | only the owner, within the tenant, deletes the row; otherwise nothing changes |
| `AuthService.UndisturbedLogin` | src/auth/auth.service.ts:43-114 | a login's protocol steps, uninterrupted, are the call |
| `AuthService.UndisturbedReset` | src/auth/auth.service.ts:285-301 | so are a reset's |
| `AuthService.UndisturbedVerification` | src/auth/auth.service.ts:138-183 | a verification whose bearer is admitted is the protocol's two steps, accepted or not |
| `Policy.Decide` | src/common/policy/policy.service.ts:69-75 | the early-exit loop computes the fold over the rules and the matrix |
| `Policy.FoldIsConjunction` | src/common/policy/policy.service.ts:69-75 | the fold holds iff no rule vetoes and the role has the capability |
| `Policy.RuleOrderIrrelevant` | src/common/policy/policy.service.ts:26-75 | any permutation of the rules decides the same |
| `Policy.CanMeans` | src/common/policy/policy.service.ts:10-60 | the whole decision role by role, share levels and confidentiality included |
| `Sharing.CrossTenantReadsExplained` | src/sharing/shared-resources.service.ts:76-104 | every item returned across tenants was, at the read of its share, last shared by its owner with the reader's tenant and not revoked since, at the level the policy was asked about; it is not RESTRICTED, nor CONFIDENTIAL for a researcher, and the role is known |
| `Sharing.DecidedByOwner` | src/sharing/shared-resources.service.ts:16-68 | in every run each share and each revocation was made by the tenant that owns the item |
| `Sharing.MayReturnMeans` | src/sharing/shared-resources.service.ts:91-102 | who is shown a shared item, by role and confidentiality, VIEW or EDIT alike |
| `Sharing.SharedResourcesService.ShareOut` | src/sharing/shared-resources.service.ts:16-43 | only an owner shares; sharing again replaces the level of the one row per item and tenant |
| `Sharing.SecondShareRefused` | src/sharing/shared-resources.service.ts:25-42 | of two share calls that both found no row, the second to write is refused and changes nothing |
| `Sharing.UndisturbedShare` | src/sharing/shared-resources.service.ts:16-43 | the two steps of a share, uninterrupted, are the call |
| `Sharing.UndisturbedRead` | src/sharing/shared-resources.service.ts:76-104 | the two steps of a read, uninterrupted, return the item iff it is shared with the reader's tenant and the policy allows it |
| `Sharing.SharedResourcesService.RevokeShare` | src/sharing/shared-resources.service.ts:60-68 | only the owning tenant revokes, and the row is gone |
| `Sharing.SharedResourcesService.GetSharedItem` | src/sharing/shared-resources.service.ts:76-104 | not found, forbidden or the item, as share and policy say |
| `Sharing.SharedResourcesService.Listings` | src/sharing/shared-resources.service.ts:45-58 | outgoing lists the shares of items I own, incoming those granted to my tenant |
| `ResearcherAccess.EntriesExplained` | src/researcher-portal/researcher-portal.service.ts:108-129 | every view or download of an item not PUBLIC and PUBLISHED follows a latest decision on that researcher and item which is an approval in the item's tenant, strictly unexpired at the check |
| `ResearcherAccess.UndisturbedVisit` | src/researcher-portal/researcher-portal.service.ts:64-129 | a view or download, uninterrupted, is let in iff the item is the tenant's, not deleted, and public and published or under an unexpired approval, a download of a video or image only, with its 30-minute job |
| `ResearcherAccess.ApprovedHasExpiry` | src/researcher-portal/access-requests-admin.service.ts:24-55 | in every run an APPROVED row has an expiry and its item's tenant |
| `ResearcherAccess.OneRequestPerPair` | src/researcher-portal/researcher-portal.service.ts:37-45 | of several calls that found no row for a researcher and an item, only the first inserts one, whatever comes between; its id stays |
| `ResearcherAccess.UndisturbedAsk` | src/researcher-portal/researcher-portal.service.ts:32-45 | the two steps of a request, uninterrupted, add one pending row, unless the item is not the tenant's or was asked for before |
| `ResearcherAccess.ResearcherPortal.Ask` | src/researcher-portal/researcher-portal.service.ts:32-45 | one row per researcher and item; asking again returns it unchanged |
| `ResearcherAccess.ResearcherPortal.ApproveRequest` | src/researcher-portal/access-requests-admin.service.ts:24-44 | only a request of the decider's tenant; status and expiry are overwritten, a rejected one included |
| `ResearcherAccess.ResearcherPortal.ApproveForDefault` | src/researcher-portal/access-requests-admin.service.ts:6-24 | without a number of days, thirty |
| `ResearcherAccess.ResearcherPortal.RejectRequest` | src/researcher-portal/access-requests-admin.service.ts:46-55 | the status changes and nothing else |
| `ResearcherAccess.ResearcherPortal.AssertViewable` | src/researcher-portal/researcher-portal.service.ts:108-129 | who may view, who is told not found and who forbidden |
| `ResearcherAccess.ResearcherPortal.RequestDownload` | src/researcher-portal/researcher-portal.service.ts:64-93 | a job for 30 minutes iff the item is viewable and a video or an image |
| `Search.SearchService.Search` | src/search/search.service.ts:28-60 | an error iff there is no tenant; otherwise distinct rows, at most 50, all meeting the filters; if the query has a character that is not white space, all matching it and by falling rank, else newest first with the text playing no part; and a qualifying row is missing only behind 50 rows at least as good |
| `Search.SearchService.BuildStatement` | src/search/search.service.ts:31-46 | the pushed conditions hold of a row iff it meets every filter given, and the order's key is its score, falsy filters and blank queries included |
| `Search.TrimMeans` | src/search/search.service.ts:41 | trimming leaves something iff some character is not white space |
| `Search.TrimEdges` | src/search/search.service.ts:41 | what is left neither starts nor ends with white space |
| `Search.SpacesAre` | src/search/search.service.ts:41 | the white space JavaScript trims, by code point |
| `Search.SearchService.Hydrate` | src/search/search.service.ts:57-59 | the rows found for the ids, in the order of the ids, whatever order the database lists them in |
| `Search.StatementAnswers` | src/search/search.service.ts:48-53 | the statement's page is an answer for every scan order of the table |
| `Search.TwoStepsAreOneScan` | src/search/search.service.ts:51-60 | whatever is written between the two steps, the result is the first step's page in its order, none lost and none twice, each row as it is by then |
| `Search.IndexAlwaysFresh` | prisma/sql/fulltext_search.sql:16-28 | over every run of inserts, updates and reindex calls the index column is the recomputation from the row's current title and metadata |
| `Search.BackfillFreshens` | prisma/sql/fulltext_search.sql:31 | the backfill establishes that agreement for any earlier rows, and is a no-op iff it held |
| `Search.ReindexChangesNothing` | src/search/search.service.ts:66-81 | with the trigger installed every reindex call could be left out of any run: approved AI text never reaches the column |
| `Storage.StripInverts` | src/storage/storage.service.ts:80-87 | stripping a path gives a key iff the path was built from that key in this bucket; anything else is an error |
| `Storage.DocumentKeyInjective` | src/storage/storage.service.ts:27-29 | for slash-free tenant and item ids, equal document keys mean equal tenant, item and file name, file names being arbitrary |
| `Storage.SlashesCollide` | src/storage/storage.service.ts:27-29 | with a slash in an id two documents can share a key |
| `Storage.CacheKeyIsNoDocumentKey` | src/storage/storage.service.ts:53-55 | no watermark-cache key of any tenant is a document key of any tenant |
| `Storage.CacheKeyInTime` | src/storage/storage.service.ts:53-55 | two copies of one item for one researcher share a key iff made in the same millisecond |
| `Storage.WatermarkStore.DeleteRaw` | src/storage/storage.service.ts:57-60 | a malformed path or a refused deletion leaves the bucket as it was |
| `Storage.WatermarkStore.Run` | src/researcher-portal/watermark-cleanup.service.ts:15-35 | for any order of the expired jobs and any failures, the objects and rows gone are those whose own deletions succeeded, a row only after its object; unexpired jobs stay |
| `Storage.CleanupMeans` | src/researcher-portal/watermark-cleanup.service.ts:25-33 | which objects and which rows a cleanup deletes, job by job, iff |
| `StorageRuns.OriginalsSurvive` | src/researcher-portal/watermark-cleanup.service.ts:15-35 | in every interleaving of uploads, workers and overlapping cleanups, each uploaded original is in the bucket as last uploaded |
| `StorageRuns.CleanupInOrder` | src/researcher-portal/watermark-cleanup.service.ts:21-33 | every erased object was recorded by a job already expired when the cleanup read it; the row a cleanup removes, as it is at removal, has its own object erased by that cleanup before if and only if its path is still the one the cleanup read |
| `StorageRuns.RemovedObjectGoneIff` | src/researcher-portal/watermark-cleanup.service.ts:21-33 | the removed row's own object was erased at all if and only if the path is unchanged or another cleanup, or one for another job, erased that key |
| `StorageRuns.RowsGoAfterObjects` | src/researcher-portal/watermark-cleanup.service.ts:21-33 | in every run in which no copy is recorded on a job already expired, every row goes only after the object it records |
| `StorageRuns.LateCopyStrands` | src/researcher-portal/watermark-cleanup.service.ts:21-33 | without that, from every state with such a worker: the row goes, its object stays and nothing was erased |
| `StorageRuns.StrandedCopy` | src/researcher-portal/watermark.processor.ts:93-104 | a whole run of it from the start |
| `StorageRuns.FinishedCopyThere` | src/researcher-portal/watermark.processor.ts:93-104 | a DONE job names an object that is in the bucket unless a cleanup erased that very key |
| `StorageRuns.CopyServed` | src/researcher-portal/watermark.processor.ts:53-104 | a job worked off undisturbed ends DONE with its copy in the bucket beside everything else |
| `StorageRuns.CopyCleaned` | src/researcher-portal/watermark-cleanup.service.ts:21-33 | an undisturbed cleanup of an expired job takes its object and then its row, and nothing else |
| `StorageRuns.CleanupSparesOriginals` | src/researcher-portal/watermark-cleanup.service.ts:24-33 | no key the cleanup loop deletes is a document key, and without failures all its rows go |
| `Drawtext.EscapeIsOnePass` | src/researcher-portal/watermark.processor.ts:15-20 | the three replacements in sequence are one pass over the characters, for every string |
| `Drawtext.UnescapeInverts` | src/researcher-portal/watermark.processor.ts:15-20 | unescaping gives the text back |
| `Drawtext.ColonsAndQuotesEscaped` | src/researcher-portal/watermark.processor.ts:15-20 | every colon and quote of the label has an odd run of backslashes before it, and the label ends in an even one |
| `OcrPages.OcrScannedPdf` | src/documents/document-processing.processor.ts:132-148 | the loop returns the joined texts of the sorted page files and their number, or the first failure |
| `OcrPages.JoinPlaces` | src/documents/document-processing.processor.ts:148 | in the joined text each piece stands whole after those before it and two characters for each, a blank line between neighbours, and the length is that of all together |
| `OcrPages.NameOrder` | src/documents/document-processing.processor.ts:134 | for equal-width zero-padded numbers the lexical order of the names is page order |
| `OcrPages.TextInPageOrder` | src/documents/document-processing.processor.ts:132-148 | for every page count, every listing order and whatever other files the directory holds: page k's text stands at its offset in page order, blank lines between and nothing else, and the page count is n; it fails iff there is no page or one cannot be read, with the first such error |

## Left out

- Foreign effects: S3, SMTP, Redis networking, BullMQ delivery, ffmpeg, pdftoppm, tesseract, pdf-parse and mammoth; they appear as parameters and failure flags.
- Cryptography: a hash is an injective function, a signature is membership in the set of issued tokens, a TOTP check is a flag of the step.
- Tenant context storage: the ambient context is a parameter of each call; entering and leaving it around callbacks is not modelled.
- Outside the query engine: nested writes, relation includes, compound unique keys spanning tenants, updates of primary keys, ordering and paging other than by storage order, aggregates other than counts.
- TenantRuns.RunNonInterference: assumes covered operations, flat payloads that do not name another tenant, and ids that belong to one tenant each; the lemmas ending in ConfinedIff say what happens without the first two.
- SecondFactor.CodeShowsEarlierSecretIff: assumes that secrets drawn at random do not repeat and that administrators do not write them; no code but the two-factor setup does.
- AuthProtocol.RevocationIsFinal: about rows that were deleted; PasswordReset.SessionAfterReset says which new ones may come after a reset.
- Two-factor verification: reading the user, checking the code and inserting the session are one step of the protocol, signing is another.
- Share revocations and access decisions find their row and write it in one step; owners and tenants of rows do not change in between.
- Password reset requests: in the protocol each candidate's link is one step, guarded by the address as it stands at that step.
- ArchiveRuns.HistoryReplays: over atomic transitions; interleaved requests may hold stale snapshots, and for them only LifecycleProtocol's claims hold.
- Retention passes: one tenant's pass is one step of the runs, with a query time, a time per action and a cutoff; other writers between its updates are not interleaved.
- RetentionWindow.ScrubWindow: assumes the tenant stays active and no failure for the item in the window; with failures an erasure is later by the passes missed.
- Watermark orphans: a copy is also left behind when its worker fails to record it or the job is delivered twice; which copies are eventually erased is stated only for rows a cleanup removes.
- Search: the database's text matching and ranking are two functions given to the service, the same for the statement and the claim; ties are in the order of the scan.
- Text extraction: choosing between the embedded text and OCR by length, and the OCR status column, which no other property reads.
- Audit rows of requests other than retention passes, and the audit interceptor.
- Controllers, DTO validation, the public pages, seed data, and the dashboard, brand, character, task, event type, navigation, AI prediction and merge suggestion services, which would only add easy members.
