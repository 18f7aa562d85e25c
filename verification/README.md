# A verified model of the multi-tenant service

The service keeps users, organisations, memberships, projects, API keys and an audit log. Every
request is one transaction: resolve the credential, check tenant, role and last-owner rules, change
a table, append an audit event, commit or roll back. Three creation routes are wrapped in an
idempotency protocol of two commits. This project models those workflows and proves what they keep,
over every run of requests and with a failure allowed at any flush or commit.

How the modules hang together:

- `Domain`, `Store`, `Workflows`: the entities, the tables, and each request as a decision on the
  committed tables (`Decide...`), what a transaction makes of a decision when something may fail
  (`Finish`), a whole request (`Handle`) and a run (`Run`).
- `Services`, `Routes`, `Endpoints`: the same workflows as they run, classes over a session with a
  committed and a working store. Every method is tied to the decision and transaction it carries out;
  `Endpoints.Api.Serve` ties whole requests to `Handle`.
- `AuditLog`: the log alone, as a history: what it replays to, when an entry is permitted by the
  entries before it, and what follows for every log of permitted entries.
- `Ledger`, `LedgerTheorems`: the tables refine the replayed log; the theorems over runs.
- `Effects`: what a successful write changes in the rows, and reading it back.
- `Gate`, `Answers`, `Readings`: every endpoint from credential to response with roles, rows, fields
  and constants written out, on the tables of any reachable state: who gets past the gate, what each
  write leaves behind, what each listing holds.
- `Isolation`, `Circumstances`: dropping requests of other organisations changes nothing for one
  organisation, and what the exceptions are in terms of rows.
- `Paging`, `Listings`: ordering, pages, totals, and branches that never run.
- `Idempotency`, `Creations`: the protocol as a machine over interleaved steps, and the same machine
  with every creation a transaction on one shared ledger.
- `Text`, `Slugs`, `Json`, `JsonProofs`, `JsonText`, `Secrets`, `Metadata`: the pure algorithms:
  slugs, the canonical body text (RFC 8259, sections 4 to 7), the two scanners for secret keys, and
  the metadata of audit events.

Ids, clocks, random keys and their digests come with the request. White space, lower-casing, `ILIKE`
and collation come with the environment; where a lemma needs it, plain lower-case ASCII is left alone
by lower-casing and is not white space. A failure is given as the number of the flush or commit that
raises.

Four statements one might expect are false of the code and are stated exactly instead:

- Other tenants can be noticed in two ways. On project endpoints an API key is authenticated before
  the tenant check, so a request that bears a key of another organisation is told apart (access denied
  or unauthenticated) according to requests of that organisation. And slugs are global, so a change of
  slug is refused because of another organisation. `Isolation.TenantPurge` and
  `Isolation.TenantPurgeOverRuns` say in both directions that there is no third way,
  `Isolation.ForeignKeyTellsRunsApart` and `Isolation.TakenSlugTellsRunsApart` give the examples.
- An idempotency key does not always create once. `Idempotency.OnceOnlyExactly` gives the condition in
  both directions, `Idempotency.OverlapCreatesTwice` and `Idempotency.LostResponseCreatesTwice` runs
  that break it.
- The last-owner check protects serial requests. `LedgerTheorems.OverlappingChangesKeepOwnersExactly`
  says when two overlapping changes leave an owner, `LedgerTheorems.OverlappingRemovalsLoseOwners`
  gives the example.
- The idempotency module's text says records are scoped by the request body hash as well. The look-up
  and the unique indexes leave the hash out; a record with another hash is a conflict. The model
  follows the code.

Check everything with `dafny verify dfyconfig.toml`.

## Model

| member | source | states |
|---|---|---|
| LedgerTheorems.AuditCertifiesItself | src/multi_tenant_saas_api/services/rbac.py:163-197 | In every reachable state, replaying the entries before any audit entry shows that its actor then held a role with the permission the action needs, or was an unrevoked API key of the same organisation acting on a project; that exactly one actor is named; that the recorded old role is the replayed one; and that an owner who left or stepped down left another owner behind. The only entries that need no prior role are the registration and the logins of a user, and the creation of a fresh organisation by one. |
| LedgerTheorems.ReplayRebuildsTables | src/multi_tenant_saas_api/services/memberships.py:168-298 | Folding the committed log rebuilds exactly the users, organisations, roles of every membership, liveness of every project and activity of every key, after any run with any failures. |
| LedgerTheorems.ReachableIsSound | src/multi_tenant_saas_api/database/models.py:62-196 | Every reachable state keeps the foreign keys of memberships, projects and API keys, authors and editors included, and the unique columns (e-mail, slug, key digest, membership id); its log is certified, and the replayed log is what the tables say. |
| LedgerTheorems.EventsReferToRows | src/multi_tenant_saas_api/database/models.py:198-225 | In every reachable state the organisation, the user and the API key of every audit event are rows of their tables. |
| AuditLog.CertifiedPointwise | src/multi_tenant_saas_api/services/audit.py:114-144 | A log is certified exactly when each entry is permitted by the replay of the entries before it. |
| AuditLog.SomeOwnerRemains | src/multi_tenant_saas_api/services/rbac.py:205-228 | In every certified log every organisation has an owner in the replay. |
| AuditLog.OwnersChangeOnlyByOwners | src/multi_tenant_saas_api/services/memberships.py:332-346 | A permitted event whose actor is not an owner of an existing organisation leaves its set of owners exactly as it was. |
| AuditLog.OwnersHaveProvenance | src/multi_tenant_saas_api/services/memberships.py:332-346 | In a certified log every owner is the end of a chain of owner grants at strictly decreasing positions, each made by someone who was an owner at that position, down to the creation of the organisation. |
| AuditLog.DeletedStaysDeleted | src/multi_tenant_saas_api/services/projects.py:287-315 | After a deletion event the project stays dead in every longer certified log and no later event is about it. |
| AuditLog.RevokedStaysRevoked | src/multi_tenant_saas_api/services/api_keys.py:271-286 | After a revocation event the key stays revoked and no later event names it, as actor or as target. |
| AuditLog.DeletedHasOneEvent | src/multi_tenant_saas_api/repositories/projects.py:145-158 | A project that is dead in the replay has exactly one deletion event. |
| AuditLog.RevokedHasOneEvent | src/multi_tenant_saas_api/services/api_keys.py:271-286 | A key that is revoked in the replay has exactly one revocation event. |
| AuditLog.Conservation | src/multi_tenant_saas_api/services/audit.py:132-144 | In a certified log live projects are projects created less projects deleted, and active keys are keys created less keys revoked. |
| LedgerTheorems.AuditCounterPerAction | src/multi_tenant_saas_api/observability/metrics.py:226-229 | After any run the audit counter of each action equals the committed events of that action plus those flushed and rolled back. |
| Ledger.CommandsAreFaithful | src/multi_tenant_saas_api/services/audit.py:114-144 | Whatever any principal's command decides on sound tables, the event is permitted by the history, the table change is what the replay makes of the event, and the constraints still hold. |
| Ledger.AddMemberIsFaithful | src/multi_tenant_saas_api/services/memberships.py:138-192 | Adding a member commits only if the history permits it, and the new row is the one its event replays to. |
| Ledger.UpdateMemberRoleIsFaithful | src/multi_tenant_saas_api/services/memberships.py:194-250 | A role change commits only if the actor may manage both roles and an owner remains; the recorded old and new role are the replayed ones before and after. |
| Ledger.RemoveMemberIsFaithful | src/multi_tenant_saas_api/services/memberships.py:252-298 | A removal commits only if the actor may manage the role and an owner remains; the recorded role is the replayed one. |
| Ledger.CreateProjectIsFaithful | src/multi_tenant_saas_api/services/projects.py:115-158 | Creating a project commits only for a writer or a key of the organisation, under an id that is not in use. |
| Ledger.UpdateProjectIsFaithful | src/multi_tenant_saas_api/services/projects.py:218-276 | Updating a project commits only on a live project of the organisation and changes neither its organisation nor its liveness. |
| Ledger.DeleteProjectIsFaithful | src/multi_tenant_saas_api/services/projects.py:278-315 | Deleting a project commits only on a live project of the organisation and makes it dead. |
| Ledger.CreateApiKeyIsFaithful | src/multi_tenant_saas_api/services/api_keys.py:174-217 | Creating a key commits only for a key manager, under an id and a digest that are not in use. |
| Ledger.RevokeApiKeyIsFaithful | src/multi_tenant_saas_api/services/api_keys.py:248-298 | Revoking commits only on an active key of the organisation, so a key is revoked once. |
| Ledger.CreateOrganisationIsFaithful | src/multi_tenant_saas_api/services/organisations.py:116-164 | Creating an organisation adds it under a fresh id and slug together with its creator as owner. |
| Ledger.UpdateOrganisationIsFaithful | src/multi_tenant_saas_api/services/organisations.py:211-261 | Updating an organisation needs the permission, does not show in the replayed view and keeps slugs unique. |
| Ledger.RegisterIsFaithful | src/multi_tenant_saas_api/services/auth_api.py:135-179 | Registering adds one user under a fresh id, with the event that replays to it. |
| Ledger.LoginIsFaithful | src/multi_tenant_saas_api/services/auth_api.py:181-219 | Logging in changes no row, and its event names a registered user. |
| Ledger.StampKeyIsInvisible | src/multi_tenant_saas_api/repositories/api_keys.py:108-119 | Stamping the use of a key changes nothing the log tells about and no constraint. |
| Ledger.OtherOwnersExist | src/multi_tenant_saas_api/repositories/memberships.py:103-116 | The count of other owners is positive exactly when the replay knows another owner. |
| Ledger.HandleKeepsSound | src/multi_tenant_saas_api/services/projects.py:135-156 | Any request, with a failure at any flush or commit, keeps the invariant. |
| Ledger.RunKeepsSound | src/multi_tenant_saas_api/services/projects.py:135-156 | Any run of requests, with any failures, keeps the invariant. |
| LedgerTheorems.EveryOrganisationHasAnOwner | src/multi_tenant_saas_api/services/rbac.py:205-228 | In every reachable state every organisation has an owner in the membership table. |
| LedgerTheorems.ProtectionIsExact | src/multi_tenant_saas_api/repositories/memberships.py:103-124 | On an organisation with an owner, the last-owner check holds exactly when the requested change would leave none. |
| LedgerTheorems.RoleChangeGuardIsExact | src/multi_tenant_saas_api/services/memberships.py:311-330 | Once the role checks pass, a role change is refused for the owners' sake if and only if its result would have no owner. |
| LedgerTheorems.RemovalGuardIsExact | src/multi_tenant_saas_api/services/memberships.py:311-330 | Once the role checks pass, a removal is refused for the owners' sake if and only if its result would have no owner. |
| LedgerTheorems.OverlappingChangesKeepOwnersExactly | src/multi_tenant_saas_api/services/rbac.py:221-228 | When two removals or role changes are decided on the same tables with an owner, by anybody, and both commit, the organisation keeps an owner if and only if both are about the same member, one of them makes an owner, or somebody else is one. |
| LedgerTheorems.OverlappingRemovalsLoseOwners | src/multi_tenant_saas_api/services/rbac.py:221-228 | So the only two owners can remove each other: both pass the guard, and no owner is left. |
| LedgerTheorems.OwnersTraceBackToCreator | src/multi_tenant_saas_api/services/organisations.py:130-146 | In every reachable state every owner is linked to the creator by a chain of grants made by owners. |
| LedgerTheorems.NonOwnersKeepOwners | src/multi_tenant_saas_api/services/memberships.py:332-346 | A run in which no acting principal is an owner of the organisation leaves its set of owners exactly as it was. |
| LedgerTheorems.HandleInView | src/multi_tenant_saas_api/services/audit.py:114-144 | A request leaves log and view alone, or appends its one event, permitted by the view, which then absorbs it. |
| LedgerTheorems.DeadRowsNeverChange | src/multi_tenant_saas_api/repositories/projects.py:50-65 | In any later run a deleted project and a revoked key keep their rows to the letter, the time of deletion or revocation included. |
| LedgerTheorems.DeletionIsFinal | src/multi_tenant_saas_api/services/projects.py:287-315 | A deleted project has exactly one deletion event and no later event is about it. |
| LedgerTheorems.RevocationIsFinal | src/multi_tenant_saas_api/repositories/api_keys.py:52-59 | A revoked key has exactly one revocation event and no later event has it as actor or target. |
| LedgerTheorems.AllOrNothing | src/multi_tenant_saas_api/services/projects.py:135-156 | A request either answers successfully and adds exactly one event, or leaves tables and log as they were, stamps of key use aside, wherever it failed. |
| LedgerTheorems.CountersMatchTheLog | src/multi_tenant_saas_api/services/api_keys.py:195-215 | After any run the created and revoked counters equal the matching committed events, and the audit counter exceeds the committed events by exactly those that were flushed and then rolled back. |
| LedgerTheorems.TablesAreConserved | src/multi_tenant_saas_api/services/projects.py:278-315 | In every reachable state live projects are created less deleted events, and active keys created less revoked events. |
| Effects.TenantGate | src/multi_tenant_saas_api/services/rbac.py:163-197 | Every user request below an organisation, whatever its command, fails and changes nothing if the organisation does not exist, if the user is no member, or if the member's role lacks the endpoint's permission, with the error of the first of the three; `Gate.RoleTable` says which role lacks which endpoint. |
| Effects.WriteChangesOneProject | src/multi_tenant_saas_api/repositories/projects.py:27-48 | A successful project write changes one project row of the addressed organisation and nothing else of the tables but stamps of key use; a creation writes the name, status and description that were asked for, with the bearer, if a user, as author and editor and nobody otherwise. |
| Effects.UpdateSetsWhatIsGiven | src/multi_tenant_saas_api/repositories/projects.py:123-143 | A project update sets exactly the fields that were given, an explicit empty description included, makes the bearer the last editor if a user and keeps the last editor otherwise, keeps author, dates and organisation, and answers with the stored row. |
| Effects.ReadYourWrites | src/multi_tenant_saas_api/services/projects.py:201-216 | Whoever creates or updates a project, user or API key, reads back exactly what was answered; after a deletion the project is not found. |
| Effects.MemberWriteChangesOneMembership | src/multi_tenant_saas_api/repositories/memberships.py:126-143 | A member write changes one membership: an addition finds none, a role change keeps id and date, a removal leaves none. |
| Effects.KeyWriteChangesOneKey | src/multi_tenant_saas_api/repositories/api_keys.py:96-106 | Creating a key adds one under an id and a digest of its own; revoking keeps everything but the time of revocation; no other row changes. |
| Effects.OrganisationUpdateKeepsSlugsApart | src/multi_tenant_saas_api/repositories/organisations.py:69-84 | An organisation update sets what is given, the slug normalised, changes no other row, and no other organisation has that slug. |
| Effects.NewOrganisationIsOwned | src/multi_tenant_saas_api/services/organisations.py:116-146 | A new organisation has a slug nobody had, a valid one when derived from its name (`Slugs.SlugLetters` says letter by letter what that is), and its creator as only member and owner. |
| Isolation.TenantPurge | src/multi_tenant_saas_api/services/projects.py:317-362 | For any run with fresh ids whose earlier slug changes of the organisation are refused with and without the dropped requests alike: dropping any set of requests that neither name this organisation nor register a user (say, all that name another one) leaves the response to the next request of this organisation as it was, last uses left out, if and only if it bears another organisation's key in both runs or in neither, and asks for a taken slug in both or in neither; bearers of a foreign key succeed in neither. |
| Isolation.TenantPurgeOverRuns | src/multi_tenant_saas_api/services/organisations.py:211-261 | Over a whole run with fresh ids, slug changes included: dropping any set of such requests changes no response to this organisation, last uses left out, if and only if each of its requests meets those two circumstances alike in both runs. |
| Isolation.PurgedRunsHoldTheSame | src/multi_tenant_saas_api/repositories/projects.py:59-65 | As long as the slugs the organisation asks for are refused in both runs or in neither, the full and the purged run hold the same members, projects, keys (last uses left out), organisation row and audit events of the organisation. |
| Isolation.HomeAnswersExactly | src/multi_tenant_saas_api/services/organisations.py:231-235 | On stores that agree on the organisation, any request of the organisation answers the same if and only if it bears a foreign key on both or on neither and its slug is taken on both or on neither. |
| Isolation.HomeRequestAgrees | src/multi_tenant_saas_api/services/api_keys.py:326-346 | On stores that agree on the organisation, a request of the organisation that bears no foreign key, and whose slug is taken on both or on neither, answers the same and leaves them agreeing. |
| Isolation.OtherRequestKeepsSlice | src/multi_tenant_saas_api/services/projects.py:341-362 | A request that names another organisation, whoever makes it, changes nothing this organisation sees. |
| Isolation.ForeignKeysAreRefused | src/multi_tenant_saas_api/services/projects.py:351-354 | A key of another organisation is refused access on every project endpoint, and the whole state is as before but for the stamp of that key. |
| Isolation.ForeignKeyTellsRunsApart | src/multi_tenant_saas_api/services/api_keys.py:334-346 | The first exception is real: with the other organisation's key creation in the run its bearer is refused the tenant, without it the bearer is unauthenticated. |
| Isolation.TakenSlugTellsRunsApart | src/multi_tenant_saas_api/services/organisations.py:231-235 | The second exception is real: with another organisation's creation under a free slug in the run a member who asks for that slug is refused, without it the slug is given. |
| Isolation.TwoTenants | src/multi_tenant_saas_api/services/organisations.py:116-164 | States as both exceptions need are reachable: two organisations, a user who may change them and create keys, and a free slug. |
| Paging.SortedListsRows | src/multi_tenant_saas_api/repositories/projects.py:81-97 | The sorted listing holds every matching row exactly once and in order. |
| Paging.OrderIsUnique | src/multi_tenant_saas_api/repositories/projects.py:88-92 | With ids that identify rows there is only one ordered listing. |
| Paging.DescendingIsReverse | src/multi_tenant_saas_api/repositories/projects.py:161-171 | Sorting the other way, id tie-break included, gives exactly the reversed listing. |
| Paging.PagesPartition | src/multi_tenant_saas_api/repositories/projects.py:93-97 | Enough successive pages of any size concatenate to the sorted listing: no row lost, none repeated. |
| Listings.ProjectPagesPartition | src/multi_tenant_saas_api/services/projects.py:160-199 | Page after page, as the endpoint answers them, returns every project that matches the filter exactly once and in order, as many as the total says, and the opposite direction returns exactly the reverse; `Readings.PagesSelect` says field by field which rows match. |
| Listings.ProjectTotalIsExact | src/multi_tenant_saas_api/repositories/projects.py:99-121 | The count of projects is the number of rows the list selects, for every filter. |
| Listings.MemberTotalIsExact | src/multi_tenant_saas_api/repositories/memberships.py:78-87 | The count of members is the number of rows the list selects. |
| Listings.KeyTotalIsExact | src/multi_tenant_saas_api/repositories/api_keys.py:78-94 | The count of keys is the number of rows the list selects. |
| Listings.OrganisationListAgreesWithCount | src/multi_tenant_saas_api/repositories/organisations.py:35-67 | In every reachable state the join of organisations and memberships has as many rows as the count over memberships alone, lists exactly the user's organisations in order and none twice. |
| Listings.EveryPageIsAccepted | src/multi_tenant_saas_api/schemas/common.py:14-32 | No page that any listing endpoint answers in a reachable state is rejected by its own pagination metadata. |
| Listings.ListingFindsEveryUser | src/multi_tenant_saas_api/services/memberships.py:300-309 | Listing members never fails to find a user. |
| Listings.RoleChangeFindsItsUser | src/multi_tenant_saas_api/services/memberships.py:224-226 | A role change never fails to find its user. |
| Listings.RevokedMeansRevoked | src/multi_tenant_saas_api/services/api_keys.py:291-298 | A successful revocation leaves the row revoked at the time the answer gives; repeating it answers the first time and changes nothing. |
| Listings.CurrentUserMemberships | src/multi_tenant_saas_api/services/auth_api.py:229-237 | The loop shows the memberships whose organisation exists, in order. |
| Listings.CurrentUserSeesAllMemberships | src/multi_tenant_saas_api/services/auth_api.py:229-237 | In every reachable state that loop skips nothing. |
| Idempotency.CountingLaw | src/multi_tenant_saas_api/services/idempotency.py:136-199 | Under every interleaving and every failure, for each scope: committed creations with the key equal records stored (0 or 1) plus calls between create and store plus calls whose store failed. |
| Idempotency.RecordsAndAnswersAreFinal | src/multi_tenant_saas_api/repositories/idempotency.py:17-47 | In any continuation stored records never change and an answered call keeps its answer and takes no further step. |
| Idempotency.AnswersAgree | src/multi_tenant_saas_api/services/idempotency.py:147-160 | Under every interleaving all successful answers on one scope agree, the raw key of a first answer left out, and answer equal bodies. |
| Idempotency.SecondBodyDecides | src/multi_tenant_saas_api/services/idempotency.py:147-160 | Looking up a key with a record replays it if the body equals the author's as a value and conflicts otherwise; either way nothing is created or stored. |
| Idempotency.OnceOnlyExactly | src/multi_tenant_saas_api/routes/projects.py:71-117 | In any run, whatever overlaps, fails or is lost, at most one resource is created with a key if and only if each creation with it started when it had no record, no call between its commits and no lost response. |
| Idempotency.OneCallCreatesOnceExactly | src/multi_tenant_saas_api/routes/api_keys.py:78-122 | A call that nobody overtakes and whose creation would succeed leaves at most one resource of its key if and only if there was at most one and the key has its record or nothing was created with it yet. |
| Idempotency.OnceOnly | src/multi_tenant_saas_api/routes/projects.py:71-117 | So if calls with the key never overlap and no response is lost, any number of them creates at most one resource. |
| Idempotency.OverlapCreatesTwice | src/multi_tenant_saas_api/routes/projects.py:71-117 | Two overlapping calls with one key can create two resources though no response is lost. |
| Idempotency.LostResponseCreatesTwice | src/multi_tenant_saas_api/services/idempotency.py:184-199 | Two calls one after the other create two resources when the first response was lost. |
| Idempotency.FailedCreateLeavesKeyReusable | src/multi_tenant_saas_api/routes/organisations.py:86-98 | A failed creation stores and creates nothing, and the next call with the key creates one resource and stores its record. |
| Idempotency.OnlyFaultsAndClashesLose | src/multi_tenant_saas_api/services/idempotency.py:178-199 | For the responses of the three routes a store fails exactly when a flush or the commit fails or a record of the scope is there already: never for a secret field. |
| Idempotency.CountersMatchAnswers | src/multi_tenant_saas_api/observability/metrics.py:231-239 | The replay and conflict counters equal the numbers of replayed and conflicting calls. |
| Idempotency.ServedIsARun | src/multi_tenant_saas_api/routes/projects.py:71-117 | A call that nobody overtakes ends, in phase, records and creations, as the five steps of the machine do. |
| Routes.RouteIsARun | src/multi_tenant_saas_api/routes/organisations.py:73-104 | A route that runs from start to end is a run of the interleaved protocol: same answer, same records, same creations. |
| Creations.JointRunsAreRuns | src/multi_tenant_saas_api/routes/projects.py:71-117 | When the creation of a call is a transaction on the shared ledger, with any other requests and calls in between, what the protocol does is still a run of the protocol. |
| Creations.CreationsAreEvents | src/multi_tenant_saas_api/routes/projects.py:97-117 | In such a run the creations made with a key are as many as the committed audit events of their own, each a creation by the key's principal in the key's organisation; there is at most one if and only if each creation started from a key that was clear. |
| Creations.JointRunsKeepSound | src/multi_tenant_saas_api/services/projects.py:115-158 | If every creation is made for a principal that is there, and a key not revoked, at that moment, interleaved runs keep the ledger's whole invariant. |
| Creations.InterleavedLedger | src/multi_tenant_saas_api/services/audit.py:114-144 | Then the log of an interleaved run certifies itself, replays to the tables, and every organisation has an owner. |
| Routes.IdempotencyService.StartRequest | src/multi_tenant_saas_api/services/idempotency.py:106-160 | Looks the scoped key up, decides between no key, proceed, replay and conflict, and counts a replay or a conflict; `Routes.ScopesTellApart` says when two scopes are the same. |
| Routes.IdempotencyService.StoreResponse | src/multi_tenant_saas_api/services/idempotency.py:162-199 | Stores the snapshot unless it holds a secret field, a flush or the commit fails or the record exists; otherwise nothing changes, and the ledger never does. |
| Routes.ProjectRoutes.CreateProject | src/multi_tenant_saas_api/routes/projects.py:54-117 | Permission check, look-up, creation and snapshot in this order: answer, records and ledger are those of the protocol around the project transaction. |
| Routes.ApiKeyRoutes.CreateApiKey | src/multi_tenant_saas_api/routes/api_keys.py:57-122 | The same for API keys, with the snapshot taken of the sanitised body. |
| Routes.OrganisationRoutes.CreateOrganisation | src/multi_tenant_saas_api/routes/organisations.py:54-104 | The same for organisations, without a tenant check and with a scope that has no organisation. |
| Services.AuditService.RecordEvent | src/multi_tenant_saas_api/services/audit.py:114-144 | Appends the event to the open transaction and moves its counter with the flush, never commits, and its metadata check never raises. |
| Services.Context.Conclude | src/multi_tenant_saas_api/services/projects.py:143-156 | Event, commit, and rollback of everything on any failure. |
| Services.MembershipService.AddMember | src/multi_tenant_saas_api/services/memberships.py:138-192 | The steps of the workflow leave tables, log, counters and answer of the addition's transaction, and nothing pending. |
| Services.MembershipService.UpdateMemberRole | src/multi_tenant_saas_api/services/memberships.py:194-250 | The same for a role change. |
| Services.MembershipService.RemoveMember | src/multi_tenant_saas_api/services/memberships.py:252-298 | The same for a removal. |
| Services.ProjectService.CreateProject | src/multi_tenant_saas_api/services/projects.py:115-158 | The same for creating a project, with its counter. |
| Services.ProjectService.UpdateProject | src/multi_tenant_saas_api/services/projects.py:218-276 | The same for updating a project. |
| Services.ProjectService.SetFields | src/multi_tenant_saas_api/repositories/projects.py:123-143 | The field-by-field assignment sets what is given and keeps the last editor when an API key edits. |
| Services.ProjectService.DeleteProject | src/multi_tenant_saas_api/services/projects.py:278-315 | The same for the soft delete. |
| Services.ApiKeyService.CreateApiKey | src/multi_tenant_saas_api/services/api_keys.py:174-217 | The same for creating a key, with its counter. |
| Services.ApiKeyService.RevokeApiKey | src/multi_tenant_saas_api/services/api_keys.py:248-298 | The same for revoking; the check that the row ended up revoked never raises. |
| Services.OrganisationService.CreateOrganisation | src/multi_tenant_saas_api/services/organisations.py:116-164 | The same for creating an organisation, with its two flushes and its counter. |
| Services.OrganisationService.UpdateOrganisation | src/multi_tenant_saas_api/services/organisations.py:211-261 | The same for updating an organisation. |
| Services.AuthService.RegisterUser | src/multi_tenant_saas_api/services/auth_api.py:142-177 | The same for registration once the e-mail is normalised; a password that cannot be hashed changes nothing, and attempts are counted as successful exactly when answered so, as failed for a taken e-mail or a failing hash, and not at all when a flush or the commit breaks. |
| Services.AuthService.LoginUser | src/multi_tenant_saas_api/services/auth_api.py:181-219 | The same for logging in, which appends its event only; unknown, inactive and wrong-password attempts count as failed, a broken flush or commit as neither; `Answers.LoginAnswers` says who gets a token. |
| Services.ApiKeyAuthenticationService.ResolveProjectPrincipal | src/multi_tenant_saas_api/services/api_keys.py:326-346 | User token first, then the one active key with the digest, whose use is stamped and committed before the workflow starts. |
| Endpoints.Api.Serve | src/multi_tenant_saas_api/services/api_keys.py:326-346 | Credential and workflow, run as the services run them, leave exactly the state and answer the ledger's request does, for every changing command and every failure. |
| Slugs.SlugOfLowered | src/multi_tenant_saas_api/services/organisations.py:294-303 | For every lowered name the slug is the hyphen-join of the maximal runs of a-z and 0-9, padded when short and cut when long, and always satisfies the published pattern and its length bounds of 3 and 80; `Slugs.SplitExactly` and `Slugs.SlugLetters` say the same with the letters written out. |
| Slugs.FallbackIsDead | src/multi_tenant_saas_api/services/organisations.py:301-302 | The last branch, for a cut candidate shorter than 3, never runs. |
| Slugs.SlugsAreFixedPoints | src/multi_tenant_saas_api/schemas/organisations.py:11-23 | A valid slug derives itself as a name and is stored as it is when given. |
| Slugs.DerivingIsIdempotent | src/multi_tenant_saas_api/services/organisations.py:294-303 | Deriving twice changes nothing. |
| JsonProofs.ParsePrinted | src/multi_tenant_saas_api/services/idempotency.py:209-214 | The reader of the printer's texts gets every printed value back and leaves the rest of the text untouched. |
| JsonProofs.EncodingRoundTrip | src/multi_tenant_saas_api/services/idempotency.py:209-214 | The canonical text read back is the body with its keys sorted. |
| JsonProofs.EncodingDecidesEquality | src/multi_tenant_saas_api/services/idempotency.py:202-215 | Two bodies have the same canonical text if and only if they are equal as values, whatever the order of their keys. |
| JsonProofs.HashDecidesEquality | src/multi_tenant_saas_api/services/idempotency.py:202-215 | With a collision-free digest two bodies have the same request hash if and only if they are equal as values. |
| Secrets.AuditFilterIsExact | src/multi_tenant_saas_api/services/audit.py:186-213 | The audit scanner rejects a value of any depth if and only if some string key on some path is forbidden after normalisation. |
| Secrets.SnapshotFilterIsExact | src/multi_tenant_saas_api/services/idempotency.py:261-284 | The snapshot scanner reports nothing if and only if no key outside tuples shows as secret, and otherwise the first such key in document order. |
| Secrets.InclusionIsExact | src/multi_tenant_saas_api/services/idempotency.py:261-284 | Of the values the audit scanner accepts, the snapshot scanner accepts exactly those without a non-string key outside tuples that shows as a secret field. |
| Secrets.AuditFilterIsStricter | src/multi_tenant_saas_api/services/audit.py:201-213 | So on string-keyed values the snapshot scanner accepts whatever the audit scanner accepts. |
| Secrets.FiltersDiffer | src/multi_tenant_saas_api/services/idempotency.py:32-44 | Both differences are real: the key `api_key` is refused by the audit scanner alone, a non-string key shown as `token` by the snapshot scanner alone. |
| Secrets.ReplayBodyAccepted | src/multi_tenant_saas_api/services/idempotency.py:218-226 | A sanitised body is accepted if and only if every entry other than the exact top-level `raw_key` and a previous `idempotency_replay` was harmless. |
| Secrets.RouteSnapshotsAccepted | src/multi_tenant_saas_api/services/idempotency.py:178-182 | None of the three routes has its snapshot rejected; without the sanitising the API-key route would, for `raw_key`. |
| Secrets.MetadataNeverRejected | src/multi_tenant_saas_api/services/audit.py:130-131 | The metadata of every workflow passes the audit scanner. |
| Gate.RoleTable | src/multi_tenant_saas_api/domain.py:78-105 | The whole role table by endpoint: a member of the organisation who signed in is refused for lack of permission if and only if a viewer asks for anything but the organisation, the project list or a project, a member for anything but those and the project writes, or an admin would make, change or remove an owner; a refused request changes nothing. |
| Gate.RolesOfPermission | src/multi_tenant_saas_api/domain.py:78-116 | Which roles hold each of the eight permissions; only owners hold the permission to manage the organisation. |
| Gate.StrangersExactly | src/multi_tenant_saas_api/services/rbac.py:178-189 | Below an organisation a user is told that it does not exist, or that access is denied, exactly when it does not or when they are no member, whatever the command and wherever it might fail; nothing changes then. |
| Gate.BearersExactly | src/multi_tenant_saas_api/services/api_keys.py:326-346 | A request that needs a credential is answered as unauthenticated if and only if no active user signed in and, on project endpoints, no unrevoked key has the digest either. |
| Gate.KeysReachTheirProjects | src/multi_tenant_saas_api/services/projects.py:341-362 | A key is refused the tenant on a project endpoint if and only if it belongs to another organisation, and never for a role. |
| Gate.AuditNamesRoles | src/multi_tenant_saas_api/services/rbac.py:163-228 | In every reachable state the replay before a user's audit entry shows the actor as owner, admin or member for project writes, as owner or admin for everything else in an organisation, and as owner where an owner was made, changed or removed. |
| Answers.LoginAnswers | src/multi_tenant_saas_api/services/auth_api.py:181-219 | With unique e-mails and no failure, a login succeeds if and only if the password matches and some active user has the e-mail; the answer is that user's token and only the event and its counter are added; every other attempt gets the same refusal and changes nothing. |
| Answers.RegisterAnswers | src/multi_tenant_saas_api/services/auth_api.py:135-179 | The whole outcome of a registration: a taken e-mail is refused and changes nothing, otherwise there is one more active user, the event without an organisation, and its counter. |
| Answers.CreateOrganisationAnswers | src/multi_tenant_saas_api/services/organisations.py:116-164 | The whole outcome of creating an organisation: refused exactly for a taken slug or id, otherwise the row, the owner's membership with its date, the event, both counters and the answer. |
| Answers.UpdateOrganisationAnswers | src/multi_tenant_saas_api/services/organisations.py:211-261 | The whole outcome of an update by an owner or admin: refused exactly when another organisation has the new slug, otherwise what is given is set and the event names the given fields. |
| Answers.AddMemberAnswers | src/multi_tenant_saas_api/services/memberships.py:138-192 | The whole outcome of an addition by an owner or admin: the four refusals in their order, otherwise the membership with its id, role and date in table, event and answer. |
| Answers.UpdateMemberRoleAnswers | src/multi_tenant_saas_api/services/memberships.py:194-250 | The whole outcome of a role change by an owner or admin: not found, denied to an admin when an owner is touched, protected exactly when the only owner would step down, otherwise the same membership with the new role, both roles in the event, and that membership in the answer. |
| Answers.RemoveMemberAnswers | src/multi_tenant_saas_api/services/memberships.py:252-298 | The whole outcome of a removal by an owner or admin, with the same refusals and the removed role in the event. |
| Answers.CreateApiKeyAnswers | src/multi_tenant_saas_api/services/api_keys.py:174-217 | The whole outcome of creating a key: a clash breaks the request, otherwise the row has the given name, prefix and digest, its creator and date, and is neither revoked nor used. |
| Answers.RevokeApiKeyAnswers | src/multi_tenant_saas_api/services/api_keys.py:248-298 | The whole outcome of a revocation: not found outside the organisation, the first time repeated for a revoked key without a change, otherwise the time of revocation, the event and both counters. |
| Answers.CreateProjectAnswers | src/multi_tenant_saas_api/services/projects.py:115-158 | The whole outcome of creating a project, by a user or a key: row, author, editor and date, event with its actor, counters and answer. |
| Answers.UpdateProjectAnswers | src/multi_tenant_saas_api/services/projects.py:218-276 | The whole outcome of updating a project: not found unless live in the organisation, otherwise the given fields set, the editor as the bearer says, everything else kept, and the event naming the given fields in their order. |
| Answers.DeleteProjectAnswers | src/multi_tenant_saas_api/services/projects.py:278-315 | The whole outcome of deleting a project: the row keeps its fields and author, gets the time of deletion and, from a user, the last editor; the event holds the name. |
| Answers.KeyUseIsStamped | src/multi_tenant_saas_api/repositories/api_keys.py:108-119 | Whenever a key opens a request its last use is set to now, whatever becomes of the request, unless the flush or commit of the stamp itself fails; no other key changes. |
| Answers.FaultsExactly | src/multi_tenant_saas_api/services/projects.py:135-156 | What a failing flush or commit makes of any user's request: if the request would write, nothing is committed up to and including the commit, and only a failing commit leaves the audit counter moved; if it would not, it still does not. |
| Readings.ListProjectsAnswers | src/multi_tenant_saas_api/repositories/projects.py:67-97 | The whole answer of the project list: the rows of the organisation that are not deleted, have the status asked for and are like a non-empty search, each once, ordered by date, name or status and then id in the direction asked for, cut at offset and limit, with their number as the total. |
| Readings.PagesSelect | src/multi_tenant_saas_api/repositories/projects.py:67-121 | With enough pages a row is in the pages of a listing if and only if it is in the organisation, not deleted, of the status asked for and like a non-empty search; the total is the number of such rows. |
| Readings.ListingIsUnique | src/multi_tenant_saas_api/repositories/projects.py:88-92 | Only one list of rows answers that description, so all pages of a listing are cut from the same one. |
| Readings.GetProjectAnswers | src/multi_tenant_saas_api/services/projects.py:201-216 | A project is answered with its row exactly when it is in the organisation and not deleted. |
| Readings.ListMembersAnswers | src/multi_tenant_saas_api/repositories/memberships.py:48-65 | The whole answer of the member list: every member with the account, by date of joining and then id, cut at offset and limit, with their number. |
| Readings.ListApiKeysAnswers | src/multi_tenant_saas_api/repositories/api_keys.py:61-94 | The whole answer of the key list: every key of the organisation, revoked ones too, newest first, cut at offset and limit, with their number. |
| Readings.ListOrganisationsAnswers | src/multi_tenant_saas_api/repositories/organisations.py:35-67 | The whole answer of the organisation list: those the user is a member of, by name and then id, cut at offset and limit, with their number. |
| Readings.GetOrganisationAnswers | src/multi_tenant_saas_api/services/organisations.py:189-209 | Every member gets the organisation's row. |
| Readings.ListAuditAnswers | src/multi_tenant_saas_api/repositories/audit_events.py:47-75 | The whole answer of the audit list: the events of the organisation alone, each once, from the last to the first, cut at offset and limit, with their number. |
| Readings.MembershipsShown | src/multi_tenant_saas_api/services/auth_api.py:229-237 | The memberships shown to the current user, row by row: organisation and role, left out exactly when the organisation is missing. |
| Circumstances.VisibleIsAllButLastUse | src/multi_tenant_saas_api/services/api_keys.py:219-246 | The answers that the isolation theorems compare are alike exactly when they are equal, or are listings of the same keys with the same total that differ in last uses. |
| Circumstances.ForeignKeyIs | src/multi_tenant_saas_api/services/api_keys.py:326-346 | The first circumstance, in terms of rows: a project endpoint, no active user signed in, and an unrevoked key of another organisation has the digest. |
| Circumstances.SlugRefusedIs | src/multi_tenant_saas_api/services/organisations.py:221-235 | The second circumstance, in terms of rows: an owner or admin of the organisation asks for a slug that is not its own and that another organisation has. |
| Routes.ScopesTellApart | src/multi_tenant_saas_api/repositories/idempotency.py:49-72 | Two keyed requests have the same scope if and only if key, kind of principal, principal, organisation, upper-cased method and path agree; a request has no scope exactly when it has no key. |
| Routes.KeysDecide | src/multi_tenant_saas_api/services/idempotency.py:106-160 | After any call of a route, a call that differs in one of the six is answered as if the first had never been; one that agrees in all gets the stored snapshot with status 201 if the bodies hash alike and a conflict otherwise. |
| Routes.StoredUnderScope | src/multi_tenant_saas_api/services/idempotency.py:162-199 | A route stores under its own scope at most, and exactly when it answers with a fresh creation. |
| Routes.SnapshotsStored | src/multi_tenant_saas_api/services/idempotency.py:218-226 | Two routes store their answer as it is, the API-key route the key's data with a note in place of the raw key. |
| Slugs.SplitExactly | src/multi_tenant_saas_api/services/organisations.py:37-37 | The words of a slug are split exactly at the characters outside a-z and 0-9, and joined by single hyphens. |
| Slugs.SlugLetters | src/multi_tenant_saas_api/services/organisations.py:294-303 | Every derived slug has 3 to 80 characters, all of them a-z, 0-9 or single inner hyphens; it is the joined words, with `-org` added when shorter than 3 and cut at 80, or at 79 when the cut ends in a hyphen. |
| Slugs.StrippedThenLowered | src/multi_tenant_saas_api/services/organisations.py:288-297 | A slug is derived from the lowered name without its outer white space, and a given slug is stored lowered and stripped. |
| Text.StripExactly | src/multi_tenant_saas_api/services/organisations.py:288-297 | Stripping takes exactly the dropped characters off both ends. |
| JsonText.CompactText | src/multi_tenant_saas_api/services/idempotency.py:209-214 | No blanks between brackets, commas and colons, and the smaller key first whichever was given first. |
| JsonText.CanonOrdersKeys | src/multi_tenant_saas_api/services/idempotency.py:209-214 | The canonical object has the same keys with canonical values, by code point at their first difference, a prefix first. |
| JsonText.PlainText | src/multi_tenant_saas_api/services/idempotency.py:209-214 | A string without quotes, backslashes and control characters stands for itself; nothing outside ASCII is escaped. |
| Secrets.SecretNamesExactly | src/multi_tenant_saas_api/services/idempotency.py:32-44 | A field name is secret, once stripped and lowered, if and only if it is one of the nine names or ends in `_token`. |
| Secrets.ForbiddenNamesExactly | src/multi_tenant_saas_api/services/audit.py:31-50 | A metadata key is forbidden, once stripped, lowered and with hyphens and blanks as underscores, if and only if it is one of the fourteen names or has one of the four endings. |
| Secrets.ReplayBodyIs | src/multi_tenant_saas_api/services/idempotency.py:218-226 | Sanitising removes the raw key, keeps every other entry in its order and adds the note. |
| Metadata.MetadataTellsFactsApart | src/multi_tenant_saas_api/services/audit.py:114-144 | Two facts of one action with the same stored metadata are the same fact, as long as different ids print differently. |

## Left out

- Password policy and hashing, and e-mail normalisation: short branches around calls into foreign libraries; registration and login start from a normalised e-mail and are told whether hashing worked and the password matched, and `Endpoints.Api.Serve` takes it that hashing did. An issued token is the name of its user.
- JWT validation, Argon2, SHA-256 and key generation: a bearer is the user its token names, if any, and the digest of the bearer text; request digests are an arbitrary function, assumed injective only where a lemma says so.
- HTTP status codes, request and response schemas, dependency injection, middleware, logging and Prometheus rendering: plumbing around the modelled calls. Schema bounds enter only where a lemma names them.
- `updated_at`, display names and the ids of audit rows: set by the database and not looked at by any workflow.
- Order of the audit listing: commit order stands in for the descending order by time and id, which agrees with it when clocks do.
- Memberships as objects: the table is keyed by its unique pair of organisation and user, and the row id is a unique column; deletes by cascade never happen because no workflow deletes organisations, users or keys.
- Reads as methods: list, count and get workflows are functions on the tables, since they change nothing; a failing SELECT is not modelled, only failing flushes and commits.
- Rows as objects: a repository call that assigns the fields of a row and flushes is one change of the working store, so aliasing between a service's row and the session's is not captured.
- Overlapping requests on the ledger: a request checks and commits in one step, except in `LedgerTheorems.OverlappingChangesKeepOwnersExactly`; only the idempotency protocol is interleaved.
- Isolation.TenantPurge: runs start after the organisation exists, because the request that creates it names none and may be refused for its slug; registrations are kept because users belong to no organisation and e-mails are unique.
- JsonProofs.EncodingDecidesEquality: numbers are integers, because no request body of the three routes holds a float; the text is characters rather than UTF-8 bytes, whose encoding is injective.
- Expiry of idempotency records: the column exists, no code reads it.
- Migrations, guardrail scripts, dashboards and deployment files: no behaviour of the service.
