/** Every request of the API as a decision on the committed tables, and what the transaction makes
    of that decision when a flush or the commit may fail. */
module Workflows {
  import opened Domain
  import opened Store
  import opened Text
  import Paging
  import Slugs

  /** Case mapping, `ILIKE` and collation, which belong to the host language and the database. */
  datatype Env = Env(casing: Casing, like: (string, string) -> bool, collate: string -> real)

  datatype Body =
    | UserBody(user: UserId)
    | TokenBody(user: UserId)
    | OrganisationBody(org: OrgId, tenant: Organisation)
    | OrganisationsPage(tenants: seq<(OrgId, Organisation)>, total: nat)
    | MemberBody(org: OrgId, user: UserId, membership: Membership)
    | MembersPage(members: seq<(UserId, Membership, User)>, total: nat)
    | ProjectBody(project: ProjectId, row: Project)
    | ProjectsPage(projects: seq<(ProjectId, Project)>, total: nat)
    | KeyBody(key: KeyId, apiKey: ApiKey)
    | KeysPage(keys: seq<(KeyId, ApiKey)>, total: nat)
    | RevokedBody(key: KeyId, org: OrgId, at: Time)
    | AuditPage(events: seq<AuditEvent>, total: nat)
    | NoContent

  datatype Response = Ok(body: Body) | Failed(error: Error) | ServerError

  /** What a workflow wants to do, decided on the tables alone. */
  datatype Decision =
    | Refuse(error: Error)
    | Reply(body: Body)
      // a unique constraint raised by the flush with this number
    | Clash(at: nat, response: Response)
      // so many table flushes, the audit flush, the commit
    | Commit(change: Change, event: AuditEvent, flushes: nat, body: Body)

  // ---- Role checks ----

  datatype Access = Granted(role: Role) | Denied(error: Error)

  /** Tenant lookup, membership lookup, permission check, in this order. */
  function TenantAccess(db: Db, user: UserId, org: OrgId, needed: Permission): Access {
    if org !in db.organisations then Denied(OrganisationNotFound)
    else if (org, user) !in db.members then Denied(TenantAccessDenied)
    else if needed !in PermissionsForRole(db.members[(org, user)].role) then Denied(PermissionDenied)
    else Granted(db.members[(org, user)].role)
  }

  /** Owners manage every role; admins must leave owners alone; nobody else manages members. */
  predicate RoleManagementAllowed(actor: Role, target: Option<Role>, requested: Option<Role>) {
    match actor
    case Owner => true
    case Admin => target != Some(Owner) && requested != Some(Owner)
    case _ => false
  }

  function OtherOwners(db: Db, org: OrgId, user: UserId): set<UserId> {
    set m | m in db.members && m.0 == org && db.members[m].role == Owner && m.1 != user :: m.1
  }

  predicate IsLastOwner(db: Db, org: OrgId, user: UserId) {
    (org, user) in db.members && db.members[(org, user)].role == Owner && |OtherOwners(db, org, user)| == 0
  }

  /** The last-owner helper runs only when an owner would be removed or downgraded. */
  predicate OwnerProtected(db: Db, org: OrgId, user: UserId, current: Role, requested: Option<Role>) {
    current == Owner && requested != Some(Owner) && IsLastOwner(db, org, user)
  }

  /** API keys reach the projects of their own organisation; users go through their role. */
  function ProjectAccess(db: Db, p: Principal, org: OrgId, needed: Permission): Option<Error> {
    match p
    case KeyPrincipal(_, own) =>
      if own != org then Some(TenantAccessDenied)
      else if needed != ReadProjects && needed != WriteProjects then Some(TenantAccessDenied)
      else None
    case UserPrincipal(u) =>
      match TenantAccess(db, u, org, needed)
      case Denied(e) => Some(e)
      case Granted(_) => None
  }

  // ---- Constraints ----

  predicate SlugTaken(db: Db, slug: string) {
    exists o :: o in db.organisations && db.organisations[o].slug == slug
  }

  predicate EmailTaken(db: Db, email: string) {
    exists u :: u in db.users && db.users[u].email == email
  }

  predicate MembershipClashes(db: Db, org: OrgId, user: UserId, id: nat) {
    (org, user) in db.members || exists m :: m in db.members && db.members[m].id == id
  }

  predicate KeyClashes(db: Db, key: KeyId, digest: string) {
    key in db.keys || exists k :: k in db.keys && db.keys[k].digest == digest
  }

  // ---- Mutating workflows ----

  function DecideRegister(db: Db, now: Time, user: UserId, email: string): Decision {
    if EmailTaken(db, email) then Refuse(EmailAlreadyRegistered)
    else if user in db.users then Clash(0, Failed(EmailAlreadyRegistered))
    else Commit(NewUser(user, User(email, true)),
                AuditEvent(None, Some(user), None, UserRegistered, user, now), 1, UserBody(user))
  }

  predicate HasEmail(db: Db, email: string, u: UserId) {
    u in db.users && db.users[u].email == email
  }

  /** The user with this e-mail; the column is unique. */
  ghost function UserFor(db: Db, email: string): (u: Option<UserId>)
    ensures u.Some? ==> HasEmail(db, email, u.value)
    ensures u.None? ==> forall id :: !HasEmail(db, email, id)
  {
    if exists u :: HasEmail(db, email, u) then (var u :| HasEmail(db, email, u); Some(u)) else None
  }

  /** Logging in writes no row, only its event. */
  ghost function DecideLogin(db: Db, now: Time, email: string, passwordMatches: bool): Decision {
    match UserFor(db, email)
    case None => Refuse(InvalidCredentials)
    case Some(u) =>
      if !db.users[u].active || !passwordMatches then Refuse(InvalidCredentials)
      else Commit(NoChange, AuditEvent(None, Some(u), None, UserLoggedIn, u, now), 0, TokenBody(u))
  }

  function DecideCreateOrganisation(env: Env, db: Db, now: Time, actor: UserId, org: OrgId, membership: nat,
                                    name: string, slug: Option<string>): Decision
  {
    var requested := if slug.Some? then Slugs.Normalise(env.casing, slug.value) else Slugs.FromName(env.casing, name);
    if SlugTaken(db, requested) then Refuse(SlugAlreadyExists)
    else if org in db.organisations then Clash(0, Failed(SlugAlreadyExists))
    else if MembershipClashes(db, org, actor, membership) then Clash(1, Failed(SlugAlreadyExists))
    else
      var tenant := Organisation(name, requested);
      Commit(NewOrganisation(org, tenant, actor, Membership(membership, Owner, now)),
             AuditEvent(Some(org), Some(actor), None, OrganisationCreated, org, now), 2, OrganisationBody(org, tenant))
  }

  function ChangedFields(name: bool, slug: bool): seq<string> {
    (if name then ["name"] else []) + (if slug then ["slug"] else [])
  }

  function EditedOrganisation(tenant: Organisation, name: Option<string>, slug: Option<string>): Organisation {
    Organisation(if name.Some? then name.value else tenant.name, if slug.Some? then slug.value else tenant.slug)
  }

  function DecideUpdateOrganisation(env: Env, db: Db, now: Time, actor: UserId, org: OrgId,
                                    name: Option<string>, slug: Option<string>): Decision
  {
    match TenantAccess(db, actor, org, UpdateOrganisation)
    case Denied(e) => Refuse(e)
    case Granted(_) =>
      var tenant := db.organisations[org];
      var requested := if slug.Some? then Some(Slugs.Normalise(env.casing, slug.value)) else None;
      if requested.Some? && requested.value != tenant.slug && SlugTaken(db, requested.value) then
        Refuse(SlugAlreadyExists)
      else
        var updated := EditedOrganisation(tenant, name, requested);
        Commit(SetOrganisation(org, updated),
               AuditEvent(Some(org), Some(actor), None,
                          OrganisationUpdated(ChangedFields(name.Some?, slug.Some?)), org, now),
               1, OrganisationBody(org, updated))
  }

  function DecideAddMember(db: Db, now: Time, actor: UserId, org: OrgId, target: UserId, role: Role,
                           membership: nat): Decision
  {
    match TenantAccess(db, actor, org, ManageMembers)
    case Denied(e) => Refuse(e)
    case Granted(own) =>
      if !RoleManagementAllowed(own, None, Some(role)) then Refuse(PermissionDenied)
      else if target !in db.users then Refuse(TargetUserNotFound)
      else if (org, target) in db.members then Refuse(MembershipAlreadyExists)
      else if MembershipClashes(db, org, target, membership) then Clash(0, Failed(MembershipAlreadyExists))
      else
        var row := Membership(membership, role, now);
        Commit(SetMember(org, target, row),
               AuditEvent(Some(org), Some(actor), None, MemberAdded(target, role), membership, now),
               1, MemberBody(org, target, row))
  }

  function DecideUpdateMemberRole(db: Db, now: Time, actor: UserId, org: OrgId, target: UserId, role: Role): Decision {
    match TenantAccess(db, actor, org, ManageMembers)
    case Denied(e) => Refuse(e)
    case Granted(own) =>
      if (org, target) !in db.members then Refuse(MembershipNotFound)
      else
        var row := db.members[(org, target)];
        if !RoleManagementAllowed(own, Some(row.role), Some(role)) then Refuse(PermissionDenied)
        else if OwnerProtected(db, org, target, row.role, Some(role)) then Refuse(LastOwnerProtection)
        else if target !in db.users then Refuse(TargetUserNotFound)
        else
          Commit(SetMember(org, target, row.(role := role)),
                 AuditEvent(Some(org), Some(actor), None, MemberRoleChanged(target, row.role, role), row.id, now),
                 1, MemberBody(org, target, row.(role := role)))
  }

  function DecideRemoveMember(db: Db, now: Time, actor: UserId, org: OrgId, target: UserId): Decision {
    match TenantAccess(db, actor, org, ManageMembers)
    case Denied(e) => Refuse(e)
    case Granted(own) =>
      if (org, target) !in db.members then Refuse(MembershipNotFound)
      else
        var row := db.members[(org, target)];
        if !RoleManagementAllowed(own, Some(row.role), None) then Refuse(PermissionDenied)
        else if OwnerProtected(db, org, target, row.role, None) then Refuse(LastOwnerProtection)
        else
          Commit(DropMember(org, target),
                 AuditEvent(Some(org), Some(actor), None, MemberRemoved(target, row.role), row.id, now), 1, NoContent)
  }

  function DecideCreateProject(db: Db, now: Time, p: Principal, org: OrgId, project: ProjectId, name: string,
                               description: Option<string>, status: ProjectStatus): Decision
  {
    match ProjectAccess(db, p, org, WriteProjects)
    case Some(e) => Refuse(e)
    case None =>
      if project in db.projects then Clash(0, ServerError)
      else
        var row := Project(org, name, status, description, ActorUser(p), ActorUser(p), now, None);
        Commit(SetProject(project, row),
               AuditEvent(Some(org), ActorUser(p), ActorKey(p), ProjectCreated(name, status), project, now),
               1, ProjectBody(project, row))
  }

  /** A project of this organisation that has not been deleted. */
  predicate LiveProject(db: Db, org: OrgId, project: ProjectId) {
    project in db.projects && db.projects[project].org == org && db.projects[project].deletedAt == None
  }

  function ProjectChanges(name: bool, description: bool, status: bool): seq<string> {
    (if name then ["name"] else []) + (if description then ["description"] else []) + (if status then ["status"]
        else [])
  }

  /** The fields given are set; an API key leaves the last editor as it is. */
  function EditedProject(row: Project, p: Principal, name: Option<string>, description: Option<Option<string>>,
                         status: Option<ProjectStatus>): Project
  {
    row.(name := if name.Some? then name.value else row.name,
         description := if description.Some? then description.value else row.description,
         status := if status.Some? then status.value else row.status,
         updatedBy := if p.UserPrincipal? then ActorUser(p) else row.updatedBy)
  }

  function DecideUpdateProject(db: Db, now: Time, p: Principal, org: OrgId, project: ProjectId, name: Option<string>,
                               description: Option<Option<string>>, status: Option<ProjectStatus>): Decision
  {
    match ProjectAccess(db, p, org, WriteProjects)
    case Some(e) => Refuse(e)
    case None =>
      if !LiveProject(db, org, project) then Refuse(ProjectNotFound)
      else
        var row := db.projects[project];
        var updated := EditedProject(row, p, name, description, status);
        Commit(SetProject(project, updated),
               AuditEvent(Some(org), ActorUser(p), ActorKey(p),
                          ProjectUpdated(ProjectChanges(name.Some?, description.Some?, status.Some?)), project, now),
               1, ProjectBody(project, updated))
  }

  function DecideDeleteProject(db: Db, now: Time, p: Principal, org: OrgId, project: ProjectId): Decision {
    match ProjectAccess(db, p, org, WriteProjects)
    case Some(e) => Refuse(e)
    case None =>
      if !LiveProject(db, org, project) then Refuse(ProjectNotFound)
      else
        var row := db.projects[project];
        var deleted := row.(deletedAt := Some(now),
                            updatedBy := if p.UserPrincipal? then ActorUser(p) else row.updatedBy);
        Commit(SetProject(project, deleted),
               AuditEvent(Some(org), ActorUser(p), ActorKey(p), ProjectDeleted(row.name), project, now), 1, NoContent)
  }

  function DecideCreateApiKey(db: Db, now: Time, actor: UserId, org: OrgId, key: KeyId, name: string, prefix: string,
                              digest: string): Decision
  {
    match TenantAccess(db, actor, org, ManageApiKeys)
    case Denied(e) => Refuse(e)
    case Granted(_) =>
      if KeyClashes(db, key, digest) then Clash(0, ServerError)
      else
        var row := ApiKey(org, name, prefix, digest, actor, now, None, None);
        Commit(NewKey(key, row),
               AuditEvent(Some(org), Some(actor), None, ApiKeyCreated(name, prefix), key, now), 1, KeyBody(key, row))
  }

  function DecideRevokeApiKey(db: Db, now: Time, actor: UserId, org: OrgId, key: KeyId): Decision {
    match TenantAccess(db, actor, org, ManageApiKeys)
    case Denied(e) => Refuse(e)
    case Granted(_) =>
      if !(key in db.keys && db.keys[key].org == org) then Refuse(ApiKeyNotFound)
      else
        var row := db.keys[key];
        if row.revokedAt.Some? then Reply(RevokedBody(key, org, row.revokedAt.value))
        else
          Commit(RevokeKey(key, now),
                 AuditEvent(Some(org), Some(actor), None, ApiKeyRevoked(row.name, row.prefix), key, now),
                 1, RevokedBody(key, org, now))
  }

  // ---- Reading workflows ----

  datatype Window = Window(limit: nat, offset: nat)

  datatype SortField = ByCreatedAt | ByName | ByStatus

  datatype ProjectFilter = ProjectFilter(status: Option<ProjectStatus>, name: Option<string>, sort: SortField,
                                         descending: bool)

  function ProjectOrder(env: Env, f: ProjectFilter): Paging.Order<(ProjectId, Project)> {
    Paging.Order(
      (p: (ProjectId, Project)) =>
        match f.sort
        case ByCreatedAt => p.1.createdAt as real
        case ByName => env.collate(p.1.name)
        case ByStatus => env.collate(StatusText(p.1.status)),
      (p: (ProjectId, Project)) => p.0,
      f.descending)
  }

  /** The shared `WHERE` clause of the project list and its count; an empty search is no search. */
  predicate ProjectMatches(env: Env, org: OrgId, f: ProjectFilter, row: Project) {
    && row.org == org
    && (f.status.Some? ==> row.status == f.status.value)
    && (f.name.Some? && f.name.value != "" ==> env.like(row.name, f.name.value))
    && row.deletedAt == None
  }

  ghost function MatchingProjects(env: Env, db: Db, org: OrgId, f: ProjectFilter): set<(ProjectId, Project)> {
    set p | p in db.projects && ProjectMatches(env, org, f, db.projects[p]) :: (p, db.projects[p])
  }

  function MatchingIds(env: Env, db: Db, org: OrgId, f: ProjectFilter): set<ProjectId> {
    set p | p in db.projects && ProjectMatches(env, org, f, db.projects[p])
  }

  function CountProjects(env: Env, db: Db, org: OrgId, f: ProjectFilter): nat {
    |MatchingIds(env, db, org, f)|
  }

  ghost function DecideListProjects(env: Env, db: Db, p: Principal, org: OrgId, f: ProjectFilter, w: Window): Decision {
    match ProjectAccess(db, p, org, ReadProjects)
    case Some(e) => Refuse(e)
    case None =>
      var rows := Paging.Sorted(ProjectOrder(env, f), MatchingProjects(env, db, org, f));
      Reply(ProjectsPage(Paging.Page(rows, w.limit, w.offset), CountProjects(env, db, org, f)))
  }

  function DecideGetProject(db: Db, p: Principal, org: OrgId, project: ProjectId): Decision {
    match ProjectAccess(db, p, org, ReadProjects)
    case Some(e) => Refuse(e)
    case None =>
      if !LiveProject(db, org, project) then Refuse(ProjectNotFound)
      else Reply(ProjectBody(project, db.projects[project]))
  }

  const MEMBER_ORDER: Paging.Order<(UserId, Membership)> :=
    Paging.Order((m: (UserId, Membership)) => m.1.createdAt as real, (m: (UserId, Membership)) => m.1.id, false)

  ghost function MembersOf(db: Db, org: OrgId): set<(UserId, Membership)> {
    set m | m in db.members && m.0 == org :: (m.1, db.members[m])
  }

  function MembershipsOf(db: Db, org: OrgId): set<(OrgId, UserId)> {
    set m | m in db.members && m.0 == org
  }

  function CountMembers(db: Db, org: OrgId): nat {
    |MembershipsOf(db, org)|
  }

  predicate KnownUsers(db: Db, page: seq<(UserId, Membership)>) {
    forall i :: 0 <= i < |page| ==> page[i].0 in db.users
  }

  function WithUsers(db: Db, page: seq<(UserId, Membership)>): (rows: seq<(UserId, Membership, User)>)
    requires KnownUsers(db, page)
    ensures |rows| == |page|
  {
    seq(|page|, i requires 0 <= i < |page| => (page[i].0, page[i].1, db.users[page[i].0]))
  }

  ghost function DecideListMembers(db: Db, actor: UserId, org: OrgId, w: Window): Decision {
    match TenantAccess(db, actor, org, ManageMembers)
    case Denied(e) => Refuse(e)
    case Granted(_) =>
      var page := Paging.Page(Paging.Sorted(MEMBER_ORDER, MembersOf(db, org)), w.limit, w.offset);
      if !KnownUsers(db, page) then Refuse(TargetUserNotFound)
      else Reply(MembersPage(WithUsers(db, page), CountMembers(db, org)))
  }

  const KEY_ORDER: Paging.Order<(KeyId, ApiKey)> :=
    Paging.Order((k: (KeyId, ApiKey)) => k.1.createdAt as real, (k: (KeyId, ApiKey)) => k.0, true)

  ghost function KeysOf(db: Db, org: OrgId): set<(KeyId, ApiKey)> {
    set k | k in db.keys && db.keys[k].org == org :: (k, db.keys[k])
  }

  function KeyIdsOf(db: Db, org: OrgId): set<KeyId> {
    set k | k in db.keys && db.keys[k].org == org
  }

  function CountKeys(db: Db, org: OrgId): nat {
    |KeyIdsOf(db, org)|
  }

  ghost function DecideListApiKeys(db: Db, actor: UserId, org: OrgId, w: Window): Decision {
    match TenantAccess(db, actor, org, ManageApiKeys)
    case Denied(e) => Refuse(e)
    case Granted(_) =>
      Reply(KeysPage(Paging.Page(Paging.Sorted(KEY_ORDER, KeysOf(db, org)), w.limit, w.offset), CountKeys(db, org)))
  }

  /** The events of one organisation, in commit order. */
  function EventsOf(log: seq<AuditEvent>, org: OrgId): seq<AuditEvent> {
    if log == [] then []
    else EventsOf(log[..|log| - 1], org) + (if log[|log| - 1].org == Some(org) then [log[|log| - 1]] else [])
  }

  /** Newest first. */
  function DecideListAudit(db: Db, actor: UserId, org: OrgId, w: Window): Decision {
    match TenantAccess(db, actor, org, ReadAuditEvents)
    case Denied(e) => Refuse(e)
    case Granted(_) =>
      var events := EventsOf(db.log, org);
      Reply(AuditPage(Paging.Page(Paging.Reverse(events), w.limit, w.offset), |events|))
  }

  function DecideGetOrganisation(db: Db, actor: UserId, org: OrgId): Decision {
    match TenantAccess(db, actor, org, ReadOrganisation)
    case Denied(e) => Refuse(e)
    case Granted(_) => Reply(OrganisationBody(org, db.organisations[org]))
  }

  /** The rows of `organisations JOIN memberships`, one per matching membership. */
  ghost function JoinedOrganisations(db: Db, user: UserId): set<(OrgId, Organisation)> {
    set m | m in db.members && m.1 == user && m.0 in db.organisations :: (m.0, db.organisations[m.0])
  }

  /** The count beside it looks at memberships only. */
  function MembershipsHeldBy(db: Db, user: UserId): set<(OrgId, UserId)> {
    set m | m in db.members && m.1 == user
  }

  function CountMemberships(db: Db, user: UserId): nat {
    |MembershipsHeldBy(db, user)|
  }

  ghost function OrganisationOrder(env: Env): Paging.Order<(OrgId, Organisation)> {
    Paging.Order((o: (OrgId, Organisation)) => env.collate(o.1.name), (o: (OrgId, Organisation)) => o.0, false)
  }

  ghost function DecideListOrganisations(env: Env, db: Db, actor: UserId, w: Window): Decision {
    Reply(OrganisationsPage(
            Paging.Page(Paging.Sorted(OrganisationOrder(env), JoinedOrganisations(db, actor)), w.limit, w.offset),
            CountMemberships(db, actor)))
  }

  // ---- Requests ----

  /** Ids, digests and slugs that the server generates are part of the command. */
  datatype Command =
    | RegisterUser(user: UserId, email: string)
    | LoginUser(email: string, passwordMatches: bool)
    | CreateOrganisation(org: OrgId, membership: nat, name: string, slug: Option<string>)
    | UpdateOrganisationCommand(org: OrgId, newName: Option<string>, slug: Option<string>)
    | GetOrganisation(org: OrgId)
    | ListOrganisations(window: Window)
    | ListMembers(org: OrgId, window: Window)
    | AddMember(org: OrgId, target: UserId, role: Role, membership: nat)
    | UpdateMemberRole(org: OrgId, target: UserId, role: Role)
    | RemoveMember(org: OrgId, target: UserId)
    | CreateApiKey(org: OrgId, key: KeyId, name: string, prefix: string, digest: string)
    | ListApiKeys(org: OrgId, window: Window)
    | RevokeApiKey(org: OrgId, key: KeyId)
    | ListAudit(org: OrgId, window: Window)
    | CreateProject(org: OrgId, project: ProjectId, name: string, description: Option<string>, status: ProjectStatus)
    | ListProjects(org: OrgId, filter: ProjectFilter, window: Window)
    | GetProject(org: OrgId, project: ProjectId)
    | UpdateProject(org: OrgId, project: ProjectId, newName: Option<string>,
                    newDescription: Option<Option<string>>, newStatus: Option<ProjectStatus>)
    | DeleteProject(org: OrgId, project: ProjectId)

  /** The commands that need no credential. */
  predicate IsOpen(c: Command) {
    c.RegisterUser? || c.LoginUser?
  }

  predicate IsProjectCommand(c: Command) {
    c.CreateProject? || c.ListProjects? || c.GetProject? || c.UpdateProject? || c.DeleteProject?
  }

  /** The organisation in the path of the request. Creating an organisation names none. */
  function Addressee(c: Command): Option<OrgId> {
    match c
    case RegisterUser(_, _) => None
    case LoginUser(_, _) => None
    case CreateOrganisation(_, _, _, _) => None
    case ListOrganisations(_) => None
    case _ => Some(c.org)
  }

  /** A bearer credential: the user its token names, if it is a valid token, and its digest. */
  datatype Bearer = Bearer(token: Option<UserId>, digest: string)

  /** `fault` says which flush or commit of the request raises, counted from 0; None: none does. */
  datatype Request = Request(bearer: Bearer, now: Time, fault: Option<nat>, command: Command)

  ghost function DecideAsUser(env: Env, db: Db, now: Time, u: UserId, c: Command): Decision
    requires !IsOpen(c) && !IsProjectCommand(c)
  {
    match c
    case CreateOrganisation(o, m, name, slug) => DecideCreateOrganisation(env, db, now, u, o, m, name, slug)
    case UpdateOrganisationCommand(o, name, slug) => DecideUpdateOrganisation(env, db, now, u, o, name, slug)
    case GetOrganisation(o) => DecideGetOrganisation(db, u, o)
    case ListOrganisations(w) => DecideListOrganisations(env, db, u, w)
    case ListMembers(o, w) => DecideListMembers(db, u, o, w)
    case AddMember(o, target, role, m) => DecideAddMember(db, now, u, o, target, role, m)
    case UpdateMemberRole(o, target, role) => DecideUpdateMemberRole(db, now, u, o, target, role)
    case RemoveMember(o, target) => DecideRemoveMember(db, now, u, o, target)
    case CreateApiKey(o, k, name, prefix, digest) => DecideCreateApiKey(db, now, u, o, k, name, prefix, digest)
    case ListApiKeys(o, w) => DecideListApiKeys(db, u, o, w)
    case RevokeApiKey(o, k) => DecideRevokeApiKey(db, now, u, o, k)
    case ListAudit(o, w) => DecideListAudit(db, u, o, w)
  }

  ghost function DecideOnProjects(env: Env, db: Db, now: Time, p: Principal, c: Command): Decision
    requires IsProjectCommand(c)
  {
    match c
    case CreateProject(o, id, name, description, status) =>
      DecideCreateProject(db, now, p, o, id, name, description, status)
    case ListProjects(o, f, w) => DecideListProjects(env, db, p, o, f, w)
    case GetProject(o, id) => DecideGetProject(db, p, o, id)
    case UpdateProject(o, id, name, description, status) =>
      DecideUpdateProject(db, now, p, o, id, name, description, status)
    case DeleteProject(o, id) => DecideDeleteProject(db, now, p, o, id)
  }

  ghost function DecideOpen(db: Db, now: Time, c: Command): Decision
    requires IsOpen(c)
  {
    match c
    case RegisterUser(user, email) => DecideRegister(db, now, user, email)
    case LoginUser(email, passwordMatches) => DecideLogin(db, now, email, passwordMatches)
  }

  /** What the principal's command decides. Only project endpoints accept API keys. */
  ghost function Decide(env: Env, db: Db, now: Time, p: Principal, c: Command): Decision
    requires !IsOpen(c)
  {
    if IsProjectCommand(c) then DecideOnProjects(env, db, now, p, c)
    else if p.UserPrincipal? then DecideAsUser(env, db, now, p.user, c)
    else Refuse(Unauthenticated)
  }

  // ---- Transactions ----

  /** The transaction does not get past its session call number `n`. */
  predicate FailsBy(fault: Option<nat>, n: nat) {
    fault.Some? && fault.value <= n
  }

  function Finish(st: State, d: Decision, fault: Option<nat>): (State, Response) {
    match d
    case Refuse(e) => (st, Failed(e))
    case Reply(body) => (st, Ok(body))
    case Clash(at, response) => (st, if FailsBy(fault, at) then ServerError else response)
    case Commit(change, event, flushes, body) =>
      if FailsBy(fault, flushes) then (st, ServerError)
      else
        var audited := CountAudit(st.metrics, event);
        if FailsBy(fault, flushes + 1) then (st.(metrics := audited), ServerError)
        else (State(Record(Apply(st.db, change), event), CountBusiness(audited, event)), Ok(body))
  }

  /** The fault as seen by what follows the first `n` session calls. */
  function After(fault: Option<nat>, n: nat): Option<nat> {
    if fault.Some? && fault.value >= n then Some(fault.value - n) else None
  }

  function ActiveUser(db: Db, b: Bearer): Option<UserId> {
    if b.token.Some? && b.token.value in db.users && db.users[b.token.value].active then b.token else None
  }

  predicate ActiveKey(db: Db, digest: string, k: KeyId) {
    k in db.keys && db.keys[k].digest == digest && db.keys[k].revokedAt == None
  }

  /** The active key with this digest; the digest column is unique. */
  ghost function KeyFor(db: Db, digest: string): (k: Option<KeyId>)
    ensures k.Some? ==> ActiveKey(db, digest, k.value)
    ensures k.None? ==> forall id :: !ActiveKey(db, digest, id)
  {
    if exists k :: ActiveKey(db, digest, k) then (var k :| ActiveKey(db, digest, k); Some(k)) else None
  }

  /** What is left of a request once its credential is resolved: an answer, or a transaction. */
  datatype Plan = Stop(response: Response) | Work(start: State, decision: Decision, fault: Option<nat>)

  /** Project endpoints try the user token first, then an API key, whose use is stamped and
      committed before the workflow starts. */
  ghost function Prepare(env: Env, st: State, r: Request): Plan {
    if IsOpen(r.command) then Work(st, DecideOpen(st.db, r.now, r.command), r.fault)
    else if ActiveUser(st.db, r.bearer).Some? then
      Work(st, Decide(env, st.db, r.now, UserPrincipal(ActiveUser(st.db, r.bearer).value), r.command), r.fault)
    else if !IsProjectCommand(r.command) || KeyFor(st.db, r.bearer.digest).None? then Stop(Failed(Unauthenticated))
    else if FailsBy(r.fault, 1) then Stop(ServerError)
    else
      var k := KeyFor(st.db, r.bearer.digest).value;
      var stamped := st.(db := Apply(st.db, StampKey(k, r.now)));
      Work(stamped, Decide(env, stamped.db, r.now, KeyPrincipal(k, st.db.keys[k].org), r.command), After(r.fault, 2))
  }

  /** One request from credential to response. */
  ghost function Handle(env: Env, st: State, r: Request): (State, Response) {
    match Prepare(env, st, r)
    case Stop(response) => (st, response)
    case Work(start, decision, fault) => Finish(start, decision, fault)
  }

  /** The state after a run of requests, one after the other. */
  ghost function Run(env: Env, st: State, requests: seq<Request>): State {
    if requests == [] then st else Handle(env, Run(env, st, requests[..|requests| - 1]), requests[|requests| - 1]).0
  }
}
