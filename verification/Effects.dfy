/** What a write leaves behind: the row it describes and nothing else, and for projects the same
    answer to whoever reads it back. */
module Effects {
  import opened Domain
  import opened Store
  import opened Workflows
  import opened Ledger
  import opened LedgerTheorems
  import Slugs
  import Text

  /** The tables apart from the named project, the log and the use of keys. */
  ghost predicate OnlyProjectChanges(before: Db, after: Db, id: ProjectId) {
    && after.users == before.users && after.organisations == before.organisations && after.members == before.members
    && after.keys.Keys == before.keys.Keys
    && (forall k :: k in before.keys ==> after.keys[k].(lastUsedAt := None) == before.keys[k].(lastUsedAt := None))
    && after.projects.Keys == before.projects.Keys + {id}
    && (forall p :: p in before.projects && p != id ==> after.projects[p] == before.projects[p])
  }

  predicate WritesProject(c: Command) {
    c.CreateProject? || c.UpdateProject? || c.DeleteProject?
  }

  /** A committed project write sets one row of the organisation, for a principal with write access. */
  lemma ProjectWritten(env: Env, db: Db, now: Time, p: Principal, c: Command)
    requires WritesProject(c)
    ensures var d := DecideOnProjects(env, db, now, p, c);
            && (d.Commit? || d.Refuse? || d.Clash?)
            && (d.Clash? ==> !d.response.Ok?)
            && (d.Commit? ==>
              && ProjectAccess(db, p, c.org, WriteProjects) == None
              && d.change.SetProject? && d.change.project == c.project && d.change.row.org == c.org
              && (d.change.row.deletedAt.Some? <==> c.DeleteProject?)
              && (c.CreateProject? <==> c.project !in db.projects)
              && (c.CreateProject? ==>
                    d.change.row == Project(c.org, c.name, c.status, c.description, ActorUser(p), ActorUser(p), now,
                                            None))
              && (!c.DeleteProject? ==> d.body == ProjectBody(c.project, d.change.row)))
  {
    hide ProjectAccess, EditedProject;
    EditKeeps(db, p, c);
  }

  lemma EditKeeps(db: Db, p: Principal, c: Command)
    ensures c.UpdateProject? && c.project in db.projects ==>
              var row := db.projects[c.project];
              var edited := EditedProject(row, p, c.newName, c.newDescription, c.newStatus);
              edited.org == row.org && edited.deletedAt == row.deletedAt
  {
  }

  /** The bearer authenticates as this principal on a project endpoint. */
  ghost predicate AuthenticatesAs(db: Db, b: Bearer, p: Principal) {
    match p
    case UserPrincipal(u) => ActiveUser(db, b) == Some(u)
    case KeyPrincipal(k, o) => ActiveUser(db, b).None? && ActiveKey(db, b.digest, k) && db.keys[k].org == o
  }

  lemma OneActiveKey(db: Db, digest: string, k: KeyId)
    requires UniqueDigests(db) && ActiveKey(db, digest, k)
    ensures KeyFor(db, digest) == Some(k)
  {
  }

  lemma StampKeepsBearer(db: Db, b: Bearer, p: Principal, k: KeyId, at: Time)
    requires AuthenticatesAs(db, b, p)
    ensures AuthenticatesAs(Apply(db, StampKey(k, at)), b, p)
  {
  }

  /** A successful write was committed for a principal of the bearer. */
  lemma WriteCommits(env: Env, st: State, r: Request) returns (p: Principal)
    requires WritesProject(r.command) && Handle(env, st, r).1.Ok?
    ensures var plan := Prepare(env, st, r);
            && plan.Work? && plan.decision == DecideOnProjects(env, plan.start.db, r.now, p, r.command)
            && plan.decision.Commit? && AuthenticatesAs(plan.start.db, r.bearer, p)
            && Handle(env, st, r) == (State(Record(Apply(plan.start.db, plan.decision.change), plan.decision.event),
                                            Handle(env, st, r).0.metrics), Ok(plan.decision.body))
    ensures SameButStamps(st.db, Prepare(env, st, r).start.db)
            && Prepare(env, st, r).start.db.projects == st.db.projects
    ensures ActorUser(p) == ActiveUser(st.db, r.bearer)
  {
    hide DecideOnProjects, DecideAsUser, SameButStamps, ActiveUser;
    StampIsSmall(st.db, 0, 0);
    if ActiveUser(st.db, r.bearer).Some? {
      p := UserPrincipal(ActiveUser(st.db, r.bearer).value);
      ProjectWritten(env, st.db, r.now, p, r.command);
    } else {
      var k := KeyFor(st.db, r.bearer.digest).value;
      p := KeyPrincipal(k, st.db.keys[k].org);
      StampIsSmall(st.db, k, r.now);
      StampKeepsBearer(st.db, r.bearer, p, k, r.now);
      ProjectWritten(env, Apply(st.db, StampKey(k, r.now)), r.now, p, r.command);
    }
  }

  /** A successful project write changes one project row and nothing else of the tables; a creation
      writes what was asked for, with the user of the bearer, if it is one, as author. */
  lemma WriteChangesOneProject(env: Env, st: State, r: Request)
    requires WritesProject(r.command) && Handle(env, st, r).1.Ok?
    ensures OnlyProjectChanges(st.db, Handle(env, st, r).0.db, r.command.project)
    ensures var row := Handle(env, st, r).0.db.projects[r.command.project];
            var c, author := r.command, ActiveUser(st.db, r.bearer);
            && row.org == c.org && (row.deletedAt.Some? <==> c.DeleteProject?)
            && (c.CreateProject? ==> c.project !in st.db.projects)
            && (c.CreateProject? ==>
                  row == Project(c.org, c.name, c.status, c.description, author, author, r.now, None))
  {
    var p := WriteCommits(env, st, r);
    var plan := Prepare(env, st, r);
    ProjectWritten(env, plan.start.db, r.now, p, r.command);
    hide Prepare, DecideOnProjects, AuthenticatesAs;
  }

  /** An update sets the fields that were given and, for a user, the last editor, and keeps every other
      field; the answer shows the row. */
  lemma UpdateSetsWhatIsGiven(env: Env, st: State, r: Request)
    requires r.command.UpdateProject? && Handle(env, st, r).1.Ok?
    requires r.command.project in st.db.projects
    ensures var c, was := r.command, st.db.projects[r.command.project];
            c.project in Handle(env, st, r).0.db.projects
            && var row := Handle(env, st, r).0.db.projects[c.project];
            && row.name == (if c.newName.Some? then c.newName.value else was.name)
            && row.description == (if c.newDescription.Some? then c.newDescription.value else was.description)
            && row.status == (if c.newStatus.Some? then c.newStatus.value else was.status)
            && row.updatedBy == (if ActiveUser(st.db, r.bearer).Some? then ActiveUser(st.db, r.bearer)
                                 else was.updatedBy)
            && row.createdBy == was.createdBy && row.createdAt == was.createdAt && row.org == was.org
            && row.deletedAt == was.deletedAt == None
            && Handle(env, st, r).1 == Ok(ProjectBody(c.project, row))
  {
    var p := WriteCommits(env, st, r);
    var plan := Prepare(env, st, r);
    hide Prepare, AuthenticatesAs, ProjectAccess, SameButStamps, ActiveUser;
  }

  function ReadProject(b: Bearer, now: Time, org: OrgId, project: ProjectId): Request {
    Request(b, now, None, GetProject(org, project))
  }

  lemma ReadAs(env: Env, st: State, b: Bearer, p: Principal, now: Time, org: OrgId, project: ProjectId)
    requires UniqueDigests(st.db) && AuthenticatesAs(st.db, b, p) && ProjectAccess(st.db, p, org, ReadProjects) == None
    ensures Handle(env, st, ReadProject(b, now, org, project)).1
            == if LiveProject(st.db, org, project) then Ok(ProjectBody(project, st.db.projects[project]))
               else Failed(ProjectNotFound)
  {
    if p.KeyPrincipal? {
      OneActiveKey(st.db, b.digest, p.key);
    }
    hide KeyFor, UniqueDigests, ActiveUser;
  }

  lemma WritersRead(db: Db, p: Principal, org: OrgId)
    requires ProjectAccess(db, p, org, WriteProjects) == None
    ensures ProjectAccess(db, p, org, ReadProjects) == None
  {
  }

  lemma ProjectWriteKeepsAccess(db: Db, id: ProjectId, row: Project, e: AuditEvent, b: Bearer, p: Principal, org: OrgId)
    requires AuthenticatesAs(db, b, p)
    ensures var after := Record(Apply(db, SetProject(id, row)), e);
            AuthenticatesAs(after, b, p)
            && ProjectAccess(after, p, org, ReadProjects) == ProjectAccess(db, p, org, ReadProjects)
  {
  }

  /** Whoever creates or updates a project reads back exactly what was answered; after a deletion the
      project is not found. */
  lemma ReadYourWrites(env: Env, st: State, r: Request, now: Time)
    requires Sound(st.db) && WritesProject(r.command) && Handle(env, st, r).1.Ok?
    ensures Handle(env, Handle(env, st, r).0, ReadProject(r.bearer, now, r.command.org, r.command.project)).1
            == if r.command.DeleteProject? then Failed(ProjectNotFound) else Handle(env, st, r).1
  {
    hide Prepare, Handle, DecideOnProjects, AuthenticatesAs, ProjectAccess, UniqueDigests, Sound, SameButStamps;
    HandleKeepsSound(env, st, r);
    var p := WriteCommits(env, st, r);
    var plan, after := Prepare(env, st, r), Handle(env, st, r).0;
    ProjectWritten(env, plan.start.db, r.now, p, r.command);
    var d := plan.decision;
    WritersRead(plan.start.db, p, r.command.org);
    ProjectWriteKeepsAccess(plan.start.db, d.change.project, d.change.row, d.event, r.bearer, p, r.command.org);
    SoundHasUniqueDigests(after.db);
    ReadAs(env, after, r.bearer, p, now, r.command.org, r.command.project);
  }

  // ---- Members, keys and organisations ----

  predicate WritesMember(c: Command) {
    c.AddMember? || c.UpdateMemberRole? || c.RemoveMember?
  }

  /** A user's request that succeeded either committed its decision or wrote nothing. */
  lemma UserRequest(env: Env, st: State, r: Request) returns (u: UserId, d: Decision)
    requires !IsProjectCommand(r.command) && !IsOpen(r.command) && Handle(env, st, r).1.Ok?
    ensures ActiveUser(st.db, r.bearer) == Some(u)
    ensures d == DecideAsUser(env, st.db, r.now, u, r.command) && (d.Commit? || d.Reply? || d.Clash?)
    ensures d.Commit? ==> Handle(env, st, r).0.db == Record(Apply(st.db, d.change), d.event)
    ensures d.Clash? ==> d.response.Ok?
    ensures !d.Commit? ==> Handle(env, st, r).0 == st
  {
    hide DecideAsUser, Apply, Record;
    u := ActiveUser(st.db, r.bearer).value;
    d := DecideAsUser(env, st.db, r.now, u, r.command);
  }

  lemma MemberWritten(env: Env, db: Db, now: Time, u: UserId, c: Command)
    requires WritesMember(c)
    ensures var d, m := DecideAsUser(env, db, now, u, c), (c.org, c.target);
            && !d.Reply? && (d.Clash? ==> !d.response.Ok?)
            && (d.Commit? && c.RemoveMember? ==> d.change == DropMember(c.org, c.target) && m in db.members)
            && (d.Commit? && !c.RemoveMember? ==>
                  d.change.SetMember? && (d.change.org, d.change.user) == m && d.change.membership.role == c.role)
            && (d.Commit? && c.UpdateMemberRole? ==>
                  m in db.members && d.change.membership == db.members[m].(role := c.role))
            && (d.Commit? && c.AddMember? ==>
                  m !in db.members && c.target in db.users && d.change.membership.id == c.membership)
  {
    hide TenantAccess, OwnerProtected, MembershipClashes, RoleManagementAllowed;
  }

  /** A member write changes one membership: an addition finds none, a role change keeps its id and its
      date, a removal leaves none. */
  lemma MemberWriteChangesOneMembership(env: Env, st: State, r: Request)
    requires WritesMember(r.command) && Handle(env, st, r).1.Ok?
    ensures var c, after := r.command, Handle(env, st, r).0.db; var m := (c.org, c.target);
            && after.(members := st.db.members, log := st.db.log) == st.db
            && after.members - {m} == st.db.members - {m}
            && (c.AddMember? <==> m !in st.db.members)
            && (c.RemoveMember? <==> m !in after.members)
            && (!c.RemoveMember? ==> after.members[m].role == c.role)
            && (c.UpdateMemberRole? ==> after.members[m] == st.db.members[m].(role := c.role))
            && (c.AddMember? ==> c.target in st.db.users && after.members[m].id == c.membership)
  {
    hide Handle, DecideAsUser;
    var u, d := UserRequest(env, st, r);
    MemberWritten(env, st.db, r.now, u, r.command);
  }

  lemma KeyWritten(env: Env, db: Db, now: Time, u: UserId, c: Command)
    requires c.CreateApiKey? || c.RevokeApiKey?
    ensures var d := DecideAsUser(env, db, now, u, c);
            && (d.Clash? ==> !d.response.Ok?) && (d.Reply? ==> c.RevokeApiKey?)
            && (d.Commit? && c.CreateApiKey? ==>
                  && d.change.NewKey? && d.change.key == c.key && d.change.apiKey.org == c.org
                  && d.change.apiKey.digest == c.digest && d.change.apiKey.revokedAt.None?
                     && !KeyClashes(db, c.key, c.digest))
            && (d.Commit? && c.RevokeApiKey? ==> d.change == RevokeKey(c.key, now))
            && (c.RevokeApiKey? && !d.Refuse? ==> c.key in db.keys && db.keys[c.key].org == c.org
                                                  && (d.Reply? ==> db.keys[c.key].revokedAt.Some?))
  {
    hide TenantAccess, KeyClashes;
  }

  /** Creating a key adds an active one under a digest of its own; revoking one keeps everything but
      the time of revocation. */
  lemma KeyWriteChangesOneKey(env: Env, st: State, r: Request)
    requires (r.command.CreateApiKey? || r.command.RevokeApiKey?) && Handle(env, st, r).1.Ok?
    ensures var c, after := r.command, Handle(env, st, r).0.db;
            && after.(keys := st.db.keys, log := st.db.log) == st.db
            && after.keys - {c.key} == st.db.keys - {c.key}
            && c.key in after.keys && after.keys[c.key].org == c.org
            && (c.CreateApiKey? ==>
                  && !KeyClashes(st.db, c.key, c.digest)
                  && after.keys[c.key].digest == c.digest && after.keys[c.key].revokedAt.None?)
            && (c.RevokeApiKey? ==>
                  && c.key in st.db.keys && after.keys[c.key].revokedAt.Some?
                  && after.keys[c.key].(revokedAt := st.db.keys[c.key].revokedAt) == st.db.keys[c.key])
  {
    hide Handle, DecideAsUser, KeyClashes;
    var u, d := UserRequest(env, st, r);
    KeyWritten(env, st.db, r.now, u, r.command);
  }

  lemma OrganisationUpdated(env: Env, db: Db, now: Time, u: UserId, c: Command)
    requires c.UpdateOrganisationCommand?
    ensures var d := DecideAsUser(env, db, now, u, c);
            && !d.Reply? && !d.Clash?
            && (d.Commit? ==>
                  && d.change.SetOrganisation? && d.change.org == c.org && c.org in db.organisations
                  && d.change.tenant.name == (if c.newName.Some? then c.newName.value else db.organisations[c.org].name)
                  && d.change.tenant.slug
                     == (if c.slug.Some? then Slugs.Normalise(env.casing, c.slug.value)
                         else db.organisations[c.org].slug))
  {
    hide SlugTaken, Slugs.Normalise, ChangedFields;
  }

  /** An update of an organisation sets what is given, the slug in its normal form, and the slug stays
      its own. */
  lemma OrganisationUpdateKeepsSlugsApart(env: Env, st: State, r: Request)
    requires Sound(st.db) && r.command.UpdateOrganisationCommand? && Handle(env, st, r).1.Ok?
    ensures var c, after := r.command, Handle(env, st, r).0.db;
            && after.(organisations := st.db.organisations, log := st.db.log) == st.db
            && after.organisations - {c.org} == st.db.organisations - {c.org}
            && c.org in after.organisations && c.org in st.db.organisations
            && var was, row := st.db.organisations[c.org], after.organisations[c.org];
               && row.name == (if c.newName.Some? then c.newName.value else was.name)
               && row.slug == (if c.slug.Some? then Slugs.Normalise(env.casing, c.slug.value) else was.slug)
               && forall o :: o in after.organisations && o != c.org ==> after.organisations[o].slug != row.slug
  {
    hide Handle, DecideAsUser, Sound, Slugs.Normalise;
    HandleKeepsSound(env, st, r);
    SoundHasUniqueSlugs(Handle(env, st, r).0.db);
    var u, d := UserRequest(env, st, r);
    OrganisationUpdated(env, st.db, r.now, u, r.command);
  }

  lemma OrganisationMade(env: Env, db: Db, now: Time, u: UserId, c: Command)
    requires c.CreateOrganisation?
    ensures var d := DecideAsUser(env, db, now, u, c);
            && !d.Reply? && (d.Clash? ==> !d.response.Ok?)
            && (d.Commit? ==>
                  var slug := if c.slug.Some? then Slugs.Normalise(env.casing, c.slug.value)
                              else Slugs.FromName(env.casing, c.name);
                  && d.change == NewOrganisation(c.org, Organisation(c.name, slug), u,
                                                 Membership(c.membership, Owner, now))
                  && !SlugTaken(db, slug) && c.org !in db.organisations)
  {
    hide SlugTaken, Slugs.Normalise, Slugs.FromName, MembershipClashes;
  }

  lemma DerivedSlugIsValid(casing: Text.Casing, name: string)
    ensures Slugs.IsSlug(Slugs.FromName(casing, name))
  {
    Slugs.SlugOfLowered(casing.lower(Text.Strip(casing.isSpace, name)));
  }

  /** A new organisation has a slug of its own, a valid one when derived from the name, and its creator
      as its only member and owner. */
  lemma NewOrganisationIsOwned(env: Env, st: State, r: Request)
    requires Sound(st.db) && r.command.CreateOrganisation? && Handle(env, st, r).1.Ok?
    ensures var c, after := r.command, Handle(env, st, r).0.db;
            && c.org !in st.db.organisations && c.org in after.organisations
            && after.organisations - {c.org} == st.db.organisations
            && after.organisations[c.org].name == c.name
            && !SlugTaken(st.db, after.organisations[c.org].slug)
            && (c.slug.None? ==> Slugs.IsSlug(after.organisations[c.org].slug))
            && ActiveUser(st.db, r.bearer).Some?
            && var m := (c.org, ActiveUser(st.db, r.bearer).value);
               && m in after.members && after.members[m].role == Owner && after.members - {m} == st.db.members
               && forall u :: (c.org, u) in after.members ==> u == m.1
  {
    hide Handle, DecideAsUser, Sound, SlugTaken, Slugs.IsSlug, Slugs.Normalise, Slugs.FromName, ActiveUser;
    var u, d := UserRequest(env, st, r);
    OrganisationMade(env, st.db, r.now, u, r.command);
    DerivedSlugIsValid(env.casing, r.command.name);
    NoMembersBefore(st.db, r.command.org);
  }

  lemma NoMembersBefore(db: Db, o: OrgId)
    requires Sound(db) && o !in db.organisations
    ensures forall m :: m in db.members ==> m.0 != o
  {
  }

  lemma SoundHasUniqueSlugs(db: Db)
    requires Sound(db)
    ensures UniqueSlugs(db)
  {
  }

  // ---- The tenant gate ----

  /** The permission each endpoint below an organisation asks for. */
  function PermissionFor(c: Command): Permission {
    match c
    case UpdateOrganisationCommand(_, _, _) => Permission.UpdateOrganisation
    case ListMembers(_, _) => ManageMembers
    case AddMember(_, _, _, _) => ManageMembers
    case UpdateMemberRole(_, _, _) => ManageMembers
    case RemoveMember(_, _) => ManageMembers
    case CreateApiKey(_, _, _, _, _) => ManageApiKeys
    case ListApiKeys(_, _) => ManageApiKeys
    case RevokeApiKey(_, _) => ManageApiKeys
    case ListAudit(_, _) => ReadAuditEvents
    case ListProjects(_, _, _) => ReadProjects
    case GetProject(_, _) => ReadProjects
    case CreateProject(_, _, _, _, _) => WriteProjects
    case UpdateProject(_, _, _, _, _) => WriteProjects
    case DeleteProject(_, _) => WriteProjects
    case _ => ReadOrganisation
  }

  lemma DeniedIsRefused(env: Env, db: Db, now: Time, u: UserId, c: Command)
    requires Addressee(c).Some?
    ensures var access := TenantAccess(db, u, Addressee(c).value, PermissionFor(c));
            access.Denied? ==> Decide(env, db, now, UserPrincipal(u), c) == Refuse(access.error)
  {
    hide TenantAccess, OwnerProtected, MembershipClashes, KeyClashes, SlugTaken, LiveProject, RoleManagementAllowed,
      EditedProject, EditedOrganisation, Slugs.Normalise;
  }

  /** A user's request below an organisation fails, and changes nothing, with one of three errors, in
      this order: no such organisation, no membership, a role without the endpoint's permission. Only
      a request that passes all three can succeed. */
  lemma TenantGate(env: Env, st: State, r: Request, o: OrgId, u: UserId)
    requires Addressee(r.command) == Some(o) && ActiveUser(st.db, r.bearer) == Some(u)
    ensures o !in st.db.organisations ==> Handle(env, st, r) == (st, Failed(OrganisationNotFound))
    ensures o in st.db.organisations && (o, u) !in st.db.members
            ==> Handle(env, st, r) == (st, Failed(TenantAccessDenied))
    ensures o in st.db.organisations && (o, u) in st.db.members
            && PermissionFor(r.command) !in PermissionsForRole(st.db.members[(o, u)].role)
            ==> Handle(env, st, r) == (st, Failed(PermissionDenied))
  {
    hide Decide, PermissionFor, PermissionsForRole, ActiveUser;
    DeniedIsRefused(env, st.db, r.now, u, r.command);
  }
}
