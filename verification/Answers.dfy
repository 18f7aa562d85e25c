/** What every endpoint that writes answers and leaves behind when nothing fails: rows, event, counters
    and response, field by field, from the tables alone. */
module Answers {
  import opened Domain
  import opened Store
  import opened Workflows
  import opened Ledger
  import opened Gate
  import Slugs

  function Counted(m: Metrics, a: Action): Metrics {
    m.(audit := m.audit + multiset{a})
  }

  function By(u: UserId, o: OrgId, fact: Fact, target: nat, at: Time): AuditEvent {
    AuditEvent(Some(o), Some(u), None, fact, target, at)
  }

  // ---- Accounts ----

  predicate EmailOf(db: Db, email: string, u: UserId) {
    u in db.users && db.users[u].email == email
  }

  /** Registration: a taken e-mail is refused, otherwise there is one more active user. */
  lemma RegisterAnswers(env: Env, st: State, r: Request)
    requires r.command.RegisterUser? && r.fault == None
    ensures var u, email := r.command.user, r.command.email;
            Handle(env, st, r)
            == if (exists w: UserId :: EmailOf(st.db, email, w)) || u in st.db.users
               then (st, Failed(EmailAlreadyRegistered))
               else
                 (State(st.db.(users := st.db.users[u := User(email, true)],
                               log := st.db.log + [AuditEvent(None, Some(u), None, UserRegistered, u, r.now)]),
                        Counted(st.metrics, UserRegisteredAction)),
                  Ok(UserBody(u)))
  {
    var email := r.command.email;
    if w: UserId :| EmailOf(st.db, email, w) {
      assert EmailTaken(st.db, email);
    }
    if EmailTaken(st.db, email) {
      var w :| w in st.db.users && st.db.users[w].email == email;
      assert EmailOf(st.db, email, w);
    }
    hide EmailTaken, EmailOf;
  }

  /** Login: exactly the right password of an active user gets a token, and nothing but the event is
      written; every other attempt is answered alike and changes nothing. */
  lemma LoginAnswers(env: Env, st: State, r: Request)
    requires UniqueEmails(st.db) && r.command.LoginUser? && r.fault == None
    ensures Handle(env, st, r).1.Ok?
            <==> r.command.passwordMatches
                 && exists u: UserId :: EmailOf(st.db, r.command.email, u) && st.db.users[u].active
    ensures !Handle(env, st, r).1.Ok? ==> Handle(env, st, r) == (st, Failed(InvalidCredentials))
    ensures forall u: UserId :: EmailOf(st.db, r.command.email, u) && st.db.users[u].active && r.command.passwordMatches
                        ==> Handle(env, st, r)
                            == (State(st.db.(log := st.db.log
                                                    + [AuditEvent(None, Some(u), None, UserLoggedIn, u, r.now)]),
                                      Counted(st.metrics, UserLoggedInAction)),
                                Ok(TokenBody(u)))
  {
    var found := UserFor(st.db, r.command.email);
    forall u: UserId ensures EmailOf(st.db, r.command.email, u) <==> found == Some(u) {
      assert EmailOf(st.db, r.command.email, u) <==> HasEmail(st.db, r.command.email, u);
    }
    hide UserFor, EmailOf, HasEmail, UniqueEmails;
  }

  // ---- Organisations ----

  /** The slug belongs to another organisation. */
  predicate SlugElsewhere(db: Db, slug: string, o: OrgId) {
    exists q :: q in db.organisations && q != o && db.organisations[q].slug == slug
  }

  predicate MembershipIdUsed(db: Db, id: nat) {
    exists m :: m in db.members && db.members[m].id == id
  }

  /** Creating an organisation. */
  lemma CreateOrganisationAnswers(env: Env, st: State, r: Request, u: UserId)
    requires r.command.CreateOrganisation? && r.fault == None && SignedIn(st.db, r.bearer, u)
    ensures var c := r.command;
            var slug := if c.slug.Some? then Slugs.Normalise(env.casing, c.slug.value)
                        else Slugs.FromName(env.casing, c.name);
            Handle(env, st, r)
            == if (exists q :: q in st.db.organisations && st.db.organisations[q].slug == slug)
                  || c.org in st.db.organisations || (c.org, u) in st.db.members
                  || MembershipIdUsed(st.db, c.membership)
               then (st, Failed(SlugAlreadyExists))
               else
                 (State(st.db.(organisations := st.db.organisations[c.org := Organisation(c.name, slug)],
                               members := st.db.members[(c.org, u) := Membership(c.membership, Owner, r.now)],
                               log := st.db.log + [By(u, c.org, OrganisationCreated, c.org, r.now)]),
                        Counted(st.metrics, OrganisationCreatedAction)
                        .(organisationsCreated := st.metrics.organisationsCreated + 1)),
                  Ok(OrganisationBody(c.org, Organisation(c.name, slug))))
  {
    hide Slugs.Normalise, Slugs.FromName, SignedIn;
    UserHandled(env, st, r, u);
    hide Handle;
  }

  /** An owner or admin of the organisation. */
  predicate Manages(db: Db, o: OrgId, u: UserId) {
    && o in db.organisations && (o, u) in db.members
    && (db.members[(o, u)].role == Owner || db.members[(o, u)].role == Admin)
  }

  lemma ManagersAreGranted(db: Db, o: OrgId, u: UserId, needed: Permission)
    requires Manages(db, o, u) && needed != ManageOrganisation
    ensures TenantAccess(db, u, o, needed) == Granted(db.members[(o, u)].role)
  {
    RolesOfPermission(db.members[(o, u)].role, needed);
    hide PermissionsForRole;
  }

  function ChangedNames(name: bool, slug: bool): seq<string> {
    if name && slug then ["name", "slug"] else if name then ["name"] else if slug then ["slug"] else []
  }

  /** Updating an organisation: a slug that another organisation has is refused, otherwise what is
      given is set. */
  lemma UpdateOrganisationAnswers(env: Env, st: State, r: Request, u: UserId)
    requires r.command.UpdateOrganisationCommand? && r.fault == None && SignedIn(st.db, r.bearer, u)
    requires Manages(st.db, r.command.org, u)
    ensures var c, was := r.command, st.db.organisations[r.command.org];
            var slug := if c.slug.Some? then Slugs.Normalise(env.casing, c.slug.value) else was.slug;
            var row := Organisation(if c.newName.Some? then c.newName.value else was.name, slug);
            var changed := ChangedNames(c.newName.Some?, c.slug.Some?);
            Handle(env, st, r)
            == if slug != was.slug && SlugElsewhere(st.db, slug, c.org) then (st, Failed(SlugAlreadyExists))
               else
                 (State(st.db.(organisations := st.db.organisations[c.org := row],
                               log := st.db.log + [By(u, c.org, OrganisationUpdated(changed), c.org, r.now)]),
                        Counted(st.metrics, OrganisationUpdatedAction)),
                  Ok(OrganisationBody(c.org, row)))
  {
    hide Slugs.Normalise, SignedIn, TenantAccess;
    UserHandled(env, st, r, u);
    ManagersAreGranted(st.db, r.command.org, u, Permission.UpdateOrganisation);
    hide Handle, Manages;
    var c, was := r.command, st.db.organisations[r.command.org];
    if c.slug.Some? && Slugs.Normalise(env.casing, c.slug.value) != was.slug {
      OthersHoldSlugs(st.db, Slugs.Normalise(env.casing, c.slug.value), c.org);
    }
    NamesOfChanges(c.newName.Some?, c.slug.Some?);
    hide SlugTaken, SlugElsewhere, ChangedFields, ChangedNames;
  }

  lemma NamesOfChanges(name: bool, slug: bool)
    ensures ChangedFields(name, slug) == ChangedNames(name, slug)
  {
  }

  lemma OthersHoldSlugs(db: Db, slug: string, o: OrgId)
    requires o in db.organisations && db.organisations[o].slug != slug
    ensures SlugTaken(db, slug) <==> SlugElsewhere(db, slug, o)
  {
  }

  // ---- Members ----

  /** Adding a member. */
  lemma AddMemberAnswers(env: Env, st: State, r: Request, u: UserId)
    requires r.command.AddMember? && r.fault == None
    requires SignedIn(st.db, r.bearer, u) && Manages(st.db, r.command.org, u)
    ensures var c := r.command; var row := Membership(c.membership, c.role, r.now);
            Handle(env, st, r)
            == if st.db.members[(c.org, u)].role == Admin && c.role == Owner then (st, Failed(PermissionDenied))
               else if c.target !in st.db.users then (st, Failed(TargetUserNotFound))
               else if (c.org, c.target) in st.db.members || MembershipIdUsed(st.db, c.membership)
               then (st, Failed(MembershipAlreadyExists))
               else
                 (State(st.db.(members := st.db.members[(c.org, c.target) := row],
                               log := st.db.log + [By(u, c.org, MemberAdded(c.target, c.role), c.membership, r.now)]),
                        Counted(st.metrics, MemberAddedAction)),
                  Ok(MemberBody(c.org, c.target, row)))
  {
    hide SignedIn, TenantAccess;
    UserHandled(env, st, r, u);
    ManagersAreGranted(st.db, r.command.org, u, ManageMembers);
    hide Handle;
  }

  /** The member is the only owner. */
  predicate OnlyOwner(db: Db, o: OrgId, u: UserId) {
    && (o, u) in db.members && db.members[(o, u)].role == Owner
    && forall m :: m in db.members && m.0 == o && db.members[m].role == Owner ==> m.1 == u
  }

  lemma OnlyOwnerIsProtected(db: Db, o: OrgId, u: UserId, to: Option<Role>)
    requires (o, u) in db.members
    ensures OwnerProtected(db, o, u, db.members[(o, u)].role, to) <==> OnlyOwner(db, o, u) && to != Some(Owner)
  {
    var others := OtherOwners(db, o, u);
    if |others| > 0 {
      var w :| w in others;
    } else {
      forall m | m in db.members && m.0 == o && db.members[m].role == Owner ensures m.1 == u {
        assert m.1 != u ==> m.1 in others;
      }
    }
  }

  lemma RoleChangeDecided(db: Db, now: Time, u: UserId, o: OrgId, target: UserId, role: Role)
    requires Manages(db, o, u) && TablesOk(db)
    ensures DecideUpdateMemberRole(db, now, u, o, target, role)
            == if (o, target) !in db.members then Refuse(MembershipNotFound)
               else
                 var was := db.members[(o, target)];
                 if db.members[(o, u)].role == Admin && (was.role == Owner || role == Owner)
                 then Refuse(PermissionDenied)
                 else if OnlyOwner(db, o, target) && role != Owner then Refuse(LastOwnerProtection)
                 else
                   var row := Membership(was.id, role, was.createdAt);
                   Commit(SetMember(o, target, row), By(u, o, MemberRoleChanged(target, was.role, role), was.id, now),
                          1, MemberBody(o, target, row))
  {
    hide TenantAccess, OnlyOwner, OwnerProtected;
    ManagersAreGranted(db, o, u, ManageMembers);
    if (o, target) in db.members {
      MemberIsKnown(db, o, target);
      OnlyOwnerIsProtected(db, o, target, Some(role));
    }
    hide TablesOk;
  }

  /** Changing a role: only an owner may touch an owner, and the only owner cannot step down. */
  lemma UpdateMemberRoleAnswers(env: Env, st: State, r: Request, u: UserId)
    requires r.command.UpdateMemberRole? && r.fault == None && SignedIn(st.db, r.bearer, u)
    requires Manages(st.db, r.command.org, u) && TablesOk(st.db)
    ensures var c := r.command; var m := (c.org, c.target);
            Handle(env, st, r)
            == if m !in st.db.members then (st, Failed(MembershipNotFound))
               else
                 var was := st.db.members[m];
                 if st.db.members[(c.org, u)].role == Admin && (was.role == Owner || c.role == Owner)
                 then (st, Failed(PermissionDenied))
                 else if OnlyOwner(st.db, c.org, c.target) && c.role != Owner then (st, Failed(LastOwnerProtection))
                 else
                   var row := Membership(was.id, c.role, was.createdAt);
                   var changed := MemberRoleChanged(c.target, was.role, c.role);
                   (State(st.db.(members := st.db.members[m := row],
                                 log := st.db.log + [By(u, c.org, changed, was.id, r.now)]),
                          Counted(st.metrics, MemberRoleChangedAction)),
                    Ok(MemberBody(c.org, c.target, row)))
  {
    var c := r.command;
    hide SignedIn, OnlyOwner, TablesOk, DecideUpdateMemberRole;
    UserHandled(env, st, r, u);
    RoleChangeDecided(st.db, r.now, u, c.org, c.target, c.role);
    hide Handle;
  }

  /** Removing a member, under the same two rules. */
  lemma RemoveMemberAnswers(env: Env, st: State, r: Request, u: UserId)
    requires r.command.RemoveMember? && r.fault == None
    requires SignedIn(st.db, r.bearer, u) && Manages(st.db, r.command.org, u)
    ensures var c := r.command; var m := (c.org, c.target);
            Handle(env, st, r)
            == if m !in st.db.members then (st, Failed(MembershipNotFound))
               else
                 var was := st.db.members[m];
                 if st.db.members[(c.org, u)].role == Admin && was.role == Owner then (st, Failed(PermissionDenied))
                 else if OnlyOwner(st.db, c.org, c.target) then (st, Failed(LastOwnerProtection))
                 else
                   (State(st.db.(members := st.db.members - {m},
                                 log := st.db.log + [By(u, c.org, MemberRemoved(c.target, was.role), was.id, r.now)]),
                          Counted(st.metrics, MemberRemovedAction)),
                    Ok(NoContent))
  {
    hide SignedIn, TenantAccess, OnlyOwner, OwnerProtected;
    UserHandled(env, st, r, u);
    ManagersAreGranted(st.db, r.command.org, u, ManageMembers);
    if (r.command.org, r.command.target) in st.db.members {
      OnlyOwnerIsProtected(st.db, r.command.org, r.command.target, None);
    }
    hide Handle;
  }

  // ---- API keys ----

  /** Creating a key: named, dated and signed by its creator, active and never used. */
  lemma CreateApiKeyAnswers(env: Env, st: State, r: Request, u: UserId)
    requires r.command.CreateApiKey? && r.fault == None
    requires SignedIn(st.db, r.bearer, u) && Manages(st.db, r.command.org, u)
    ensures var c := r.command; var row := ApiKey(c.org, c.name, c.prefix, c.digest, u, r.now, None, None);
            Handle(env, st, r)
            == if c.key in st.db.keys || (exists k :: k in st.db.keys && st.db.keys[k].digest == c.digest)
               then (st, ServerError)
               else
                 (State(st.db.(keys := st.db.keys[c.key := row],
                               log := st.db.log + [By(u, c.org, ApiKeyCreated(c.name, c.prefix), c.key, r.now)]),
                        Counted(st.metrics, ApiKeyCreatedAction).(keysCreated := st.metrics.keysCreated + 1)),
                  Ok(KeyBody(c.key, row)))
  {
    hide SignedIn, TenantAccess;
    UserHandled(env, st, r, u);
    ManagersAreGranted(st.db, r.command.org, u, ManageApiKeys);
    hide Handle;
  }

  /** Revoking a key, once. */
  lemma RevokeApiKeyAnswers(env: Env, st: State, r: Request, u: UserId)
    requires r.command.RevokeApiKey? && r.fault == None
    requires SignedIn(st.db, r.bearer, u) && Manages(st.db, r.command.org, u)
    ensures var c := r.command;
            Handle(env, st, r)
            == if c.key !in st.db.keys || st.db.keys[c.key].org != c.org then (st, Failed(ApiKeyNotFound))
               else
                 var was := st.db.keys[c.key];
                 if was.revokedAt.Some? then (st, Ok(RevokedBody(c.key, c.org, was.revokedAt.value)))
                 else
                   (State(st.db.(keys := st.db.keys[c.key := was.(revokedAt := Some(r.now))],
                                 log := st.db.log + [By(u, c.org, ApiKeyRevoked(was.name, was.prefix), c.key, r.now)]),
                          Counted(st.metrics, ApiKeyRevokedAction).(keysRevoked := st.metrics.keysRevoked + 1)),
                    Ok(RevokedBody(c.key, c.org, r.now)))
  {
    hide SignedIn, TenantAccess;
    UserHandled(env, st, r, u);
    ManagersAreGranted(st.db, r.command.org, u, ManageApiKeys);
    hide Handle;
  }

  // ---- Projects ----

  /** The bearer may write projects of the organisation: an owner, admin or member who signed in, or
      else a live key of the organisation. */
  ghost predicate Writes(db: Db, b: Bearer, o: OrgId, p: Principal) {
    match p
    case UserPrincipal(u) =>
      SignedIn(db, b, u) && o in db.organisations && (o, u) in db.members && db.members[(o, u)].role != Viewer
    case KeyPrincipal(k, own) =>
      (forall u :: !SignedIn(db, b, u)) && Opens(db, b, k) && db.keys[k].org == o && own == o
  }

  /** The tables the workflow sees: a key has been stamped by then. */
  function Seen(db: Db, p: Principal, now: Time): Db {
    if p.KeyPrincipal? && p.key in db.keys then db.(keys := db.keys[p.key := db.keys[p.key].(lastUsedAt := Some(now))])
    else db
  }

  lemma WriterHandled(env: Env, st: State, r: Request, p: Principal)
    requires Sound(st.db) && OnProjects(r.command) && r.fault == None && Writes(st.db, r.bearer, r.command.org, p)
    ensures var start := st.(db := Seen(st.db, p, r.now));
            && Handle(env, st, r) == Finish(start, DecideOnProjects(env, start.db, r.now, p, r.command), None)
            && ProjectAccess(start.db, p, r.command.org, WriteProjects) == None
            && ProjectAccess(start.db, p, r.command.org, ReadProjects) == None
  {
    hide DecideOnProjects, Finish, Sound;
    match p
    case UserPrincipal(u) =>
      UserHandled(env, st, r, u);
      RolesOfPermission(st.db.members[(r.command.org, u)].role, WriteProjects);
      RolesOfPermission(st.db.members[(r.command.org, u)].role, ReadProjects);
      hide PermissionsForRole, Handle;
    case KeyPrincipal(k, _) =>
      KeyHandled(env, st, r, k);
      hide Handle;
  }

  function EventBy(p: Principal, o: OrgId, fact: Fact, target: nat, at: Time): AuditEvent {
    match p
    case UserPrincipal(u) => AuditEvent(Some(o), Some(u), None, fact, target, at)
    case KeyPrincipal(k, _) => AuditEvent(Some(o), None, Some(k), fact, target, at)
  }

  function Author(p: Principal): Option<UserId> {
    match p
    case UserPrincipal(u) => Some(u)
    case KeyPrincipal(_, _) => None
  }

  /** Creating a project. */
  lemma CreateProjectAnswers(env: Env, st: State, r: Request, p: Principal)
    requires Sound(st.db) && r.command.CreateProject? && r.fault == None && Writes(st.db, r.bearer, r.command.org, p)
    ensures var c, db := r.command, Seen(st.db, p, r.now);
            var row := Project(c.org, c.name, c.status, c.description, Author(p), Author(p), r.now, None);
            Handle(env, st, r)
            == if c.project in st.db.projects then (st.(db := db), ServerError)
               else
                 (State(db.(projects := db.projects[c.project := row],
                            log := db.log + [EventBy(p, c.org, ProjectCreated(c.name, c.status), c.project, r.now)]),
                        Counted(st.metrics, ProjectCreatedAction).(projectsCreated := st.metrics.projectsCreated + 1)),
                  Ok(ProjectBody(c.project, row)))
  {
    hide Handle, Sound, Writes, ProjectAccess;
    WriterHandled(env, st, r, p);
  }

  /** A project of the organisation that is not deleted. */
  predicate Live(db: Db, o: OrgId, id: ProjectId) {
    id in db.projects && db.projects[id].org == o && db.projects[id].deletedAt == None
  }

  function ChangedFieldNames(name: bool, description: bool, status: bool): seq<string> {
    (if name then ["name"] else [])
    + (if description then ["description"] else [])
    + (if status then ["status"] else [])
  }

  /** Updating a project. */
  lemma UpdateProjectAnswers(env: Env, st: State, r: Request, p: Principal)
    requires Sound(st.db) && r.command.UpdateProject? && r.fault == None && Writes(st.db, r.bearer, r.command.org, p)
    ensures var c, db := r.command, Seen(st.db, p, r.now);
            Handle(env, st, r)
            == if !Live(st.db, c.org, c.project) then (st.(db := db), Failed(ProjectNotFound))
               else
                 var was := st.db.projects[c.project];
                 var row := Project(c.org,
                                    if c.newName.Some? then c.newName.value else was.name,
                                    if c.newStatus.Some? then c.newStatus.value else was.status,
                                    if c.newDescription.Some? then c.newDescription.value else was.description,
                                    was.createdBy,
                                    if p.UserPrincipal? then Some(p.user) else was.updatedBy,
                                    was.createdAt, None);
                 var changed := ChangedFieldNames(c.newName.Some?, c.newDescription.Some?, c.newStatus.Some?);
                 (State(db.(projects := db.projects[c.project := row],
                            log := db.log + [EventBy(p, c.org, ProjectUpdated(changed), c.project, r.now)]),
                        Counted(st.metrics, ProjectUpdatedAction)),
                  Ok(ProjectBody(c.project, row)))
  {
    hide Handle, Sound, Writes, ProjectAccess;
    WriterHandled(env, st, r, p);
  }

  /** Deleting a project: the row stays, with the time of deletion and, for a user, the last editor. */
  lemma DeleteProjectAnswers(env: Env, st: State, r: Request, p: Principal)
    requires Sound(st.db) && r.command.DeleteProject? && r.fault == None && Writes(st.db, r.bearer, r.command.org, p)
    ensures var c, db := r.command, Seen(st.db, p, r.now);
            Handle(env, st, r)
            == if !Live(st.db, c.org, c.project) then (st.(db := db), Failed(ProjectNotFound))
               else
                 var was := st.db.projects[c.project];
                 var row := Project(c.org, was.name, was.status, was.description, was.createdBy,
                                    if p.UserPrincipal? then Some(p.user) else was.updatedBy,
                                    was.createdAt, Some(r.now));
                 (State(db.(projects := db.projects[c.project := row],
                            log := db.log + [EventBy(p, c.org, ProjectDeleted(was.name), c.project, r.now)]),
                        Counted(st.metrics, ProjectDeletedAction)),
                  Ok(NoContent))
  {
    hide Handle, Sound, Writes, ProjectAccess;
    WriterHandled(env, st, r, p);
  }

  /** Whenever a key opens a request its last use is set to now and committed first, whatever becomes of
      the request; only a failure of that commit itself leaves the keys as they were. */
  lemma KeyUseIsStamped(env: Env, st: State, r: Request, k: KeyId)
    requires Sound(st.db) && OnProjects(r.command)
    requires (forall u :: !SignedIn(st.db, r.bearer, u)) && Opens(st.db, r.bearer, k)
    ensures k in st.db.keys
    ensures Handle(env, st, r).0.db.keys
            == if r.fault == Some(0) || r.fault == Some(1) then st.db.keys
               else st.db.keys[k := st.db.keys[k].(lastUsedAt := Some(r.now))]
  {
    KeyHandled(env, st, r, k);
    hide Sound, Opens, SignedIn, Decide, Finish, Handle, After;
    if r.fault != Some(0) && r.fault != Some(1) {
      var start := st.(db := Stamped(st.db, k, r.now));
      ProjectWorkKeepsKeys(env, start, r.now, KeyPrincipal(k, st.db.keys[k].org), r.command, After(r.fault, 2));
    }
  }

  lemma ProjectWorkKeepsKeys(env: Env, st: State, now: Time, p: Principal, c: Command, fault: Option<nat>)
    requires OnProjects(c)
    ensures Finish(st, Decide(env, st.db, now, p, c), fault).0.db.keys == st.db.keys
  {
    ProjectWorkSetsProjects(env, st.db, now, p, c);
    hide Decide;
  }

  lemma ProjectWorkSetsProjects(env: Env, db: Db, now: Time, p: Principal, c: Command)
    requires OnProjects(c)
    ensures var d := Decide(env, db, now, p, c); d.Commit? ==> d.change.SetProject?
  {
    hide LiveProject, EditedProject, MatchingProjects, MatchingIds, ProjectAccess;
  }

  // ---- Failures ----

  /** Flushes of rows before the flush of the audit event and the commit. */
  function TableFlushes(c: Command): nat {
    if c.LoginUser? then 0 else if c.CreateOrganisation? then 2 else 1
  }

  /** What a failing session call makes of a request that would have written: nothing is committed, and
      only a failing commit leaves the counter of the flushed event behind. A failure after the last
      call goes unnoticed, and a request that writes nothing still writes nothing. */
  lemma FaultsExactly(env: Env, st: State, r: Request, n: nat)
    requires NeedsNoBearer(r.command) || exists u :: SignedIn(st.db, r.bearer, u)
    ensures var plain, failed := Handle(env, st, r.(fault := None)), Handle(env, st, r.(fault := Some(n)));
            var calls := TableFlushes(r.command);
            && (plain.0.db.log != st.db.log
                ==> failed
                    == if n <= calls then (st, ServerError)
                       else if n == calls + 1
                       then (st.(metrics := st.metrics.(audit := plain.0.metrics.audit)), ServerError)
                       else plain)
            && (plain.0.db.log == st.db.log
                ==> plain.0 == st && failed.0 == st && (failed.1 == plain.1 || failed.1 == ServerError))
  {
    var d := if NeedsNoBearer(r.command) then DecideOpen(st.db, r.now, r.command)
             else Decide(env, st.db, r.now, UserPrincipal(ActiveUser(st.db, r.bearer).value), r.command);
    hide DecideOpen, Decide, Finish;
    if u :| SignedIn(st.db, r.bearer, u) {
      SignedInIsActive(st.db, r.bearer, u);
    }
    assert Handle(env, st, r.(fault := None)) == Finish(st, d, None);
    assert Handle(env, st, r.(fault := Some(n))) == Finish(st, d, Some(n));
    hide Handle;
    if d.Commit? {
      CommitsFlush(env, st.db, r.now, r.bearer, r.command, d);
    }
    FinishWithFault(st, d, n);
  }

  lemma CommitsFlush(env: Env, db: Db, now: Time, b: Bearer, c: Command, d: Decision)
    requires if NeedsNoBearer(c) then d == DecideOpen(db, now, c)
             else ActiveUser(db, b).Some? && d == Decide(env, db, now, UserPrincipal(ActiveUser(db, b).value), c)
    requires d.Commit?
    ensures d.flushes == TableFlushes(c)
  {
    hide TenantAccess, ProjectAccess, RoleManagementAllowed, OwnerProtected, LiveProject, EditedProject, SlugTaken,
      MembershipClashes, KeyClashes, EmailTaken, UserFor, Slugs.Normalise, Slugs.FromName, EditedOrganisation;
  }

  lemma FinishWithFault(st: State, d: Decision, n: nat)
    ensures var plain, failed := Finish(st, d, None), Finish(st, d, Some(n));
            && (d.Commit? ==>
                  && |plain.0.db.log| == |st.db.log| + 1
                  && failed
                     == if n <= d.flushes then (st, ServerError)
                        else if n == d.flushes + 1
                        then (st.(metrics := st.metrics.(audit := plain.0.metrics.audit)), ServerError)
                        else plain)
            && (!d.Commit? ==> plain.0 == st && failed.0 == st && (failed.1 == plain.1 || failed.1 == ServerError))
  {
  }
}
