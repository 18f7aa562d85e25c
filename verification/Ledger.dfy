/** The tables as a refinement of the audit log: every transaction changes the tables exactly as
    its event changes the replayed view, and only when that view permits it. */
module Ledger {
  import opened Domain
  import opened Store
  import opened Workflows
  import opened AuditLog

  /** What the tables say in the terms of the log. */
  function ViewOf(db: Db): View {
    View(db.users.Keys,
         db.organisations.Keys,
         map m | m in db.members :: db.members[m].role,
         map p | p in db.projects :: ProjectEntry(db.projects[p].org, db.projects[p].deletedAt.None?),
         map k | k in db.keys :: KeyEntry(db.keys[k].org, db.keys[k].revokedAt.None?))
  }

  /** Foreign keys and unique columns. */
  ghost predicate TablesOk(db: Db) {
    && (forall m :: m in db.members ==> m.0 in db.organisations && m.1 in db.users)
    && (forall p :: p in db.projects ==> ProjectRefersToRows(db, db.projects[p]))
    && (forall k :: k in db.keys ==> KeyRefersToRows(db, db.keys[k]))
    && UniqueEmails(db)
    && UniqueDigests(db)
    && UniqueMembershipIds(db)
    && UniqueSlugs(db)
  }

  predicate Known(db: Db, u: Option<UserId>) {
    u.Some? ==> u.value in db.users
  }

  predicate ProjectRefersToRows(db: Db, row: Project) {
    row.org in db.organisations && Known(db, row.createdBy) && Known(db, row.updatedBy)
  }

  predicate KeyRefersToRows(db: Db, row: ApiKey) {
    row.org in db.organisations && row.createdBy in db.users
  }

  ghost predicate UniqueEmails(db: Db) {
    forall u, w :: u in db.users && w in db.users && db.users[u].email == db.users[w].email ==> u == w
  }

  ghost predicate UniqueDigests(db: Db) {
    forall k, l :: k in db.keys && l in db.keys && db.keys[k].digest == db.keys[l].digest ==> k == l
  }

  ghost predicate UniqueMembershipIds(db: Db) {
    forall m, n :: m in db.members && n in db.members && db.members[m].id == db.members[n].id ==> m == n
  }

  ghost predicate UniqueSlugs(db: Db) {
    forall o, q :: o in db.organisations && q in db.organisations
                   && db.organisations[o].slug == db.organisations[q].slug
                   ==> o == q
  }

  /** The invariant of every run. */
  ghost predicate Sound(db: Db) {
    TablesOk(db) && Certified(db.log) && ViewOf(db) == Replay(db.log)
  }

  lemma SoundHasTables(db: Db)
    requires Sound(db)
    ensures TablesOk(db)
  {
  }

  lemma SoundHasUniqueDigests(db: Db)
    requires Sound(db)
    ensures UniqueDigests(db)
  {
  }

  ghost predicate PrincipalOk(db: Db, p: Principal) {
    match p
    case UserPrincipal(u) => u in db.users
    case KeyPrincipal(k, o) => k in db.keys && db.keys[k].org == o && db.keys[k].revokedAt == None
  }

  /** The change keeps the constraints and shows in the view as the event does. */
  ghost predicate Reflects(db: Db, c: Change, e: AuditEvent) {
    ViewOf(Apply(db, c)) == Absorb(ViewOf(db), e) && TablesOk(Apply(db, c))
  }

  /** The table change and the event of a decision say the same, and the history permits it. */
  ghost predicate Faithful(db: Db, d: Decision) {
    d.Commit? ==>
      && Permitted(ViewOf(db), d.event)
      && Reflects(db, d.change, d.event)
      && Apply(db, d.change).log == db.log
  }

  // ---- Owners of the tables and of the view ----

  lemma OtherOwnersExist(db: Db, o: OrgId, u: UserId)
    ensures |OtherOwners(db, o, u)| > 0 <==> AnotherOwner(ViewOf(db), o, u)
  {
    var others := OtherOwners(db, o, u);
    if |others| > 0 {
      var w :| w in others;
      assert IsOwner(ViewOf(db), o, w);
    }
    if AnotherOwner(ViewOf(db), o, u) {
      var w :| w != u && IsOwner(ViewOf(db), o, w);
      assert (o, w) in db.members;
      assert w in others;
    }
  }

  // ---- Each change is what the log makes of its fact ----

  lemma MemberInView(db: Db, o: OrgId, u: UserId, m: Membership)
    ensures ViewOf(Apply(db, SetMember(o, u, m))) == ViewOf(db).(members := ViewOf(db).members[(o, u) := m.role])
  {
  }

  lemma NoMemberInView(db: Db, o: OrgId, u: UserId)
    ensures ViewOf(Apply(db, DropMember(o, u))) == ViewOf(db).(members := ViewOf(db).members - {(o, u)})
  {
  }

  lemma ProjectInView(db: Db, p: ProjectId, row: Project)
    ensures ViewOf(Apply(db, SetProject(p, row)))
            == ViewOf(db).(projects := ViewOf(db).projects[p := ProjectEntry(row.org, row.deletedAt.None?)])
  {
  }

  lemma KeyInView(db: Db, k: KeyId, row: ApiKey)
    ensures ViewOf(Apply(db, NewKey(k, row)))
            == ViewOf(db).(keys := ViewOf(db).keys[k := KeyEntry(row.org, row.revokedAt.None?)])
  {
  }

  lemma OrganisationInView(db: Db, o: OrgId, tenant: Organisation, u: UserId, m: Membership)
    ensures ViewOf(Apply(db, NewOrganisation(o, tenant, u, m)))
            == ViewOf(db).(orgs := ViewOf(db).orgs + {o}, members := ViewOf(db).members[(o, u) := m.role])
  {
  }

  lemma MemberKeepsTables(db: Db, o: OrgId, u: UserId, m: Membership)
    requires TablesOk(db) && o in db.organisations && u in db.users
    requires forall k :: k in db.members && db.members[k].id == m.id ==> k == (o, u)
    ensures TablesOk(Apply(db, SetMember(o, u, m)))
  {
  }

  lemma NoMemberKeepsTables(db: Db, o: OrgId, u: UserId)
    requires TablesOk(db)
    ensures TablesOk(Apply(db, DropMember(o, u)))
  {
  }

  lemma ProjectKeepsTables(db: Db, p: ProjectId, row: Project)
    requires TablesOk(db) && ProjectRefersToRows(db, row)
    ensures TablesOk(Apply(db, SetProject(p, row)))
  {
  }

  lemma KeyKeepsTables(db: Db, k: KeyId, row: ApiKey)
    requires TablesOk(db) && KeyRefersToRows(db, row)
    requires forall l :: l in db.keys && db.keys[l].digest == row.digest ==> l == k
    ensures TablesOk(Apply(db, NewKey(k, row)))
  {
  }

  lemma SameDigestKeepsTables(db: Db, k: KeyId, row: ApiKey)
    requires TablesOk(db) && k in db.keys && row.org == db.keys[k].org && row.digest == db.keys[k].digest
    requires row.createdBy == db.keys[k].createdBy
    ensures TablesOk(Apply(db, NewKey(k, row)))
  {
  }

  lemma OrganisationKeepsTables(db: Db, o: OrgId, tenant: Organisation, u: UserId, m: Membership)
    requires TablesOk(db) && u in db.users && !SlugTaken(db, tenant.slug) && !MembershipClashes(db, o, u, m.id)
    ensures TablesOk(Apply(db, NewOrganisation(o, tenant, u, m)))
  {
  }

  lemma SetMemberReflects(db: Db, o: OrgId, u: UserId, m: Membership, e: AuditEvent)
    requires TablesOk(db) && o in db.organisations && u in db.users
    requires forall k :: k in db.members && db.members[k].id == m.id ==> k == (o, u)
    requires e.org == Some(o)
    requires e.fact == MemberAdded(u, m.role)
             || (e.fact.MemberRoleChanged? && e.fact.user == u && e.fact.newRole == m.role)
    ensures Reflects(db, SetMember(o, u, m), e)
  {
    hide ViewOf, TablesOk;
    MemberInView(db, o, u, m);
    MemberKeepsTables(db, o, u, m);
  }

  lemma DropMemberReflects(db: Db, o: OrgId, u: UserId, e: AuditEvent)
    requires TablesOk(db) && e.org == Some(o) && e.fact.MemberRemoved? && e.fact.user == u
    ensures Reflects(db, DropMember(o, u), e)
  {
    hide ViewOf, TablesOk;
    NoMemberInView(db, o, u);
    NoMemberKeepsTables(db, o, u);
  }

  /** Creation and deletion; an update of a live project does not show. */
  lemma SetProjectReflects(db: Db, p: ProjectId, row: Project, e: AuditEvent)
    requires TablesOk(db) && ProjectRefersToRows(db, row) && e.org == Some(row.org) && e.target == p
    requires e.fact.ProjectCreated? || e.fact.ProjectDeleted?
    requires row.deletedAt.None? <==> e.fact.ProjectCreated?
    ensures Reflects(db, SetProject(p, row), e)
  {
    hide ViewOf, TablesOk;
    ProjectInView(db, p, row);
    ProjectKeepsTables(db, p, row);
  }

  lemma EditProjectReflects(db: Db, p: ProjectId, row: Project, e: AuditEvent)
    requires TablesOk(db) && LiveProject(db, row.org, p) && row.deletedAt.None? && e.fact.ProjectUpdated?
    requires ProjectRefersToRows(db, row)
    ensures Reflects(db, SetProject(p, row), e)
  {
    hide ViewOf, TablesOk;
    LiveInView(db, row.org, p);
    SameProject(ViewOf(db), p, row.org);
    ProjectInView(db, p, row);
    ProjectKeepsTables(db, p, row);
  }

  lemma LiveInView(db: Db, o: OrgId, p: ProjectId)
    requires LiveProject(db, o, p)
    ensures p in ViewOf(db).projects && ViewOf(db).projects[p] == ProjectEntry(o, true)
  {
  }

  /** A row keeps its references when it keeps its organisation and author and a known user, or nobody
      new, becomes its last editor. */
  lemma EditorsAreKnown(db: Db, p: ProjectId, row: Project, editor: Option<UserId>)
    requires TablesOk(db) && p in db.projects && Known(db, editor)
    requires row.org == db.projects[p].org && row.createdBy == db.projects[p].createdBy
    requires row.updatedBy == editor || row.updatedBy == db.projects[p].updatedBy
    ensures ProjectRefersToRows(db, row)
  {
    assert ProjectRefersToRows(db, db.projects[p]);
  }

  lemma SameProject(v: View, p: ProjectId, o: OrgId)
    requires p in v.projects && v.projects[p] == ProjectEntry(o, true)
    ensures v.(projects := v.projects[p := ProjectEntry(o, true)]) == v
  {
    assert v.projects[p := ProjectEntry(o, true)] == v.projects;
  }

  lemma NewKeyReflects(db: Db, k: KeyId, row: ApiKey, e: AuditEvent)
    requires TablesOk(db) && KeyRefersToRows(db, row) && row.revokedAt.None?
    requires forall l :: l in db.keys && db.keys[l].digest == row.digest ==> l == k
    requires e.org == Some(row.org) && e.target == k && e.fact.ApiKeyCreated?
    ensures Reflects(db, NewKey(k, row), e)
  {
    hide ViewOf, TablesOk;
    KeyKeepsTables(db, k, row);
    KeyInView(db, k, row);
  }

  lemma RevokeKeyReflects(db: Db, k: KeyId, at: Time, e: AuditEvent)
    requires TablesOk(db) && k in db.keys
    requires e.org == Some(db.keys[k].org) && e.target == k && e.fact.ApiKeyRevoked?
    ensures Reflects(db, RevokeKey(k, at), e)
  {
    hide ViewOf, TablesOk;
    var row := db.keys[k].(revokedAt := Some(at));
    SameDigestKeepsTables(db, k, row);
    KeyInView(db, k, row);
    assert Apply(db, RevokeKey(k, at)) == Apply(db, NewKey(k, row));
  }

  lemma KeySeen(db: Db, k: KeyId)
    requires k in db.keys
    ensures k in ViewOf(db).keys && ViewOf(db).keys[k] == KeyEntry(db.keys[k].org, db.keys[k].revokedAt.None?)
    ensures ViewOf(db).keys[k := ViewOf(db).keys[k]] == ViewOf(db).keys
  {
  }

  lemma StampKeyIsInvisible(db: Db, k: KeyId, at: Time)
    requires TablesOk(db)
    ensures ViewOf(Apply(db, StampKey(k, at))) == ViewOf(db) && TablesOk(Apply(db, StampKey(k, at)))
  {
    hide ViewOf, TablesOk;
    if k in db.keys {
      var row := db.keys[k].(lastUsedAt := Some(at));
      assert Apply(db, StampKey(k, at)) == Apply(db, NewKey(k, row));
      SameDigestKeepsTables(db, k, row);
      KeyInView(db, k, row);
      KeySeen(db, k);
    }
  }

  lemma NewOrganisationReflects(db: Db, o: OrgId, tenant: Organisation, u: UserId, m: Membership, e: AuditEvent)
    requires TablesOk(db) && u in db.users && !SlugTaken(db, tenant.slug) && !MembershipClashes(db, o, u, m.id)
    requires e.org == Some(o) && e.target == o && e.actorUser == Some(u) && e.fact.OrganisationCreated?
             && m.role == Owner
    ensures Reflects(db, NewOrganisation(o, tenant, u, m), e)
  {
    hide ViewOf, TablesOk;
    OrganisationInView(db, o, tenant, u, m);
    OrganisationKeepsTables(db, o, tenant, u, m);
  }

  lemma EditInView(db: Db, o: OrgId, tenant: Organisation)
    requires o in db.organisations
    ensures ViewOf(Apply(db, SetOrganisation(o, tenant))) == ViewOf(db)
  {
    assert db.organisations[o := tenant].Keys == db.organisations.Keys;
  }

  lemma EditKeepsTables(db: Db, o: OrgId, tenant: Organisation)
    requires TablesOk(db) && o in db.organisations
    requires tenant.slug == db.organisations[o].slug || !SlugTaken(db, tenant.slug)
    ensures TablesOk(Apply(db, SetOrganisation(o, tenant)))
  {
    var after := Apply(db, SetOrganisation(o, tenant));
    assert after.organisations.Keys == db.organisations.Keys;
    forall p | p in after.projects ensures ProjectRefersToRows(after, after.projects[p]) {
      assert ProjectRefersToRows(db, db.projects[p]);
    }
    forall k | k in after.keys ensures KeyRefersToRows(after, after.keys[k]) {
      assert KeyRefersToRows(db, db.keys[k]);
    }
  }

  lemma SetOrganisationReflects(db: Db, o: OrgId, tenant: Organisation, e: AuditEvent)
    requires TablesOk(db) && o in db.organisations && e.fact.OrganisationUpdated?
    requires tenant.slug == db.organisations[o].slug || !SlugTaken(db, tenant.slug)
    ensures Reflects(db, SetOrganisation(o, tenant), e)
  {
    hide ViewOf, TablesOk, SlugTaken;
    EditInView(db, o, tenant);
    EditKeepsTables(db, o, tenant);
  }

  // ---- Each workflow is faithful ----

  /** What the role check saw in the tables, seen in the view. */
  lemma UserActorMay(db: Db, u: UserId, o: OrgId, e: AuditEvent)
    requires TenantAccess(db, u, o, Needed(e.fact)).Granted? && e.actorUser == Some(u)
    ensures o in db.organisations && o in ViewOf(db).orgs && ActorMay(ViewOf(db), o, e)
    ensures (o, u) in ViewOf(db).members
    ensures ViewOf(db).members[(o, u)] == TenantAccess(db, u, o, Needed(e.fact)).role
  {
  }

  lemma MemberSeen(db: Db, o: OrgId, u: UserId)
    ensures (o, u) in ViewOf(db).members <==> (o, u) in db.members
    ensures (o, u) in db.members ==> ViewOf(db).members[(o, u)] == db.members[(o, u)].role
  {
  }

  lemma UserInView(db: Db, u: UserId, account: User)
    ensures ViewOf(Apply(db, NewUser(u, account))) == ViewOf(db).(users := ViewOf(db).users + {u})
  {
    assert db.users[u := account].Keys == db.users.Keys + {u};
  }

  lemma UserKeepsTables(db: Db, u: UserId, account: User)
    requires TablesOk(db) && !EmailTaken(db, account.email)
    ensures TablesOk(Apply(db, NewUser(u, account)))
  {
    var after := Apply(db, NewUser(u, account));
    forall p | p in after.projects ensures ProjectRefersToRows(after, after.projects[p]) {
      assert ProjectRefersToRows(db, db.projects[p]);
    }
    forall k | k in after.keys ensures KeyRefersToRows(after, after.keys[k]) {
      assert KeyRefersToRows(db, db.keys[k]);
    }
  }

  lemma NewUserReflects(db: Db, u: UserId, account: User, e: AuditEvent)
    requires TablesOk(db) && !EmailTaken(db, account.email) && e.fact.UserRegistered? && e.target == u
    ensures Reflects(db, NewUser(u, account), e)
  {
    hide ViewOf, TablesOk, EmailTaken;
    UserInView(db, u, account);
    UserKeepsTables(db, u, account);
  }

  lemma RegisterIsFaithful(db: Db, now: Time, user: UserId, email: string)
    requires TablesOk(db)
    ensures Faithful(db, DecideRegister(db, now, user, email))
  {
    hide Reflects, TablesOk, EmailTaken;
    var d := DecideRegister(db, now, user, email);
    if d.Commit? {
      NewUserReflects(db, user, User(email, true), d.event);
    }
  }

  lemma LoginIsFaithful(db: Db, now: Time, email: string, passwordMatches: bool)
    requires TablesOk(db)
    ensures Faithful(db, DecideLogin(db, now, email, passwordMatches))
  {
    hide TablesOk;
    assert Apply(db, NoChange) == db;
  }

  lemma CreateOrganisationIsFaithful(env: Env, db: Db, now: Time, actor: UserId, org: OrgId, membership: nat,
                                     name: string, slug: Option<string>)
    requires TablesOk(db) && actor in db.users
    ensures Faithful(db, DecideCreateOrganisation(env, db, now, actor, org, membership, name, slug))
  {
    hide Reflects, TablesOk;
    var d := DecideCreateOrganisation(env, db, now, actor, org, membership, name, slug);
    if d.Commit? {
      NewOrganisationReflects(db, org, d.change.tenant, actor, d.change.membership, d.event);
    }
  }

  lemma UpdateOrganisationIsFaithful(env: Env, db: Db, now: Time, actor: UserId, org: OrgId, name: Option<string>,
                                     slug: Option<string>)
    requires TablesOk(db)
    ensures Faithful(db, DecideUpdateOrganisation(env, db, now, actor, org, name, slug))
  {
    hide Reflects, TablesOk, ViewOf, TenantAccess;
    var d := DecideUpdateOrganisation(env, db, now, actor, org, name, slug);
    if d.Commit? {
      UserActorMay(db, actor, org, d.event);
      SetOrganisationReflects(db, org, d.change.tenant, d.event);
    }
  }

  lemma AddMemberIsFaithful(db: Db, now: Time, actor: UserId, org: OrgId, target: UserId, role: Role, membership: nat)
    requires TablesOk(db)
    ensures Faithful(db, DecideAddMember(db, now, actor, org, target, role, membership))
  {
    hide Reflects, TablesOk, TenantAccess;
    var d := DecideAddMember(db, now, actor, org, target, role, membership);
    if d.Commit? {
      UserActorMay(db, actor, org, d.event);
      MemberSeen(db, org, target);
      SetMemberReflects(db, org, target, d.change.membership, d.event);
    }
  }

  lemma MemberIsKnown(db: Db, o: OrgId, u: UserId)
    requires TablesOk(db) && (o, u) in db.members
    ensures o in db.organisations && u in db.users
    ensures forall k :: k in db.members && db.members[k].id == db.members[(o, u)].id ==> k == (o, u)
  {
  }

  lemma UpdateMemberRoleIsFaithful(db: Db, now: Time, actor: UserId, org: OrgId, target: UserId, role: Role)
    requires TablesOk(db)
    ensures Faithful(db, DecideUpdateMemberRole(db, now, actor, org, target, role))
  {
    hide Reflects, TablesOk, ViewOf, TenantAccess;
    var d := DecideUpdateMemberRole(db, now, actor, org, target, role);
    if d.Commit? {
      UserActorMay(db, actor, org, d.event);
      MemberSeen(db, org, target);
      MemberIsKnown(db, org, target);
      SetMemberReflects(db, org, target, d.change.membership, d.event);
      OtherOwnersExist(db, org, target);
    }
  }

  lemma RemoveMemberIsFaithful(db: Db, now: Time, actor: UserId, org: OrgId, target: UserId)
    requires TablesOk(db)
    ensures Faithful(db, DecideRemoveMember(db, now, actor, org, target))
  {
    hide Reflects, TablesOk, ViewOf, TenantAccess;
    var d := DecideRemoveMember(db, now, actor, org, target);
    if d.Commit? {
      UserActorMay(db, actor, org, d.event);
      MemberSeen(db, org, target);
      DropMemberReflects(db, org, target, d.event);
      OtherOwnersExist(db, org, target);
    }
  }

  /** Who may work on projects in the tables may do so in the view. */
  lemma ProjectActorMay(db: Db, p: Principal, org: OrgId, e: AuditEvent)
    requires TablesOk(db) && PrincipalOk(db, p) && ProjectAccess(db, p, org, WriteProjects) == None
    requires e.actorUser == ActorUser(p) && e.actorKey == ActorKey(p) && IsProjectFact(e.fact)
    ensures org in db.organisations && org in ViewOf(db).orgs && ActorMay(ViewOf(db), org, e)
    ensures (e.actorUser.Some? <==> e.actorKey.None?) && Known(db, ActorUser(p))
  {
    hide UniqueEmails, UniqueDigests, UniqueMembershipIds, UniqueSlugs;
  }

  lemma CreateProjectIsFaithful(db: Db, now: Time, p: Principal, org: OrgId, project: ProjectId, name: string,
                                description: Option<string>, status: ProjectStatus)
    requires TablesOk(db) && PrincipalOk(db, p)
    ensures Faithful(db, DecideCreateProject(db, now, p, org, project, name, description, status))
  {
    hide Reflects, TablesOk, ProjectAccess, PrincipalOk, ActorMay;
    var d := DecideCreateProject(db, now, p, org, project, name, description, status);
    if d.Commit? {
      ProjectActorMay(db, p, org, d.event);
      SetProjectReflects(db, project, d.change.row, d.event);
    }
  }

  lemma UpdateProjectIsFaithful(db: Db, now: Time, p: Principal, org: OrgId, project: ProjectId, name: Option<string>,
                                description: Option<Option<string>>, status: Option<ProjectStatus>)
    requires TablesOk(db) && PrincipalOk(db, p)
    ensures Faithful(db, DecideUpdateProject(db, now, p, org, project, name, description, status))
  {
    hide Reflects, TablesOk, ViewOf, ProjectAccess, PrincipalOk, ActorMay;
    var d := DecideUpdateProject(db, now, p, org, project, name, description, status);
    if d.Commit? {
      ProjectActorMay(db, p, org, d.event);
      LiveInView(db, org, project);
      EditorsAreKnown(db, project, d.change.row, ActorUser(p));
      EditProjectReflects(db, project, d.change.row, d.event);
    }
  }

  lemma DeleteProjectIsFaithful(db: Db, now: Time, p: Principal, org: OrgId, project: ProjectId)
    requires TablesOk(db) && PrincipalOk(db, p)
    ensures Faithful(db, DecideDeleteProject(db, now, p, org, project))
  {
    hide Reflects, TablesOk, ViewOf, ProjectAccess, PrincipalOk, ActorMay;
    var d := DecideDeleteProject(db, now, p, org, project);
    if d.Commit? {
      ProjectActorMay(db, p, org, d.event);
      LiveInView(db, org, project);
      EditorsAreKnown(db, project, d.change.row, ActorUser(p));
      SetProjectReflects(db, project, d.change.row, d.event);
    }
  }

  lemma CreateApiKeyIsFaithful(db: Db, now: Time, actor: UserId, org: OrgId, key: KeyId, name: string, prefix: string,
                               digest: string)
    requires TablesOk(db)
    ensures Faithful(db, DecideCreateApiKey(db, now, actor, org, key, name, prefix, digest))
  {
    hide Reflects, TablesOk, TenantAccess;
    var d := DecideCreateApiKey(db, now, actor, org, key, name, prefix, digest);
    if d.Commit? {
      UserActorMay(db, actor, org, d.event);
      MemberSeen(db, org, actor);
      MemberIsKnown(db, org, actor);
      NewKeyReflects(db, key, d.change.apiKey, d.event);
    }
  }

  lemma RevokeApiKeyIsFaithful(db: Db, now: Time, actor: UserId, org: OrgId, key: KeyId)
    requires TablesOk(db)
    ensures Faithful(db, DecideRevokeApiKey(db, now, actor, org, key))
  {
    hide Reflects, TablesOk, ViewOf, TenantAccess;
    var d := DecideRevokeApiKey(db, now, actor, org, key);
    if d.Commit? {
      UserActorMay(db, actor, org, d.event);
      KeySeen(db, key);
      RevokeKeyReflects(db, key, now, d.event);
    }
  }

  lemma ProjectCommandsAreFaithful(env: Env, db: Db, now: Time, p: Principal, c: Command)
    requires TablesOk(db) && PrincipalOk(db, p) && IsProjectCommand(c)
    ensures Faithful(db, DecideOnProjects(env, db, now, p, c))
  {
    match c
    case CreateProject(o, id, name, description, status) =>
      CreateProjectIsFaithful(db, now, p, o, id, name, description, status);
    case UpdateProject(o, id, name, description, status) =>
      UpdateProjectIsFaithful(db, now, p, o, id, name, description, status);
    case DeleteProject(o, id) => DeleteProjectIsFaithful(db, now, p, o, id);
    case _ =>
  }

  lemma UserCommandsAreFaithful(env: Env, db: Db, now: Time, u: UserId, c: Command)
    requires TablesOk(db) && u in db.users && !IsOpen(c) && !IsProjectCommand(c)
    ensures Faithful(db, DecideAsUser(env, db, now, u, c))
  {
    match c
    case CreateOrganisation(o, m, name, slug) => CreateOrganisationIsFaithful(env, db, now, u, o, m, name, slug);
    case UpdateOrganisationCommand(o, name, slug) => UpdateOrganisationIsFaithful(env, db, now, u, o, name, slug);
    case AddMember(o, target, role, m) => AddMemberIsFaithful(db, now, u, o, target, role, m);
    case UpdateMemberRole(o, target, role) => UpdateMemberRoleIsFaithful(db, now, u, o, target, role);
    case RemoveMember(o, target) => RemoveMemberIsFaithful(db, now, u, o, target);
    case CreateApiKey(o, k, name, prefix, digest) => CreateApiKeyIsFaithful(db, now, u, o, k, name, prefix, digest);
    case RevokeApiKey(o, k) => RevokeApiKeyIsFaithful(db, now, u, o, k);
    case _ =>
  }

  /** Every command of every principal is faithful. */
  lemma CommandsAreFaithful(env: Env, db: Db, now: Time, p: Principal, c: Command)
    requires TablesOk(db) && PrincipalOk(db, p) && !IsOpen(c)
    ensures Faithful(db, Decide(env, db, now, p, c))
  {
    if IsProjectCommand(c) {
      hide Faithful, DecideOnProjects, DecideAsUser, TablesOk;
      ProjectCommandsAreFaithful(env, db, now, p, c);
    } else if p.UserPrincipal? {
      hide Faithful, DecideOnProjects, DecideAsUser, TablesOk;
      UserCommandsAreFaithful(env, db, now, p.user, c);
    }
  }

  // ---- Transactions and runs keep the invariant ----

  lemma StampKeepsSound(db: Db, k: KeyId, at: Time)
    requires Sound(db)
    ensures Sound(Apply(db, StampKey(k, at)))
  {
    hide ViewOf, TablesOk;
    StampKeyIsInvisible(db, k, at);
  }

  lemma KeyPrincipalOk(db: Db, digest: string, k: KeyId, at: Time)
    requires ActiveKey(db, digest, k)
    ensures PrincipalOk(Apply(db, StampKey(k, at)), KeyPrincipal(k, db.keys[k].org))
  {
  }

  /** A request's transaction starts from a sound state and commits nothing unfaithful. */
  lemma PlansAreFaithful(env: Env, st: State, r: Request)
    requires Sound(st.db)
    ensures var plan := Prepare(env, st, r);
            plan.Work? ==> Sound(plan.start.db) && Faithful(plan.start.db, plan.decision)
  {
    hide Faithful, Decide, DecideRegister, DecideLogin, TablesOk, ViewOf;
    if r.command.RegisterUser? {
      RegisterIsFaithful(st.db, r.now, r.command.user, r.command.email);
    } else if r.command.LoginUser? {
      LoginIsFaithful(st.db, r.now, r.command.email, r.command.passwordMatches);
    } else if ActiveUser(st.db, r.bearer).Some? {
      CommandsAreFaithful(env, st.db, r.now, UserPrincipal(ActiveUser(st.db, r.bearer).value), r.command);
    } else if IsProjectCommand(r.command) && KeyFor(st.db, r.bearer.digest).Some? {
      var k := KeyFor(st.db, r.bearer.digest).value;
      StampKeepsSound(st.db, k, r.now);
      KeyPrincipalOk(st.db, r.bearer.digest, k, r.now);
      hide PrincipalOk;
      CommandsAreFaithful(env, Apply(st.db, StampKey(k, r.now)), r.now, KeyPrincipal(k, st.db.keys[k].org), r.command);
    }
  }

  lemma CommitKeepsSound(db: Db, d: Decision)
    requires Sound(db) && d.Commit? && Faithful(db, d)
    ensures Sound(Record(Apply(db, d.change), d.event))
  {
    CertifiedExtend(db.log, d.event);
    RecordIsInvisible(Apply(db, d.change), d.event);
    hide ViewOf, TablesOk, Permitted, Absorb;
  }

  lemma RecordIsInvisible(db: Db, e: AuditEvent)
    ensures ViewOf(Record(db, e)) == ViewOf(db) && (TablesOk(db) ==> TablesOk(Record(db, e)))
  {
    if TablesOk(db) {
      RecordKeepsTables(db, e);
    }
    hide TablesOk;
  }

  lemma RecordKeepsTables(db: Db, e: AuditEvent)
    requires TablesOk(db)
    ensures TablesOk(Record(db, e))
  {
    forall p | p in db.projects ensures ProjectRefersToRows(Record(db, e), db.projects[p]) {
      assert ProjectRefersToRows(db, db.projects[p]);
    }
    forall k | k in db.keys ensures KeyRefersToRows(Record(db, e), db.keys[k]) {
      assert KeyRefersToRows(db, db.keys[k]);
    }
  }

  lemma FinishKeepsSound(st: State, d: Decision, fault: Option<nat>)
    requires Sound(st.db) && Faithful(st.db, d)
    ensures Sound(Finish(st, d, fault).0.db)
  {
    hide Sound, Faithful;
    if d.Commit? {
      CommitKeepsSound(st.db, d);
    }
  }

  lemma HandleKeepsSound(env: Env, st: State, r: Request)
    requires Sound(st.db)
    ensures Sound(Handle(env, st, r).0.db)
  {
    hide Sound, Prepare, Faithful, Finish;
    PlansAreFaithful(env, st, r);
    var plan := Prepare(env, st, r);
    if plan.Work? {
      FinishKeepsSound(plan.start, plan.decision, plan.fault);
    }
  }

  lemma GenesisIsSound()
    ensures Sound(GENESIS.db)
  {
  }

  /** Whatever the requests and whatever fails, the invariant holds. */
  lemma {:induction false} RunKeepsSound(env: Env, st: State, requests: seq<Request>)
    requires Sound(st.db)
    ensures Sound(Run(env, st, requests).db)
  {
    if requests != [] {
      var n := |requests| - 1;
      RunKeepsSound(env, st, requests[..n]);
      HandleKeepsSound(env, Run(env, st, requests[..n]), requests[n]);
    }
  }
}
