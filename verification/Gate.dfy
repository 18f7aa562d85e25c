/** Who gets past the credential and the role table, endpoint by endpoint, said of whole requests and
    in terms of roles and commands alone. */
module Gate {
  import opened Domain
  import opened Store
  import opened Workflows
  import opened Ledger
  import opened LedgerTheorems
  import opened Effects
  import AuditLog
  import Isolation
  import Slugs

  // ---- Credentials ----

  /** The bearer is a valid token of an active user. */
  predicate SignedIn(db: Db, b: Bearer, u: UserId) {
    b.token == Some(u) && u in db.users && db.users[u].active
  }

  /** The bearer is the secret of a key that is not revoked. */
  predicate Opens(db: Db, b: Bearer, k: KeyId) {
    k in db.keys && db.keys[k].digest == b.digest && db.keys[k].revokedAt == None
  }

  predicate OnProjects(c: Command) {
    c.CreateProject? || c.ListProjects? || c.GetProject? || c.UpdateProject? || c.DeleteProject?
  }

  predicate NeedsNoBearer(c: Command) {
    c.RegisterUser? || c.LoginUser?
  }

  lemma SignedInIsActive(db: Db, b: Bearer, u: UserId)
    ensures SignedIn(db, b, u) <==> ActiveUser(db, b) == Some(u)
  {
  }

  lemma OpeningKeys(db: Db, b: Bearer)
    ensures KeyFor(db, b.digest).Some? <==> exists k :: Opens(db, b, k)
    ensures KeyFor(db, b.digest).Some? ==> Opens(db, b, KeyFor(db, b.digest).value)
  {
    forall k ensures Opens(db, b, k) <==> ActiveKey(db, b.digest, k) {
    }
    if k :| Opens(db, b, k) {
      assert ActiveKey(db, b.digest, k);
    }
    if KeyFor(db, b.digest).Some? {
      assert Opens(db, b, KeyFor(db, b.digest).value);
    }
  }

  lemma UserHandled(env: Env, st: State, r: Request, u: UserId)
    requires SignedIn(st.db, r.bearer, u) && !NeedsNoBearer(r.command)
    ensures Handle(env, st, r) == Finish(st, Decide(env, st.db, r.now, UserPrincipal(u), r.command), r.fault)
  {
    hide Decide, Finish;
  }

  lemma NobodyIsUnauthenticatedLater(env: Env, db: Db, now: Time, p: Principal, c: Command)
    requires !NeedsNoBearer(c) && (p.KeyPrincipal? ==> OnProjects(c))
    ensures var d := Decide(env, db, now, p, c);
            d != Refuse(Unauthenticated) && (d.Clash? ==> d.response != Failed(Unauthenticated))
  {
    hide OwnerProtected, MembershipClashes, KeyClashes, SlugTaken, LiveProject, RoleManagementAllowed, EditedProject,
      EditedOrganisation, PermissionsForRole;
  }

  lemma FinishRefuses(st: State, d: Decision, fault: Option<nat>, e: Error)
    ensures Finish(st, d, fault).1 == Failed(e) ==> d == Refuse(e) || (d.Clash? && d.response == Failed(e))
    ensures d == Refuse(e) ==> Finish(st, d, fault) == (st, Failed(e))
  {
  }

  /** A request is unauthenticated exactly when nobody active signed in and, on project endpoints, no
      live key opens either. */
  lemma BearersExactly(env: Env, st: State, r: Request)
    requires !NeedsNoBearer(r.command)
    ensures Handle(env, st, r).1 == Failed(Unauthenticated)
            <==> (forall u :: !SignedIn(st.db, r.bearer, u))
                 && !(OnProjects(r.command) && exists k :: Opens(st.db, r.bearer, k))
  {
    hide Decide, Finish, Opens, Apply, FailsBy;
    OpeningKeys(st.db, r.bearer);
    var user := ActiveUser(st.db, r.bearer);
    if user.Some? {
      assert SignedIn(st.db, r.bearer, user.value);
      NobodyIsUnauthenticatedLater(env, st.db, r.now, UserPrincipal(user.value), r.command);
      FinishRefuses(st, Decide(env, st.db, r.now, UserPrincipal(user.value), r.command), r.fault, Unauthenticated);
    } else {
      NobodySignedIn(st.db, r.bearer);
      var plan := Prepare(env, st, r);
      if plan.Work? {
        var k := KeyFor(st.db, r.bearer.digest).value;
        var p := KeyPrincipal(k, st.db.keys[k].org);
        NobodyIsUnauthenticatedLater(env, plan.start.db, r.now, p, r.command);
        FinishRefuses(plan.start, plan.decision, plan.fault, Unauthenticated);
      }
    }
  }

  // ---- Roles ----

  /** The roles that hold a permission. */
  lemma RolesOfPermission(role: Role, needed: Permission)
    ensures needed in PermissionsForRole(role)
            <==> match needed
                 case ReadOrganisation => true
                 case ReadProjects => true
                 case WriteProjects => role == Owner || role == Admin || role == Member
                 case UpdateOrganisation => role == Owner || role == Admin
                 case ManageMembers => role == Owner || role == Admin
                 case ManageApiKeys => role == Owner || role == Admin
                 case ReadAuditEvents => role == Owner || role == Admin
                 case ManageOrganisation => role == Owner
  {
  }

  /** The command has the organisation in its path: every command but registration, login, creating and
      listing organisations. */
  predicate Below(c: Command, o: OrgId) {
    !c.RegisterUser? && !c.LoginUser? && !c.CreateOrganisation? && !c.ListOrganisations? && c.org == o
  }

  /** Commands below an organisation that the role may not use. */
  predicate OutOfReach(role: Role, c: Command) {
    match role
    case Owner => false
    case Admin => false
    case Member => !c.GetOrganisation? && !OnProjects(c)
    case Viewer => !c.GetOrganisation? && !c.ListProjects? && !c.GetProject?
  }

  /** The command would make, change or remove an owner. */
  predicate TouchesOwner(db: Db, o: OrgId, c: Command) {
    match c
    case AddMember(_, _, role, _) => role == Owner
    case UpdateMemberRole(_, target, role) =>
      (o, target) in db.members && (role == Owner || db.members[(o, target)].role == Owner)
    case RemoveMember(_, target) => (o, target) in db.members && db.members[(o, target)].role == Owner
    case _ => false
  }

  lemma ReachIsPermission(role: Role, c: Command)
    requires Addressee(c).Some?
    ensures PermissionFor(c) !in PermissionsForRole(role) <==> OutOfReach(role, c)
    ensures PermissionFor(c) != ManageOrganisation
  {
    RolesOfPermission(role, PermissionFor(c));
    hide PermissionsForRole;
  }

  lemma MembersAreDenied(env: Env, db: Db, now: Time, u: UserId, o: OrgId, c: Command)
    requires Addressee(c) == Some(o) && o in db.organisations && (o, u) in db.members
    requires !OutOfReach(db.members[(o, u)].role, c)
    ensures var d := Decide(env, db, now, UserPrincipal(u), c);
            && (d == Refuse(PermissionDenied) <==> db.members[(o, u)].role == Admin && TouchesOwner(db, o, c))
            && (d.Clash? ==> d.response != Failed(PermissionDenied))
  {
    ReachIsPermission(db.members[(o, u)].role, c);
    hide PermissionsForRole, OwnerProtected, MembershipClashes, KeyClashes, SlugTaken, LiveProject, EditedProject,
      EditedOrganisation, Slugs.Normalise;
  }

  /** The whole role table. A member of the organisation is refused for lack of permission exactly when
      the command is out of reach of the role, or an admin's command touches an owner; and such a
      request changes nothing. */
  lemma RoleTable(env: Env, st: State, r: Request, o: OrgId, u: UserId)
    requires SignedIn(st.db, r.bearer, u) && Below(r.command, o)
    requires o in st.db.organisations && (o, u) in st.db.members
    ensures var role := st.db.members[(o, u)].role;
            && (Handle(env, st, r).1 == Failed(PermissionDenied)
                <==> OutOfReach(role, r.command) || (role == Admin && TouchesOwner(st.db, o, r.command)))
            && (Handle(env, st, r).1 == Failed(PermissionDenied) ==> Handle(env, st, r).0 == st)
  {
    hide Decide, Finish, OutOfReach, TouchesOwner, PermissionsForRole, PermissionFor;
    var role := st.db.members[(o, u)].role;
    UserHandled(env, st, r, u);
    var d := Decide(env, st.db, r.now, UserPrincipal(u), r.command);
    FinishRefuses(st, d, r.fault, PermissionDenied);
    ReachIsPermission(role, r.command);
    if OutOfReach(role, r.command) {
      DeniedIsRefused(env, st.db, r.now, u, r.command);
    } else {
      MembersAreDenied(env, st.db, r.now, u, o, r.command);
      ClashKeepsState(st, d, r.fault);
    }
    hide Handle;
  }

  /** Before roles matter: an organisation that is not there and an organisation the user is no member of
      are told apart exactly, and nothing changes. */
  lemma StrangersExactly(env: Env, st: State, r: Request, o: OrgId, u: UserId)
    requires SignedIn(st.db, r.bearer, u) && Below(r.command, o)
    ensures Handle(env, st, r).1 == Failed(OrganisationNotFound) <==> o !in st.db.organisations
    ensures Handle(env, st, r).1 == Failed(TenantAccessDenied)
            <==> o in st.db.organisations && (o, u) !in st.db.members
    ensures o !in st.db.organisations || (o, u) !in st.db.members ==> Handle(env, st, r).0 == st
  {
    hide Decide, Finish, PermissionsForRole, PermissionFor;
    UserHandled(env, st, r, u);
    var d := Decide(env, st.db, r.now, UserPrincipal(u), r.command);
    FinishRefuses(st, d, r.fault, OrganisationNotFound);
    FinishRefuses(st, d, r.fault, TenantAccessDenied);
    DeniedIsRefused(env, st.db, r.now, u, r.command);
    if o in st.db.organisations && (o, u) in st.db.members {
      MembersAreNoStrangers(env, st.db, r.now, u, o, r.command);
    }
    hide Handle;
  }

  lemma MembersAreNoStrangers(env: Env, db: Db, now: Time, u: UserId, o: OrgId, c: Command)
    requires Below(c, o) && o in db.organisations && (o, u) in db.members
    ensures var d := Decide(env, db, now, UserPrincipal(u), c);
            && d != Refuse(OrganisationNotFound) && d != Refuse(TenantAccessDenied)
            && (d.Clash? ==> d.response != Failed(OrganisationNotFound) && d.response != Failed(TenantAccessDenied))
  {
    hide PermissionsForRole, RoleManagementAllowed, OwnerProtected, MembershipClashes, KeyClashes, SlugTaken,
      LiveProject, EditedProject, EditedOrganisation, Slugs.Normalise;
  }

  lemma ClashKeepsState(st: State, d: Decision, fault: Option<nat>)
    ensures d.Clash? || d.Refuse? ==> Finish(st, d, fault).0 == st
  {
  }

  lemma NobodySignedIn(db: Db, b: Bearer)
    ensures ActiveUser(db, b).None? <==> forall u :: !SignedIn(db, b, u)
  {
    if ActiveUser(db, b).Some? {
      assert SignedIn(db, b, ActiveUser(db, b).value);
    }
  }

  /** The tables after the use of a key is stamped. */
  function Stamped(db: Db, k: KeyId, now: Time): Db
    requires k in db.keys
  {
    db.(keys := db.keys[k := db.keys[k].(lastUsedAt := Some(now))])
  }

  lemma KeyHandled(env: Env, st: State, r: Request, k: KeyId)
    requires Sound(st.db) && OnProjects(r.command)
    requires (forall u :: !SignedIn(st.db, r.bearer, u)) && Opens(st.db, r.bearer, k)
    ensures var start := st.(db := Stamped(st.db, k, r.now));
            Handle(env, st, r)
            == if r.fault == Some(0) || r.fault == Some(1) then (st, ServerError)
               else
                 Finish(start, Decide(env, start.db, r.now, KeyPrincipal(k, st.db.keys[k].org), r.command),
                        After(r.fault, 2))
  {
    hide Sound, Opens, SignedIn, Decide, Finish, Apply, Stamped, Handle, ActiveUser, KeyFor, After;
    KeyFound(st.db, r.bearer, k);
    StampIsOneField(st.db, k, r.now);
    Isolation.HandledByKey(env, st, r);
  }

  lemma KeyFound(db: Db, b: Bearer, k: KeyId)
    requires Sound(db) && (forall u :: !SignedIn(db, b, u)) && Opens(db, b, k)
    ensures k in db.keys && KeyFor(db, b.digest) == Some(k) && ActiveUser(db, b).None?
  {
    SoundHasUniqueDigests(db);
    hide Sound, UniqueDigests, Opens, SignedIn;
    KeyThatOpens(db, b, k);
    NobodySignedIn(db, b);
  }

  lemma KeyThatOpens(db: Db, b: Bearer, k: KeyId)
    requires UniqueDigests(db) && Opens(db, b, k)
    ensures k in db.keys && KeyFor(db, b.digest) == Some(k)
  {
    assert ActiveKey(db, b.digest, k);
  }

  lemma StampIsOneField(db: Db, k: KeyId, now: Time)
    requires k in db.keys
    ensures Apply(db, StampKey(k, now)) == Stamped(db, k, now)
  {
  }

  lemma KeyDecisions(env: Env, db: Db, now: Time, k: KeyId, own: OrgId, c: Command)
    requires OnProjects(c)
    ensures var d := Decide(env, db, now, KeyPrincipal(k, own), c);
            && (d == Refuse(TenantAccessDenied) <==> own != c.org)
            && d != Refuse(PermissionDenied) && d != Refuse(OrganisationNotFound)
            && (d.Clash? ==> d.response == ServerError)
  {
    hide LiveProject, EditedProject, MatchingProjects, MatchingIds;
  }

  /** An API key is never refused a project command of its own organisation for want of access, and
      always one of another. */
  lemma KeysReachTheirProjects(env: Env, st: State, r: Request, k: KeyId)
    requires Sound(st.db) && OnProjects(r.command) && r.fault == None
    requires (forall u :: !SignedIn(st.db, r.bearer, u)) && Opens(st.db, r.bearer, k)
    ensures Handle(env, st, r).1 == Failed(TenantAccessDenied) <==> st.db.keys[k].org != r.command.org
    ensures Handle(env, st, r).1 != Failed(PermissionDenied) && Handle(env, st, r).1 != Failed(OrganisationNotFound)
  {
    KeyHandled(env, st, r, k);
    hide Sound, Decide, Finish, Handle, SignedIn, Stamped;
    var start := st.(db := Stamped(st.db, k, r.now));
    var d := Decide(env, start.db, r.now, KeyPrincipal(k, st.db.keys[k].org), r.command);
    KeyDecisions(env, start.db, r.now, k, st.db.keys[k].org, r.command);
    FinishRefuses(start, d, None, TenantAccessDenied);
    FinishRefuses(start, d, None, PermissionDenied);
    FinishRefuses(start, d, None, OrganisationNotFound);
  }

  // ---- The roles behind the audit log ----

  /** What the replayed roles of an entry's actor are, role by role: nobody below member writes
      projects, nobody below admin changes members, keys or the organisation, and only an owner makes,
      changes or removes an owner. */
  lemma AuditNamesRoles(env: Env, st: State, i: nat)
    requires Reachable(env, st) && i < |st.db.log|
    requires st.db.log[i].actorUser.Some? && st.db.log[i].org.Some? && !st.db.log[i].fact.OrganisationCreated?
    ensures var e, v := st.db.log[i], AuditLog.Replay(st.db.log[..i]);
            var m := (e.org.value, e.actorUser.value);
            && m in v.members
            && (e.fact.ProjectCreated? || e.fact.ProjectUpdated? || e.fact.ProjectDeleted?
                ==> v.members[m] == Owner || v.members[m] == Admin || v.members[m] == Member)
            && (!(e.fact.ProjectCreated? || e.fact.ProjectUpdated? || e.fact.ProjectDeleted?)
                ==> v.members[m] == Owner || v.members[m] == Admin)
            && ((e.fact.MemberAdded? && e.fact.role == Owner) || (e.fact.MemberRemoved? && e.fact.role == Owner)
                || (e.fact.MemberRoleChanged? && (e.fact.oldRole == Owner || e.fact.newRole == Owner))
                ==> v.members[m] == Owner)
  {
    AuditCertifiesItself(env, st, i);
    var e, v := st.db.log[i], AuditLog.Replay(st.db.log[..i]);
    PermittedRoles(v, e);
  }

  lemma PermittedRoles(v: AuditLog.View, e: AuditEvent)
    requires AuditLog.Permitted(v, e) && e.actorUser.Some? && e.org.Some? && !e.fact.OrganisationCreated?
    ensures var m := (e.org.value, e.actorUser.value);
            && m in v.members
            && (e.fact.ProjectCreated? || e.fact.ProjectUpdated? || e.fact.ProjectDeleted?
                ==> v.members[m] == Owner || v.members[m] == Admin || v.members[m] == Member)
            && (!(e.fact.ProjectCreated? || e.fact.ProjectUpdated? || e.fact.ProjectDeleted?)
                ==> v.members[m] == Owner || v.members[m] == Admin)
            && ((e.fact.MemberAdded? && e.fact.role == Owner) || (e.fact.MemberRemoved? && e.fact.role == Owner)
                || (e.fact.MemberRoleChanged? && (e.fact.oldRole == Owner || e.fact.newRole == Owner))
                ==> v.members[m] == Owner)
  {
    var m := (e.org.value, e.actorUser.value);
    if m in v.members {
      RolesOfPermission(v.members[m], AuditLog.Needed(e.fact));
    }
    hide PermissionsForRole;
  }
}
