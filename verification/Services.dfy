/** The services as they run: a session with a committed and a working store, workflows that flush,
    record an audit event, commit or roll back. Each method is tied to the decision and the
    transaction it carries out. */
module Services {
  import opened Domain
  import opened Store
  import opened Text
  import opened Workflows
  import Ledger
  import Secrets
  import Slugs

  /** How a flush ends. */
  datatype Flushed = Done | IntegrityError | Broken

  /** A database session. `fault` says which of the flushes and commits to come raises; None: none. */
  class Session {
    var committed: Db
    var working: Db
    var fault: Option<nat>

    constructor (db: Db, fault: Option<nat>)
      ensures committed == working == db && this.fault == fault
    {
      committed, working, this.fault := db, db, fault;
    }

    /** Between transactions nothing is pending. */
    predicate Clean()
      reads this
    {
      working == committed
    }

    method Flush(change: Change, clash: bool) returns (outcome: Flushed)
      modifies this`working, this`fault
      ensures outcome == if old(fault) == Some(0) then Broken else if clash then IntegrityError else Done
      ensures working == if outcome.Done? then Apply(old(working), change) else old(working)
      ensures fault == After(old(fault), 1)
    {
      outcome := if fault == Some(0) then Broken else if clash then IntegrityError else Done;
      fault := After(fault, 1);
      if outcome.Done? {
        working := Apply(working, change);
      }
    }

    method FlushEvent(e: AuditEvent) returns (ok: bool)
      modifies this`working, this`fault
      ensures ok == (old(fault) != Some(0))
      ensures working == if ok then Record(old(working), e) else old(working)
      ensures fault == After(old(fault), 1)
    {
      ok := fault != Some(0);
      fault := After(fault, 1);
      if ok {
        working := Record(working, e);
      }
    }

    /** A flush of a row outside the ledger's tables. */
    method FlushElsewhere(clash: bool) returns (outcome: Flushed)
      modifies this`fault
      ensures outcome == if old(fault) == Some(0) then Broken else if clash then IntegrityError else Done
      ensures fault == After(old(fault), 1)
    {
      outcome := if fault == Some(0) then Broken else if clash then IntegrityError else Done;
      fault := After(fault, 1);
    }

    method Commit() returns (ok: bool)
      modifies this`committed, this`fault
      ensures ok == (old(fault) != Some(0))
      ensures committed == if ok then working else old(committed)
      ensures fault == After(old(fault), 1)
    {
      ok := fault != Some(0);
      fault := After(fault, 1);
      if ok {
        committed := working;
      }
    }

    method Rollback()
      modifies this`working
      ensures working == committed
    {
      working := committed;
    }
  }

  /** The business counters and the audit counter. */
  class MetricsService {
    var organisationsCreated: nat
    var projectsCreated: nat
    var keysCreated: nat
    var keysRevoked: nat
    var auditEvents: multiset<Action>
    var replays: nat
    var conflicts: nat
    var registrations: nat
    var failedRegistrations: nat
    var logins: nat
    var failedLogins: nat

    constructor ()
      ensures Counters() == NO_METRICS && replays == 0 && conflicts == 0
      ensures registrations == 0 && failedRegistrations == 0 && logins == 0 && failedLogins == 0
    {
      organisationsCreated, projectsCreated, keysCreated, keysRevoked := 0, 0, 0, 0;
      auditEvents, replays, conflicts := multiset{}, 0, 0;
      registrations, failedRegistrations, logins, failedLogins := 0, 0, 0, 0;
    }

    function Counters(): Metrics
      reads this
    {
      Metrics(organisationsCreated, projectsCreated, keysCreated, keysRevoked, auditEvents)
    }

    method RecordAuditEvent(action: Action)
      modifies this`auditEvents
      ensures auditEvents == old(auditEvents) + multiset{action}
    {
      auditEvents := auditEvents + multiset{action};
    }

    method RecordRegistration(success: bool)
      modifies this`registrations, this`failedRegistrations
      ensures registrations == old(registrations) + if success then 1 else 0
      ensures failedRegistrations == old(failedRegistrations) + if success then 0 else 1
    {
      if success {
        registrations := registrations + 1;
      } else {
        failedRegistrations := failedRegistrations + 1;
      }
    }

    method RecordLogin(success: bool)
      modifies this`logins, this`failedLogins
      ensures logins == old(logins) + if success then 1 else 0
      ensures failedLogins == old(failedLogins) + if success then 0 else 1
    {
      if success {
        logins := logins + 1;
      } else {
        failedLogins := failedLogins + 1;
      }
    }

    method RecordOrganisationCreated()
      modifies this`organisationsCreated
      ensures Counters() == old(Counters()).(organisationsCreated := old(organisationsCreated) + 1)
    {
      organisationsCreated := organisationsCreated + 1;
    }

    method RecordProjectCreated()
      modifies this`projectsCreated
      ensures Counters() == old(Counters()).(projectsCreated := old(projectsCreated) + 1)
    {
      projectsCreated := projectsCreated + 1;
    }

    method RecordApiKeyCreated()
      modifies this`keysCreated
      ensures Counters() == old(Counters()).(keysCreated := old(keysCreated) + 1)
    {
      keysCreated := keysCreated + 1;
    }

    method RecordApiKeyRevoked()
      modifies this`keysRevoked
      ensures Counters() == old(Counters()).(keysRevoked := old(keysRevoked) + 1)
    {
      keysRevoked := keysRevoked + 1;
    }

    method RecordIdempotencyReplay()
      modifies this`replays
      ensures replays == old(replays) + 1
    {
      replays := replays + 1;
    }

    method RecordIdempotencyConflict()
      modifies this`conflicts
      ensures conflicts == old(conflicts) + 1
    {
      conflicts := conflicts + 1;
    }
  }

  /** Records events inside the caller's transaction: it flushes and never commits. */
  class AuditService {
    const session: Session
    const metrics: MetricsService
    const casing: Casing
    const show: nat -> string

    constructor (session: Session, metrics: MetricsService, casing: Casing, show: nat -> string)
      ensures this.session == session && this.metrics == metrics && this.casing == casing
    {
      this.session, this.metrics, this.casing, this.show := session, metrics, casing, show;
    }

    /** The counter moves with the flush, and the metadata check in front never raises. */
    method RecordEvent(e: AuditEvent) returns (ok: bool)
      requires KeepsPlain(casing)
      modifies session`working, session`fault, metrics`auditEvents
      ensures ok == (old(session.fault) != Some(0))
      ensures session.working == if ok then Record(old(session.working), e) else old(session.working)
      ensures session.fault == After(old(session.fault), 1)
      ensures metrics.Counters() == if ok then CountAudit(old(metrics.Counters()), e) else old(metrics.Counters())
    {
      Secrets.MetadataNeverRejected(casing, show, e.fact);
      if Secrets.ContainsForbiddenKey(casing, Secrets.MetadataOf(show, e.fact)) {
        assert false;
      }
      ok := session.FlushEvent(e);
      if ok {
        metrics.RecordAuditEvent(ActionOf(e.fact));
      }
    }
  }

  /** What every service holds. */
  class Context {
    const session: Session
    const metrics: MetricsService
    const audit: AuditService

    constructor (session: Session, metrics: MetricsService, audit: AuditService)
      requires audit.session == session && audit.metrics == metrics
      ensures this.session == session && this.metrics == metrics && this.audit == audit
    {
      this.session, this.metrics, this.audit := session, metrics, audit;
    }

    /** Nothing is pending and the audit service writes to the same session. */
    ghost predicate Ready()
      reads session
    {
      audit.session == session && audit.metrics == metrics && session.Clean() && KeepsPlain(audit.casing)
    }

    function Current(): State
      reads session, metrics
    {
      State(session.committed, metrics.Counters())
    }

    /** How every workflow ends once its rows are flushed: the event joins the transaction, which
        commits, or whatever failed rolls it back. */
    method Conclude(flushed: Flushed, e: AuditEvent) returns (ok: bool)
      requires audit.session == session && audit.metrics == metrics && KeepsPlain(audit.casing)
      modifies session, metrics`auditEvents
      ensures Ready()
      ensures ok == (flushed.Done? && !FailsBy(old(session.fault), 1))
      ensures session.committed == if ok then Record(old(session.working), e) else old(session.committed)
      ensures session.fault == if ok then After(old(session.fault), 2) else session.fault
      ensures metrics.Counters()
              == if flushed.Done? && !FailsBy(old(session.fault), 0) then CountAudit(old(metrics.Counters()), e)
                 else old(metrics.Counters())
    {
      ok := flushed.Done?;
      if ok {
        ok := audit.RecordEvent(e);
      }
      if ok {
        ok := session.Commit();
      }
      if !ok {
        session.Rollback();
      }
    }
  }

  /** Members and their roles. */
  class MembershipService {
    const context: Context
    const session: Session

    constructor (context: Context)
      ensures this.context == context && session == context.session
    {
      this.context, session := context, context.session;
    }

    ghost predicate Ready()
      reads session
    {
      session == context.session && context.Ready()
    }

    method AddMember(now: Time, actor: UserId, org: OrgId, target: UserId, role: Role, membership: nat)
      returns (response: Response)
      requires Ready()
      modifies session, context.metrics
      ensures Ready()
      ensures (context.Current(), response)
              == Finish(old(context.Current()),
                        DecideAddMember(old(session.committed), now, actor, org, target, role, membership),
                        old(session.fault))
    {
      hide TenantAccess, MembershipClashes, Apply, Record, KeepsPlain, RoleManagementAllowed;
      var db := session.working;
      var access := TenantAccess(db, actor, org, ManageMembers);
      if access.Denied? {
        return Failed(access.error);
      }
      if !RoleManagementAllowed(access.role, None, Some(role)) {
        return Failed(PermissionDenied);
      }
      if target !in db.users {
        return Failed(TargetUserNotFound);
      }
      if (org, target) in db.members {
        return Failed(MembershipAlreadyExists);
      }
      var row := Membership(membership, role, now);
      var flushed := session.Flush(SetMember(org, target, row), MembershipClashes(db, org, target, membership));
      var ok := context.Conclude(
        flushed, AuditEvent(Some(org), Some(actor), None, MemberAdded(target, role), membership, now));
      if !ok {
        return if flushed.IntegrityError? then Failed(MembershipAlreadyExists) else ServerError;
      }
      return Ok(MemberBody(org, target, row));
    }

    /** Runs the last-owner helper only when an owner would be removed or downgraded. */
    method UpdateMemberRole(now: Time, actor: UserId, org: OrgId, target: UserId,
                            role: Role) returns (response: Response)
      requires Ready()
      modifies session, context.metrics
      ensures Ready()
      ensures (context.Current(), response)
              == Finish(old(context.Current()),
                        DecideUpdateMemberRole(old(session.committed), now, actor, org, target, role),
                        old(session.fault))
    {
      hide TenantAccess, OwnerProtected, Apply, Record, KeepsPlain, RoleManagementAllowed;
      var db := session.working;
      var access := TenantAccess(db, actor, org, ManageMembers);
      if access.Denied? {
        return Failed(access.error);
      }
      if (org, target) !in db.members {
        return Failed(MembershipNotFound);
      }
      var row := db.members[(org, target)];
      if !RoleManagementAllowed(access.role, Some(row.role), Some(role)) {
        return Failed(PermissionDenied);
      }
      if OwnerProtected(db, org, target, row.role, Some(role)) {
        return Failed(LastOwnerProtection);
      }
      if target !in db.users {
        return Failed(TargetUserNotFound);
      }
      var updated := row.(role := role);
      var flushed := session.Flush(SetMember(org, target, updated), false);
      var ok := context.Conclude(
        flushed, AuditEvent(Some(org), Some(actor), None, MemberRoleChanged(target, row.role, role), row.id, now));
      if !ok {
        return ServerError;
      }
      return Ok(MemberBody(org, target, updated));
    }

    method RemoveMember(now: Time, actor: UserId, org: OrgId, target: UserId) returns (response: Response)
      requires Ready()
      modifies session, context.metrics
      ensures Ready()
      ensures (context.Current(), response)
              == Finish(old(context.Current()),
                        DecideRemoveMember(old(session.committed), now, actor, org, target),
                        old(session.fault))
    {
      hide TenantAccess, OwnerProtected, Apply, Record, KeepsPlain, RoleManagementAllowed;
      var db := session.working;
      var access := TenantAccess(db, actor, org, ManageMembers);
      if access.Denied? {
        return Failed(access.error);
      }
      if (org, target) !in db.members {
        return Failed(MembershipNotFound);
      }
      var row := db.members[(org, target)];
      if !RoleManagementAllowed(access.role, Some(row.role), None) {
        return Failed(PermissionDenied);
      }
      if OwnerProtected(db, org, target, row.role, None) {
        return Failed(LastOwnerProtection);
      }
      var flushed := session.Flush(DropMember(org, target), false);
      var ok := context.Conclude(
        flushed, AuditEvent(Some(org), Some(actor), None, MemberRemoved(target, row.role), row.id, now));
      if !ok {
        return ServerError;
      }
      return Ok(NoContent);
    }
  }

  /** Projects, for users and for API keys. */
  class ProjectService {
    const context: Context
    const session: Session

    constructor (context: Context)
      ensures this.context == context && session == context.session
    {
      this.context, session := context, context.session;
    }

    ghost predicate Ready()
      reads session
    {
      session == context.session && context.Ready()
    }

    method CreateProject(now: Time, p: Principal, org: OrgId, project: ProjectId, name: string,
                         description: Option<string>,
                         status: ProjectStatus)
      returns (response: Response)
      requires Ready()
      modifies session, context.metrics
      ensures Ready()
      ensures (context.Current(), response)
              == Finish(old(context.Current()),
                        DecideCreateProject(old(session.committed), now, p, org, project, name, description, status),
                        old(session.fault))
      ensures response.Ok? ==> session.fault == After(old(session.fault), 3)
    {
      hide ProjectAccess, Apply, Record, KeepsPlain;
      var db := session.working;
      var denied := ProjectAccess(db, p, org, WriteProjects);
      if denied.Some? {
        return Failed(denied.value);
      }
      var actorUser, actorKey := ActorUser(p), ActorKey(p);
      hide ActorUser, ActorKey;
      var row := Project(org, name, status, description, actorUser, actorUser, now, None);
      var flushed := session.Flush(SetProject(project, row), project in db.projects);
      var ok := context.Conclude(
        flushed, AuditEvent(Some(org), actorUser, actorKey, ProjectCreated(name, status), project, now));
      if !ok {
        return ServerError;
      }
      context.metrics.RecordProjectCreated();
      return Ok(ProjectBody(project, row));
    }

    /** Sets the fields that were given, one after the other. */
    method SetFields(project: Project, p: Principal, name: Option<string>, description: Option<Option<string>>,
                     status: Option<ProjectStatus>)
      returns (row: Project)
      ensures row == EditedProject(project, p, name, description, status)
    {
      row := project;
      if name.Some? {
        row := row.(name := name.value);
      }
      if description.Some? {
        row := row.(description := description.value);
      }
      if status.Some? {
        row := row.(status := status.value);
      }
      if ActorUser(p).Some? {
        row := row.(updatedBy := ActorUser(p));
      }
    }

    method UpdateProject(now: Time, p: Principal, org: OrgId, project: ProjectId, name: Option<string>,
                         description: Option<Option<string>>, status: Option<ProjectStatus>)
      returns (response: Response)
      requires Ready()
      modifies session, context.metrics
      ensures Ready()
      ensures (context.Current(), response)
              == Finish(old(context.Current()),
                        DecideUpdateProject(old(session.committed), now, p, org, project, name, description, status),
                        old(session.fault))
    {
      hide ProjectAccess, ActorUser, ActorKey, Apply, Record, KeepsPlain, ProjectChanges, EditedProject;
      var db := session.working;
      var denied := ProjectAccess(db, p, org, WriteProjects);
      if denied.Some? {
        return Failed(denied.value);
      }
      if !LiveProject(db, org, project) {
        return Failed(ProjectNotFound);
      }
      var row := SetFields(db.projects[project], p, name, description, status);
      var changed := ProjectChanges(name.Some?, description.Some?, status.Some?);
      var flushed := session.Flush(SetProject(project, row), false);
      var ok := context.Conclude(
        flushed, AuditEvent(Some(org), ActorUser(p), ActorKey(p), ProjectUpdated(changed), project, now));
      if !ok {
        return ServerError;
      }
      return Ok(ProjectBody(project, row));
    }

    method DeleteProject(now: Time, p: Principal, org: OrgId, project: ProjectId) returns (response: Response)
      requires Ready()
      modifies session, context.metrics
      ensures Ready()
      ensures (context.Current(), response)
              == Finish(old(context.Current()),
                        DecideDeleteProject(old(session.committed), now, p, org, project),
                        old(session.fault))
    {
      hide ProjectAccess, Apply, Record, KeepsPlain;
      var db := session.working;
      var denied := ProjectAccess(db, p, org, WriteProjects);
      if denied.Some? {
        return Failed(denied.value);
      }
      if !LiveProject(db, org, project) {
        return Failed(ProjectNotFound);
      }
      var name := db.projects[project].name;
      var row := db.projects[project].(deletedAt := Some(now));
      if ActorUser(p).Some? {
        row := row.(updatedBy := ActorUser(p));
      }
      var flushed := session.Flush(SetProject(project, row), false);
      var ok := context.Conclude(
        flushed, AuditEvent(Some(org), ActorUser(p), ActorKey(p), ProjectDeleted(name), project, now));
      if !ok {
        return ServerError;
      }
      return Ok(NoContent);
    }
  }

  /** API keys: created by a member, revoked once. */
  class ApiKeyService {
    const context: Context
    const session: Session

    constructor (context: Context)
      ensures this.context == context && session == context.session
    {
      this.context, session := context, context.session;
    }

    ghost predicate Ready()
      reads session
    {
      session == context.session && context.Ready()
    }

    method CreateApiKey(now: Time, actor: UserId, org: OrgId, key: KeyId, name: string, prefix: string, digest: string)
      returns (response: Response)
      requires Ready()
      modifies session, context.metrics
      ensures Ready()
      ensures (context.Current(), response)
              == Finish(old(context.Current()),
                        DecideCreateApiKey(old(session.committed), now, actor, org, key, name, prefix, digest),
                        old(session.fault))
      ensures response.Ok? ==> session.fault == After(old(session.fault), 3)
    {
      hide TenantAccess, KeyClashes, Apply, Record, KeepsPlain;
      var db := session.working;
      var access := TenantAccess(db, actor, org, ManageApiKeys);
      if access.Denied? {
        return Failed(access.error);
      }
      var row := ApiKey(org, name, prefix, digest, actor, now, None, None);
      var flushed := session.Flush(NewKey(key, row), KeyClashes(db, key, digest));
      var ok := context.Conclude(
        flushed, AuditEvent(Some(org), Some(actor), None, ApiKeyCreated(name, prefix), key, now));
      if !ok {
        return ServerError;
      }
      context.metrics.RecordApiKeyCreated();
      return Ok(KeyBody(key, row));
    }

    /** A key that is revoked already is answered with its first revocation and nothing is written. */
    method RevokeApiKey(now: Time, actor: UserId, org: OrgId, key: KeyId) returns (response: Response)
      requires Ready()
      modifies session, context.metrics
      ensures Ready()
      ensures (context.Current(), response)
              == Finish(old(context.Current()),
                        DecideRevokeApiKey(old(session.committed), now, actor, org, key),
                        old(session.fault))
    {
      hide TenantAccess, KeepsPlain;
      var db := session.working;
      var access := TenantAccess(db, actor, org, ManageApiKeys);
      if access.Denied? {
        return Failed(access.error);
      }
      if !(key in db.keys && db.keys[key].org == org) {
        return Failed(ApiKeyNotFound);
      }
      var row := db.keys[key];
      if row.revokedAt.None? {
        var flushed := session.Flush(RevokeKey(key, now), false);
        var ok := context.Conclude(
          flushed, AuditEvent(Some(org), Some(actor), None, ApiKeyRevoked(row.name, row.prefix), key, now));
        if !ok {
          return ServerError;
        }
        context.metrics.RecordApiKeyRevoked();
        row := session.working.keys[key];
      }
      if row.revokedAt.None? {
        return ServerError;
      }
      return Ok(RevokedBody(key, row.org, row.revokedAt.value));
    }
  }

  lemma OrganisationWithOwner(db: Db, o: OrgId, tenant: Organisation, u: UserId, m: Membership)
    ensures Apply(Apply(db, SetOrganisation(o, tenant)), SetMember(o, u, m))
            == Apply(db, NewOrganisation(o, tenant, u, m))
  {
  }

  lemma MembersHaveTenants(db: Db, u: UserId, o: OrgId, needed: Permission)
    ensures TenantAccess(db, u, o, needed).Granted? ==> o in db.organisations
  {
  }

  /** Organisations, with the creator's membership as owner. */
  class OrganisationService {
    const context: Context
    const session: Session
    const env: Env

    constructor (context: Context, env: Env)
      ensures this.context == context && session == context.session && this.env == env
    {
      this.context, session, this.env := context, context.session, env;
    }

    ghost predicate Ready()
      reads session
    {
      session == context.session && context.Ready()
    }

    /** The rows of the organisation and of its first owner, one flush each. */
    method InsertWithOwner(org: OrgId, tenant: Organisation, actor: UserId, row: Membership) returns (flushed: Flushed)
      modifies session`working, session`fault
      ensures flushed == if FailsBy(old(session.fault), 0) then Broken
                         else if org in old(session.working).organisations then IntegrityError
                         else if FailsBy(old(session.fault), 1) then Broken
                         else if MembershipClashes(old(session.working), org, actor, row.id) then IntegrityError
                         else Done
      ensures flushed.Done? ==>
                && session.working == Apply(old(session.working), NewOrganisation(org, tenant, actor, row))
                && session.fault == After(old(session.fault), 2)
    {
      var db := session.working;
      OrganisationWithOwner(db, org, tenant, actor, row);
      flushed := session.Flush(SetOrganisation(org, tenant), org in db.organisations);
      if flushed.Done? {
        flushed := session.Flush(SetMember(org, actor, row), MembershipClashes(db, org, actor, row.id));
      }
    }

    method CreateOrganisation(now: Time, actor: UserId, org: OrgId, membership: nat, name: string, slug: Option<string>)
      returns (response: Response)
      requires Ready()
      modifies session, context.metrics
      ensures Ready()
      ensures (context.Current(), response)
              == Finish(old(context.Current()),
                        DecideCreateOrganisation(env, old(session.committed), now, actor, org, membership, name, slug),
                        old(session.fault))
      ensures response.Ok? ==> session.fault == After(old(session.fault), 4)
    {
      hide Slugs.Normalise, Slugs.FromName, SlugTaken, MembershipClashes, KeepsPlain, Apply, Record;
      var db := session.working;
      var requested := if slug.Some? then Slugs.Normalise(env.casing, slug.value) else Slugs.FromName(env.casing, name);
      if SlugTaken(db, requested) {
        return Failed(SlugAlreadyExists);
      }
      var tenant, row := Organisation(name, requested), Membership(membership, Owner, now);
      var flushed := InsertWithOwner(org, tenant, actor, row);
      var ok := context.Conclude(flushed, AuditEvent(Some(org), Some(actor), None, OrganisationCreated, org, now));
      if !ok {
        return if flushed.IntegrityError? then Failed(SlugAlreadyExists) else ServerError;
      }
      context.metrics.RecordOrganisationCreated();
      return Ok(OrganisationBody(org, tenant));
    }

    /** Sets the fields that were given. */
    method SetFields(tenant: Organisation, name: Option<string>, slug: Option<string>) returns (row: Organisation)
      ensures row == EditedOrganisation(tenant, name, slug)
    {
      row := tenant;
      if name.Some? {
        row := row.(name := name.value);
      }
      if slug.Some? {
        row := row.(slug := slug.value);
      }
    }

    method UpdateOrganisation(now: Time, actor: UserId, org: OrgId, name: Option<string>, slug: Option<string>)
      returns (response: Response)
      requires Ready()
      modifies session, context.metrics
      ensures Ready()
      ensures (context.Current(), response)
              == Finish(old(context.Current()),
                        DecideUpdateOrganisation(env, old(session.committed), now, actor, org, name, slug),
                        old(session.fault))
    {
      hide TenantAccess, SlugTaken, Slugs.Normalise, ChangedFields, EditedOrganisation, Apply, Record, KeepsPlain;
      var db := session.working;
      MembersHaveTenants(db, actor, org, Permission.UpdateOrganisation);
      var access := TenantAccess(db, actor, org, Permission.UpdateOrganisation);
      if access.Denied? {
        return Failed(access.error);
      }
      var tenant := db.organisations[org];
      var requested := if slug.Some? then Some(Slugs.Normalise(env.casing, slug.value)) else None;
      if requested.Some? && requested.value != tenant.slug && SlugTaken(db, requested.value) {
        return Failed(SlugAlreadyExists);
      }
      var changed := ChangedFields(name.Some?, requested.Some?);
      tenant := SetFields(tenant, name, requested);
      var flushed := session.Flush(SetOrganisation(org, tenant), false);
      var ok := context.Conclude(
        flushed, AuditEvent(Some(org), Some(actor), None, OrganisationUpdated(changed), org, now));
      if !ok {
        return ServerError;
      }
      return Ok(OrganisationBody(org, tenant));
    }
  }

  /** Registration and login. */
  class AuthService {
    const context: Context
    const session: Session

    constructor (context: Context)
      ensures this.context == context && session == context.session
    {
      this.context, session := context, context.session;
    }

    ghost predicate Ready()
      reads session
    {
      session == context.session && context.Ready()
    }

    /** `hashed` says whether hashing the password worked. A taken e-mail and a failing hash count as
        failed attempts; a flush or commit that breaks counts as neither. */
    method RegisterUser(now: Time, user: UserId, email: string, hashed: bool) returns (response: Response)
      requires Ready()
      modifies session, context.metrics
      ensures Ready()
      ensures hashed || EmailTaken(old(session.committed), email) ==>
                (context.Current(), response)
                == Finish(old(context.Current()), DecideRegister(old(session.committed), now, user, email),
                          old(session.fault))
      ensures !hashed && !EmailTaken(old(session.committed), email) ==>
                context.Current() == old(context.Current()) && response == ServerError
      ensures context.metrics.registrations == old(context.metrics.registrations) + if response.Ok? then 1 else 0
      ensures context.metrics.failedRegistrations
              == old(context.metrics.failedRegistrations)
                 + if response.Failed? || (!hashed && !EmailTaken(old(session.committed), email)) then 1 else 0
    {
      hide EmailTaken, Apply, Record, KeepsPlain;
      var db := session.working;
      if EmailTaken(db, email) {
        context.metrics.RecordRegistration(false);
        return Failed(EmailAlreadyRegistered);
      }
      if !hashed {
        context.metrics.RecordRegistration(false);
        return ServerError;
      }
      var flushed := session.Flush(NewUser(user, User(email, true)), user in db.users);
      var ok := context.Conclude(flushed, AuditEvent(None, Some(user), None, UserRegistered, user, now));
      if ok {
        context.metrics.RecordRegistration(true);
        return Ok(UserBody(user));
      }
      if flushed.IntegrityError? {
        context.metrics.RecordRegistration(false);
        return Failed(EmailAlreadyRegistered);
      }
      return ServerError;
    }

    /** Unknown, inactive and wrong-password attempts count as failed; a flush or commit that breaks
        counts as neither. */
    method LoginUser(now: Time, email: string, passwordMatches: bool) returns (response: Response)
      requires Ready() && Ledger.UniqueEmails(session.committed)
      modifies session, context.metrics
      ensures Ready()
      ensures (context.Current(), response)
              == Finish(old(context.Current()),
                        DecideLogin(old(session.committed), now, email, passwordMatches),
                        old(session.fault))
      ensures context.metrics.logins == old(context.metrics.logins) + if response.Ok? then 1 else 0
      ensures context.metrics.failedLogins == old(context.metrics.failedLogins) + if response.Failed? then 1 else 0
    {
      hide KeepsPlain, Record;
      var db := session.working;
      if u :| u in db.users && HasEmail(db, email, u) {
        assert UserFor(db, email) == Some(u);
        hide Ledger.UniqueEmails, HasEmail;
        if !db.users[u].active || !passwordMatches {
          context.metrics.RecordLogin(false);
          return Failed(InvalidCredentials);
        }
        var ok := context.Conclude(Done, AuditEvent(None, Some(u), None, UserLoggedIn, u, now));
        if ok {
          context.metrics.RecordLogin(true);
          return Ok(TokenBody(u));
        }
        return ServerError;
      }
      context.metrics.RecordLogin(false);
      return Failed(InvalidCredentials);
    }
  }

  /** How a project endpoint resolves its credential. */
  datatype Resolution = Resolved(principal: Principal) | Unknown | Failing

  class ApiKeyAuthenticationService {
    const session: Session

    constructor (session: Session)
      ensures this.session == session
    {
      this.session := session;
    }

    /** A user token first, then an active key, whose use is stamped and committed at once. */
    method ResolveProjectPrincipal(now: Time, bearer: Bearer) returns (resolution: Resolution)
      requires session.Clean() && Ledger.UniqueDigests(session.committed)
      modifies session
      ensures session.Clean()
      ensures var db, key := old(session.committed), KeyFor(old(session.committed), bearer.digest);
              if ActiveUser(db, bearer).Some? then
                && resolution == Resolved(UserPrincipal(ActiveUser(db, bearer).value))
                && session.committed == db && session.fault == old(session.fault)
              else if key.None? then
                resolution == Unknown && session.committed == db && session.fault == old(session.fault)
              else if FailsBy(old(session.fault), 1) then
                resolution == Failing && session.committed == db
              else
                && resolution == Resolved(KeyPrincipal(key.value, db.keys[key.value].org))
                && session.committed == Apply(db, StampKey(key.value, now))
                && session.fault == After(old(session.fault), 2)
    {
      var db := session.working;
      var user := ActiveUser(db, bearer);
      if user.Some? {
        return Resolved(UserPrincipal(user.value));
      }
      if k :| k in db.keys && ActiveKey(db, bearer.digest, k) {
        assert KeyFor(db, bearer.digest) == Some(k);
        var flushed := session.Flush(StampKey(k, now), false);
        var ok := flushed.Done?;
        if ok {
          ok := session.Commit();
        }
        if !ok {
          session.Rollback();
          return Failing;
        }
        return Resolved(KeyPrincipal(k, db.keys[k].org));
      }
      return Unknown;
    }
  }
}
