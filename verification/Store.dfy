/** The tables and the changes workflows make to them.

    A membership row is keyed by its (organisation, user) pair: that is the table's unique
    constraint. Other rows are keyed by their primary key. */
module Store {
  import opened Domain

  datatype User = User(email: string, active: bool)
  datatype Organisation = Organisation(name: string, slug: string)
  datatype Membership = Membership(id: nat, role: Role, createdAt: Time)
  datatype Project = Project(
    org: OrgId,
    name: string,
    status: ProjectStatus,
    description: Option<string>,
    createdBy: Option<UserId>,
    updatedBy: Option<UserId>,
    createdAt: Time,
    deletedAt: Option<Time>)
  datatype ApiKey = ApiKey(
    org: OrgId,
    name: string,
    prefix: string,
    digest: string,
    createdBy: UserId,
    createdAt: Time,
    revokedAt: Option<Time>,
    lastUsedAt: Option<Time>)

  datatype Db = Db(
    users: map<UserId, User>,
    organisations: map<OrgId, Organisation>,
    members: map<(OrgId, UserId), Membership>,
    projects: map<ProjectId, Project>,
    keys: map<KeyId, ApiKey>,
    log: seq<AuditEvent>)

  const EMPTY := Db(map[], map[], map[], map[], map[], [])

  /** What one workflow does to the tables, apart from its audit event. */
  datatype Change =
    | NoChange
    | NewUser(user: UserId, account: User)
    | NewOrganisation(org: OrgId, tenant: Organisation, owner: UserId, membership: Membership)
    | SetOrganisation(org: OrgId, tenant: Organisation)
    | SetMember(org: OrgId, user: UserId, membership: Membership)
    | DropMember(org: OrgId, user: UserId)
    | SetProject(project: ProjectId, row: Project)
    | NewKey(key: KeyId, apiKey: ApiKey)
    | RevokeKey(key: KeyId, at: Time)
    | StampKey(key: KeyId, at: Time)

  function Apply(db: Db, c: Change): Db {
    match c
    case NoChange => db
    case NewUser(u, account) => db.(users := db.users[u := account])
    case NewOrganisation(o, tenant, u, m) =>
      db.(organisations := db.organisations[o := tenant], members := db.members[(o, u) := m])
    case SetOrganisation(o, tenant) => db.(organisations := db.organisations[o := tenant])
    case SetMember(o, u, m) => db.(members := db.members[(o, u) := m])
    case DropMember(o, u) => db.(members := db.members - {(o, u)})
    case SetProject(p, row) => db.(projects := db.projects[p := row])
    case NewKey(k, row) => db.(keys := db.keys[k := row])
    case RevokeKey(k, at) =>
      if k in db.keys then db.(keys := db.keys[k := db.keys[k].(revokedAt := Some(at))]) else db
    case StampKey(k, at) =>
      if k in db.keys then db.(keys := db.keys[k := db.keys[k].(lastUsedAt := Some(at))]) else db
  }

  function Record(db: Db, e: AuditEvent): Db {
    db.(log := db.log + [e])
  }

  /** Business counters and the audit counter, which is kept per action. */
  datatype Metrics = Metrics(
    organisationsCreated: nat,
    projectsCreated: nat,
    keysCreated: nat,
    keysRevoked: nat,
    audit: multiset<Action>)

  const NO_METRICS := Metrics(0, 0, 0, 0, multiset{})

  /** The audit counter moves when the event is flushed. */
  function CountAudit(m: Metrics, e: AuditEvent): Metrics {
    m.(audit := m.audit + multiset{ActionOf(e.fact)})
  }

  /** The business counters move after the commit. */
  function CountBusiness(m: Metrics, e: AuditEvent): Metrics {
    match e.fact
    case OrganisationCreated => m.(organisationsCreated := m.organisationsCreated + 1)
    case ProjectCreated(_, _) => m.(projectsCreated := m.projectsCreated + 1)
    case ApiKeyCreated(_, _) => m.(keysCreated := m.keysCreated + 1)
    case ApiKeyRevoked(_, _) => m.(keysRevoked := m.keysRevoked + 1)
    case _ => m
  }

  datatype State = State(db: Db, metrics: Metrics)

  const GENESIS := State(EMPTY, NO_METRICS)
}
