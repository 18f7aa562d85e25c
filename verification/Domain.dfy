/** Identifiers, roles, permissions and the vocabulary of the audit log. */
module Domain {

  type UserId = nat
  type OrgId = nat
  type ProjectId = nat
  type KeyId = nat
  type Time = nat

  datatype Option<+T> = None | Some(value: T)

  datatype Role = Owner | Admin | Member | Viewer

  datatype Permission =
    | ReadOrganisation
    | UpdateOrganisation
    | ManageOrganisation
    | ManageMembers
    | ManageApiKeys
    | ReadProjects
    | WriteProjects
    | ReadAuditEvents

  function PermissionsForRole(role: Role): set<Permission> {
    match role
    case Owner => {ReadOrganisation, UpdateOrganisation, ManageOrganisation, ManageMembers, ManageApiKeys,
                   ReadProjects, WriteProjects, ReadAuditEvents}
    case Admin => {ReadOrganisation, UpdateOrganisation, ManageMembers, ManageApiKeys, ReadProjects,
                   WriteProjects, ReadAuditEvents}
    case Member => {ReadOrganisation, ReadProjects, WriteProjects}
    case Viewer => {ReadOrganisation, ReadProjects}
  }

  function RoleText(role: Role): string {
    match role
    case Owner => "owner"
    case Admin => "admin"
    case Member => "member"
    case Viewer => "viewer"
  }

  datatype ProjectStatus = Active | Archived

  function StatusText(status: ProjectStatus): string {
    match status
    case Active => "active"
    case Archived => "archived"
  }

  /** The label an audit counter is incremented under. */
  datatype Action =
    | UserRegisteredAction
    | UserLoggedInAction
    | OrganisationCreatedAction
    | OrganisationUpdatedAction
    | MemberAddedAction
    | MemberRoleChangedAction
    | MemberRemovedAction
    | ProjectCreatedAction
    | ProjectUpdatedAction
    | ProjectDeletedAction
    | ApiKeyCreatedAction
    | ApiKeyRevokedAction

  /** The action of an event together with the metadata the service records with it. */
  datatype Fact =
    | UserRegistered
    | UserLoggedIn
    | OrganisationCreated
    | OrganisationUpdated(changedFields: seq<string>)
    | MemberAdded(user: UserId, role: Role)
    | MemberRoleChanged(user: UserId, oldRole: Role, newRole: Role)
    | MemberRemoved(user: UserId, role: Role)
    | ProjectCreated(name: string, status: ProjectStatus)
    | ProjectUpdated(changedFields: seq<string>)
    | ProjectDeleted(name: string)
    | ApiKeyCreated(name: string, prefix: string)
    | ApiKeyRevoked(name: string, prefix: string)

  function ActionOf(fact: Fact): Action {
    match fact
    case UserRegistered => UserRegisteredAction
    case UserLoggedIn => UserLoggedInAction
    case OrganisationCreated => OrganisationCreatedAction
    case OrganisationUpdated(_) => OrganisationUpdatedAction
    case MemberAdded(_, _) => MemberAddedAction
    case MemberRoleChanged(_, _, _) => MemberRoleChangedAction
    case MemberRemoved(_, _) => MemberRemovedAction
    case ProjectCreated(_, _) => ProjectCreatedAction
    case ProjectUpdated(_) => ProjectUpdatedAction
    case ProjectDeleted(_) => ProjectDeletedAction
    case ApiKeyCreated(_, _) => ApiKeyCreatedAction
    case ApiKeyRevoked(_, _) => ApiKeyRevokedAction
  }

  /** One row of the audit log. `target` is the id of the row the fact is about. */
  datatype AuditEvent = AuditEvent(
    org: Option<OrgId>,
    actorUser: Option<UserId>,
    actorKey: Option<KeyId>,
    fact: Fact,
    target: nat,
    at: Time)

  /** Who a bearer credential resolved to. A key carries the organisation it belongs to. */
  datatype Principal = UserPrincipal(user: UserId) | KeyPrincipal(key: KeyId, org: OrgId)

  function ActorUser(p: Principal): Option<UserId> {
    if p.UserPrincipal? then Some(p.user) else None
  }

  function ActorKey(p: Principal): Option<KeyId> {
    if p.KeyPrincipal? then Some(p.key) else None
  }

  datatype Error =
    | Unauthenticated
    | InvalidCredentials
    | EmailAlreadyRegistered
    | OrganisationNotFound
    | TenantAccessDenied
    | PermissionDenied
    | LastOwnerProtection
    | MembershipAlreadyExists
    | MembershipNotFound
    | TargetUserNotFound
    | SlugAlreadyExists
    | ProjectNotFound
    | ApiKeyNotFound
}
