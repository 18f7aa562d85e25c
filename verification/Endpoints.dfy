/** Every endpoint that changes something: credential, then workflow. */
module Endpoints {
  import opened Domain
  import opened Store
  import opened Workflows
  import opened Services
  import Ledger

  predicate Changes(c: Command) {
    match c
    case GetOrganisation(_) => false
    case ListOrganisations(_) => false
    case ListMembers(_, _) => false
    case ListApiKeys(_, _) => false
    case ListAudit(_, _) => false
    case ListProjects(_, _, _) => false
    case GetProject(_, _) => false
    case _ => true
  }

  class Api {
    const context: Context
    const env: Env
    const accounts: AuthService
    const organisations: OrganisationService
    const members: MembershipService
    const keys: ApiKeyService
    const projects: ProjectService
    const authentication: ApiKeyAuthenticationService

    constructor (context: Context, env: Env)
      requires context.Ready()
      ensures this.context == context && this.env == env && Ready()
    {
      this.context, this.env := context, env;
      accounts := new AuthService(context);
      organisations := new OrganisationService(context, env);
      members := new MembershipService(context);
      keys := new ApiKeyService(context);
      projects := new ProjectService(context);
      authentication := new ApiKeyAuthenticationService(context.session);
    }

    ghost predicate Ready()
      reads context.session, accounts.session, organisations.session, members.session, keys.session, projects.session
    {
      && accounts.context == context && accounts.Ready()
      && organisations.context == context && organisations.env == env && organisations.Ready()
      && members.context == context && members.Ready()
      && keys.context == context && keys.Ready()
      && projects.context == context && projects.Ready()
      && authentication.session == context.session
    }

    method ServeUser(now: Time, actor: UserId, c: Command) returns (response: Response)
      requires Ready() && Changes(c) && !IsOpen(c) && !IsProjectCommand(c)
      modifies context.session, context.metrics
      ensures Ready()
      ensures (context.Current(), response)
              == Finish(old(context.Current()), DecideAsUser(env, old(context.session.committed), now, actor, c),
                        old(context.session.fault))
    {
      hide Finish, DecideCreateOrganisation, DecideUpdateOrganisation, DecideAddMember, DecideUpdateMemberRole,
        DecideRemoveMember, DecideCreateApiKey, DecideRevokeApiKey;
      match c
      case CreateOrganisation(o, m, name, slug) => response :=
          organisations.CreateOrganisation(now, actor, o, m, name, slug);
      case UpdateOrganisationCommand(o, name, slug) => response :=
          organisations.UpdateOrganisation(now, actor, o, name, slug);
      case AddMember(o, target, role, m) => response := members.AddMember(now, actor, o, target, role, m);
      case UpdateMemberRole(o, target, role) => response := members.UpdateMemberRole(now, actor, o, target, role);
      case RemoveMember(o, target) => response := members.RemoveMember(now, actor, o, target);
      case CreateApiKey(o, k, name, prefix, digest) =>
        response := keys.CreateApiKey(now, actor, o, k, name, prefix, digest);
      case RevokeApiKey(o, k) => response := keys.RevokeApiKey(now, actor, o, k);
    }

    method ServeProject(now: Time, p: Principal, c: Command) returns (response: Response)
      requires Ready() && Changes(c) && IsProjectCommand(c)
      modifies context.session, context.metrics
      ensures Ready()
      ensures (context.Current(), response)
              == Finish(old(context.Current()), DecideOnProjects(env, old(context.session.committed), now, p, c),
                        old(context.session.fault))
    {
      hide Finish, DecideCreateProject, DecideUpdateProject, DecideDeleteProject;
      match c
      case CreateProject(o, id, name, description, status) =>
        response := projects.CreateProject(now, p, o, id, name, description, status);
      case UpdateProject(o, id, name, description, status) =>
        response := projects.UpdateProject(now, p, o, id, name, description, status);
      case DeleteProject(o, id) => response := projects.DeleteProject(now, p, o, id);
    }

    /** The steps of the services, one after the other, are the request as the ledger sees it. */
    method Serve(bearer: Bearer, now: Time, c: Command) returns (response: Response)
      requires Ready() && Changes(c)
      requires Ledger.UniqueDigests(context.session.committed) && Ledger.UniqueEmails(context.session.committed)
      modifies context.session, context.metrics
      ensures Ready()
      ensures (context.Current(), response)
              == Handle(env, old(context.Current()), Request(bearer, now, old(context.session.fault), c))
    {
      hide Finish, Decide, DecideRegister, DecideLogin, ActiveUser, FailsBy, KeyFor, Apply, Ledger.UniqueDigests,
        Ledger.UniqueEmails;
      if c.RegisterUser? {
        response := accounts.RegisterUser(now, c.user, c.email, true);
      } else if c.LoginUser? {
        response := accounts.LoginUser(now, c.email, c.passwordMatches);
      } else if IsProjectCommand(c) {
        var resolution := authentication.ResolveProjectPrincipal(now, bearer);
        match resolution
        case Unknown => response := Failed(Unauthenticated);
        case Failing => response := ServerError;
        case Resolved(p) =>
          DecidesOnProjects(env, context.session.committed, now, p, c);
          response := ServeProject(now, p, c);
      } else {
        var user := ActiveUser(context.session.committed, bearer);
        if user.None? {
          return Failed(Unauthenticated);
        }
        DecidesAsUser(env, context.session.committed, now, user.value, c);
        response := ServeUser(now, user.value, c);
      }
    }
  }

  lemma DecidesOnProjects(env: Env, db: Db, now: Time, p: Principal, c: Command)
    requires IsProjectCommand(c)
    ensures Decide(env, db, now, p, c) == DecideOnProjects(env, db, now, p, c)
  {
  }

  lemma DecidesAsUser(env: Env, db: Db, now: Time, u: UserId, c: Command)
    requires !IsProjectCommand(c) && !IsOpen(c)
    ensures Decide(env, db, now, UserPrincipal(u), c) == DecideAsUser(env, db, now, u, c)
  {
  }
}
