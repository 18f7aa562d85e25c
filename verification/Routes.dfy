/** The idempotency service and the three creation routes around it, each run from start to end. */
module Routes {
  import opened Domain
  import opened Store
  import opened Text
  import opened Workflows
  import opened Services
  import opened Idempotency
  import Json
  import Secrets

  function ScopeOf(upper: string -> string, key: Option<string>, p: Principal, verb: string, path: string,
                   org: Option<OrgId>): Option<Scope>
  {
    if key.None? then None
    else if p.UserPrincipal? then Some(Scope(UserType, p.user, org, key.value, upper(verb), path))
    else Some(Scope(ApiKeyType, p.key, org, key.value, upper(verb), path))
  }

  /** What a creation request says that its record is filed under. */
  datatype Keyed = Keyed(key: Option<string>, principal: Principal, org: Option<OrgId>, verb: string, path: string)

  /** The same key from the same principal for the same endpoint. */
  predicate SameRequest(upper: string -> string, a: Keyed, b: Keyed) {
    && a.key == b.key
    && a.principal.UserPrincipal? == b.principal.UserPrincipal?
    && (if a.principal.UserPrincipal? then a.principal.user == b.principal.user
        else a.principal.key == b.principal.key)
    && a.org == b.org
    && upper(a.verb) == upper(b.verb)
    && a.path == b.path
  }

  function ScopeOfKeyed(upper: string -> string, a: Keyed): Option<Scope> {
    ScopeOf(upper, a.key, a.principal, a.verb, a.path, a.org)
  }

  /** Two requests with a key share a record exactly when all six columns agree, and a request has no
      record exactly when it has no key. */
  lemma ScopesTellApart(upper: string -> string, a: Keyed, b: Keyed)
    ensures ScopeOfKeyed(upper, a) == None <==> a.key == None
    ensures a.key.Some? && b.key.Some? ==>
              (ScopeOfKeyed(upper, a) == ScopeOfKeyed(upper, b) <==> SameRequest(upper, a, b))
  {
  }

  class IdempotencyService {
    const session: Session
    const metrics: MetricsService
    const host: Host
    const upper: string -> string
    var records: Records

    constructor (session: Session, metrics: MetricsService, host: Host, upper: string -> string)
      ensures this.session == session && this.metrics == metrics && this.host == host && this.upper == upper
      ensures records == map[]
    {
      this.session, this.metrics, this.host, this.upper, records := session, metrics, host, upper, map[];
    }

    /** Looks the key up and counts a replay or a conflict; writes nothing. */
    method StartRequest(key: Option<string>, p: Principal, verb: string, path: string, body: Json.Json,
                        org: Option<OrgId>)
      returns (scope: Option<Scope>, started: Started)
      modifies metrics`replays, metrics`conflicts
      ensures scope == ScopeOf(upper, key, p, verb, path, org)
      ensures started == Start(records, scope, Json.RequestHash(host.digest, body))
      ensures metrics.replays == old(metrics.replays) + if started.Replay? then 1 else 0
      ensures metrics.conflicts == old(metrics.conflicts) + if started.Conflict? then 1 else 0
    {
      scope := ScopeOf(upper, key, p, verb, path, org);
      if scope.None? {
        return scope, NoKey;
      }
      var hash := Json.RequestHash(host.digest, body);
      if scope.value !in records {
        return scope, Proceed(scope.value);
      }
      var record := records[scope.value];
      if record.hash != hash {
        metrics.RecordIdempotencyConflict();
        return scope, Conflict;
      }
      metrics.RecordIdempotencyReplay();
      return scope, Replay(record);
    }

    /** Stores the snapshot in a transaction of its own. */
    method StoreResponse(scope: Option<Scope>, hash: string, status: nat, snapshot: Secrets.Value) returns (ok: bool)
      requires session.Clean()
      modifies session, this`records
      ensures session.Clean() && session.committed == old(session.committed)
      ensures ok == (scope.None? || !StoreFails(host.casing, old(records), scope.value, snapshot, old(session.fault)))
      ensures records == if scope.Some? && ok then old(records)[scope.value := Record(hash, status, snapshot)]
              else old(records)
    {
      if scope.None? {
        return true;
      }
      if Secrets.FindSecretField(host.casing, snapshot).Some? {
        return false;
      }
      var flushed := session.FlushElsewhere(scope.value in records);
      ok := flushed.Done?;
      if ok {
        ok := session.Commit();
      }
      if ok {
        records := records[scope.value := Record(hash, status, snapshot)];
      } else {
        session.Rollback();
      }
    }
  }

  /** What a creation route answers. */
  datatype Answer =
    | Fresh(response: Secrets.Value)
    | FromRecord(record: Record)
    | BodyConflict
    | Error(failure: Response)

  /** Permission first, then the look-up, then the creation `made`, then the snapshot. */
  function Expected(h: Host, records: Records, call: Call, denied: Option<Domain.Error>, made: Response,
                    render: Body -> Secrets.Value, fault: Option<nat>): Answer
  {
    if denied.Some? then Error(Failed(denied.value))
    else
      match Start(records, call.scope, Hash(h, call))
      case Replay(record) => FromRecord(record)
      case Conflict => BodyConflict
      case _ =>
        if !made.Ok? then Error(made)
        else if call.scope.Some? && StoreFails(h.casing, records, call.scope.value,
                                               Snapshot(call.route, render(made.body)), fault)
        then Error(ServerError)
        else Fresh(render(made.body))
  }

  /** The route gets as far as its creation. */
  predicate Attempts(h: Host, records: Records, call: Call, denied: Option<Domain.Error>) {
    var started := Start(records, call.scope, Hash(h, call));
    denied.None? && (started.NoKey? || started.Proceed?)
  }

  function Made(made: Response, render: Body -> Secrets.Value): Option<Secrets.Value> {
    if made.Ok? then Some(render(made.body)) else None
  }

  /** The records after the route. */
  function Stored(h: Host, records: Records, call: Call, denied: Option<Domain.Error>, made: Response,
                  render: Body -> Secrets.Value, fault: Option<nat>): Records
  {
    Served(h, records, call, denied.None?, Made(made, render), fault).1
  }

  /** The answer a phase of the machine gives its client. */
  predicate Shows(answer: Answer, phase: Phase) {
    match phase
    case Replied(response) => answer == Fresh(response)
    case Replayed(record) => answer == FromRecord(record)
    case Conflicted => answer == BodyConflict
    case Lost(_) => answer == Error(ServerError)
    case Refused => answer.Error?
    case _ => false
  }

  /** A route that runs from start to end is a run of the protocol: same answer, same records, same
      creations. */
  lemma RouteIsARun(h: Host, w: World, call: Call, denied: Option<Domain.Error>, made: Response,
                    render: Body -> Secrets.Value, fault: Option<nat>)
    ensures var v := Steps(h, w, Serving(|w.calls|, call, denied.None?, Made(made, render), fault));
            && |v.calls| == |w.calls| + 1
            && Shows(Expected(h, w.records, call, denied, made, render, fault), v.calls[|w.calls|].phase)
            && v.records == Stored(h, w.records, call, denied, made, render, fault)
            && v.created == w.created + if Attempts(h, w.records, call, denied) && made.Ok? then [call.scope] else []
  {
    hide Hash, Snapshot, StoreFails;
    ServedIsARun(h, w, call, denied.None?, Made(made, render), fault);
    hide Steps, Serving;
  }

  /** What one route leaves for the next: a request that differs in any column is answered as if the
      first had never been, and a repetition of an answered request gets the stored snapshot back when
      the bodies hash alike and a conflict otherwise. */
  lemma KeysDecide(h: Host, upper: string -> string, records: Records, a: Keyed, b: Keyed, first: Call, second: Call,
                   denied: Option<Domain.Error>, made: Response, render: Body -> Secrets.Value, fault: Option<nat>,
                   deniedNext: Option<Domain.Error>, madeNext: Response, renderNext: Body -> Secrets.Value,
                   faultNext: Option<nat>)
    requires first.scope == ScopeOfKeyed(upper, a) && second.scope == ScopeOfKeyed(upper, b)
    ensures var after := Stored(h, records, first, denied, made, render, fault);
            var next := Expected(h, after, second, deniedNext, madeNext, renderNext, faultNext);
            && (!SameRequest(upper, a, b) || b.key == None
                ==> next == Expected(h, records, second, deniedNext, madeNext, renderNext, faultNext))
            && (SameRequest(upper, a, b) && b.key.Some? && deniedNext == None
                && Expected(h, records, first, denied, made, render, fault).Fresh?
                ==> next == if Hash(h, first) == Hash(h, second)
                            then FromRecord(Record(Hash(h, first), 201, Snapshot(first.route, render(made.body))))
                            else BodyConflict)
  {
    hide ScopeOf, Hash, Snapshot, Secrets.FindSecretField, FailsBy;
    ScopesTellApart(upper, a, b);
    ScopesTellApart(upper, b, a);
    StoredUnderScope(h, records, first, denied, made, render, fault);
    hide ScopeOfKeyed, Stored;
  }

  /** What each route stores: the answer itself, except that the created key is left out of it. */
  lemma SnapshotsStored(response: Secrets.Value, shown: Secrets.Value, raw: Secrets.Value)
    requires response == Secrets.Mapping([Secrets.Entry(Secrets.Name("api_key"), shown),
                                          Secrets.Entry(Secrets.Name("raw_key"), raw)])
    ensures Snapshot(ApiKeyRoute, response)
            == Secrets.Mapping([Secrets.Entry(Secrets.Name("api_key"), shown), Secrets.ReplayNote()])
    ensures forall any :: Snapshot(OrganisationRoute, any) == any && Snapshot(ProjectRoute, any) == any
  {
    var kept := [Secrets.Entry(Secrets.Name("api_key"), shown)];
    assert kept + [Secrets.Entry(Secrets.Name("raw_key"), raw)] + [] == response.entries;
    assert kept + [] == kept;
    Secrets.ReplayBodyIs(kept, raw, []);
    hide Secrets.ReplayBody, Secrets.ReplayNote;
    assert kept + [] + [Secrets.ReplayNote()] == kept + [Secrets.ReplayNote()];
  }

  /** A route writes under its own scope at most, and that only with a fresh answer. */
  lemma StoredUnderScope(h: Host, records: Records, call: Call, denied: Option<Domain.Error>, made: Response,
                         render: Body -> Secrets.Value, fault: Option<nat>)
    ensures Stored(h, records, call, denied, made, render, fault)
            == if call.scope.Some? && Expected(h, records, call, denied, made, render, fault).Fresh?
               then records[call.scope.value := Record(Hash(h, call), 201, Snapshot(call.route, render(made.body)))]
               else records
  {
    hide Hash, Snapshot, StoreFails;
  }

  function Denial(access: Access): Option<Domain.Error> {
    if access.Denied? then Some(access.error) else None
  }

  /** `POST /orgs/{organisation_id}/projects`. */
  class ProjectRoutes {
    const projects: ProjectService
    const idempotency: IdempotencyService
    const render: Body -> Secrets.Value

    constructor (projects: ProjectService, idempotency: IdempotencyService, render: Body -> Secrets.Value)
      ensures this.projects == projects && this.idempotency == idempotency && this.render == render
    {
      this.projects, this.idempotency, this.render := projects, idempotency, render;
    }

    ghost predicate Ready()
      reads projects.session
    {
      && projects.Ready()
      && idempotency.session == projects.session
      && idempotency.metrics == projects.context.metrics
    }

    method CreateProject(key: Option<string>, verb: string, path: string, body: Json.Json, now: Time, p: Principal,
                         org: OrgId,
                         project: ProjectId, name: string, description: Option<string>, status: ProjectStatus)
      returns (answer: Answer)
      requires Ready()
      modifies projects.session, projects.context.metrics, idempotency`records
      ensures Ready()
      ensures var call := Call(ProjectRoute, ScopeOf(idempotency.upper, key, p, verb, path, Some(org)), body);
              var denied := if key.Some? then ProjectAccess(old(projects.session.committed), p, org, WriteProjects)
                  else None;
              var (after, made) := Finish(old(projects.context.Current()),
                                          DecideCreateProject(old(projects.session.committed), now, p, org, project,
                                                              name,
                                                              description, status),
                                          old(projects.session.fault));
              var left := After(old(projects.session.fault), 3);
              && answer == Expected(idempotency.host, old(idempotency.records), call, denied, made, render, left)
              && idempotency.records == Stored(idempotency.host, old(idempotency.records), call, denied, made, render,
                                               left)
              && projects.context.Current()
                 == if Attempts(idempotency.host, old(idempotency.records), call, denied) then after
                    else old(projects.context.Current())
    {
      hide DecideCreateProject, ProjectAccess, Finish, StoreFails, Snapshot, Json.RequestHash, ScopeOf;
      if key.Some? {
        var denied := ProjectAccess(projects.session.working, p, org, WriteProjects);
        if denied.Some? {
          return Error(Failed(denied.value));
        }
      }
      var scope, started := idempotency.StartRequest(key, p, verb, path, body, Some(org));
      if started.Conflict? {
        return BodyConflict;
      }
      if started.Replay? {
        return FromRecord(started.record);
      }
      var made := projects.CreateProject(now, p, org, project, name, description, status);
      if !made.Ok? {
        return Error(made);
      }
      var response := render(made.body);
      var stored := idempotency.StoreResponse(scope, Json.RequestHash(idempotency.host.digest, body), CREATED,
                                              Snapshot(ProjectRoute, response));
      return if stored then Fresh(response) else Error(ServerError);
    }
  }

  /** `POST /orgs/{organisation_id}/api-keys`. */
  class ApiKeyRoutes {
    const keys: ApiKeyService
    const idempotency: IdempotencyService
    const render: Body -> Secrets.Value

    constructor (keys: ApiKeyService, idempotency: IdempotencyService, render: Body -> Secrets.Value)
      ensures this.keys == keys && this.idempotency == idempotency && this.render == render
    {
      this.keys, this.idempotency, this.render := keys, idempotency, render;
    }

    ghost predicate Ready()
      reads keys.session
    {
      && keys.Ready()
      && idempotency.session == keys.session
      && idempotency.metrics == keys.context.metrics
    }

    method CreateApiKey(key: Option<string>, verb: string, path: string, body: Json.Json, now: Time, actor: UserId,
                        org: OrgId, id: KeyId, name: string, prefix: string, digest: string)
      returns (answer: Answer)
      requires Ready()
      modifies keys.session, keys.context.metrics, idempotency`records
      ensures Ready()
      ensures var call := Call(ApiKeyRoute,
                               ScopeOf(idempotency.upper, key, UserPrincipal(actor), verb, path, Some(org)), body);
              var denied := if key.None? then None
                            else Denial(TenantAccess(old(keys.session.committed), actor, org, ManageApiKeys));
              var (after, made) := Finish(old(keys.context.Current()),
                                          DecideCreateApiKey(old(keys.session.committed), now, actor, org, id, name,
                                                             prefix, digest),
                                          old(keys.session.fault));
              var left := After(old(keys.session.fault), 3);
              && answer == Expected(idempotency.host, old(idempotency.records), call, denied, made, render, left)
              && idempotency.records == Stored(idempotency.host, old(idempotency.records), call, denied, made, render,
                                               left)
              && keys.context.Current()
                 == if Attempts(idempotency.host, old(idempotency.records), call, denied) then after
                    else old(keys.context.Current())
    {
      hide DecideCreateApiKey, TenantAccess, Finish, StoreFails, Snapshot, Json.RequestHash, ScopeOf;
      if key.Some? {
        var denied := Denial(TenantAccess(keys.session.working, actor, org, ManageApiKeys));
        if denied.Some? {
          return Error(Failed(denied.value));
        }
      }
      var scope, started := idempotency.StartRequest(key, UserPrincipal(actor), verb, path, body, Some(org));
      if started.Conflict? {
        return BodyConflict;
      }
      if started.Replay? {
        return FromRecord(started.record);
      }
      var made := keys.CreateApiKey(now, actor, org, id, name, prefix, digest);
      if !made.Ok? {
        return Error(made);
      }
      var response := render(made.body);
      var stored := idempotency.StoreResponse(scope, Json.RequestHash(idempotency.host.digest, body), CREATED,
                                              Snapshot(ApiKeyRoute, response));
      return if stored then Fresh(response) else Error(ServerError);
    }
  }

  /** `POST /orgs`: no tenant to check, and a key without an organisation. */
  class OrganisationRoutes {
    const organisations: OrganisationService
    const idempotency: IdempotencyService
    const render: Body -> Secrets.Value

    constructor (organisations: OrganisationService, idempotency: IdempotencyService, render: Body -> Secrets.Value)
      ensures this.organisations == organisations && this.idempotency == idempotency && this.render == render
    {
      this.organisations, this.idempotency, this.render := organisations, idempotency, render;
    }

    ghost predicate Ready()
      reads organisations.session
    {
      && organisations.Ready()
      && idempotency.session == organisations.session
      && idempotency.metrics == organisations.context.metrics
    }

    method CreateOrganisation(key: Option<string>, verb: string, path: string, body: Json.Json, now: Time,
                              actor: UserId,
                              org: OrgId, membership: nat, name: string, slug: Option<string>)
      returns (answer: Answer)
      requires Ready()
      modifies organisations.session, organisations.context.metrics, idempotency`records
      ensures Ready()
      ensures var call := Call(OrganisationRoute,
                               ScopeOf(idempotency.upper, key, UserPrincipal(actor), verb, path, None), body);
              var denied := None;
              var (after, made) := Finish(old(organisations.context.Current()),
                                          DecideCreateOrganisation(organisations.env,
                                                                   old(organisations.session.committed),
                                                                   now, actor, org, membership, name, slug),
                                          old(organisations.session.fault));
              var left := After(old(organisations.session.fault), 4);
              && answer == Expected(idempotency.host, old(idempotency.records), call, denied, made, render, left)
              && idempotency.records == Stored(idempotency.host, old(idempotency.records), call, denied, made, render,
                                               left)
              && organisations.context.Current()
                 == if Attempts(idempotency.host, old(idempotency.records), call, denied) then after
                    else old(organisations.context.Current())
    {
      hide DecideCreateOrganisation, Finish, StoreFails, Snapshot, Json.RequestHash, ScopeOf;
      var scope, started := idempotency.StartRequest(key, UserPrincipal(actor), verb, path, body, None);
      if started.Conflict? {
        return BodyConflict;
      }
      if started.Replay? {
        return FromRecord(started.record);
      }
      var made := organisations.CreateOrganisation(now, actor, org, membership, name, slug);
      if !made.Ok? {
        return Error(made);
      }
      var response := render(made.body);
      var stored := idempotency.StoreResponse(scope, Json.RequestHash(idempotency.host.digest, body), CREATED,
                                              Snapshot(OrganisationRoute, response));
      return if stored then Fresh(response) else Error(ServerError);
    }
  }
}
