/** Tenants do not affect each other: deleting every request that names another organisation leaves
    what one organisation sees unchanged. */
module Isolation {
  import opened Domain
  import opened Store
  import opened Workflows
  import opened Ledger
  import Listings
  import Paging
  import Slugs
  import Text

  // ---- What an organisation sees ----

  predicate OwnsProject(projects: map<ProjectId, Project>, a: OrgId, p: ProjectId) {
    p in projects && projects[p].org == a
  }

  predicate OwnsKey(keys: map<KeyId, ApiKey>, a: OrgId, k: KeyId) {
    k in keys && keys[k].org == a
  }

  function Unstamped(key: ApiKey): ApiKey {
    key.(lastUsedAt := None)
  }

  ghost predicate SameTenant(s: map<OrgId, Organisation>, t: map<OrgId, Organisation>, a: OrgId) {
    a in s && a in t && s[a] == t[a]
  }

  ghost predicate SameMembers(s: map<(OrgId, UserId), Membership>, t: map<(OrgId, UserId), Membership>, a: OrgId) {
    && (forall u :: (a, u) in s <==> (a, u) in t)
    && (forall u :: (a, u) in s ==> s[(a, u)] == t[(a, u)])
  }

  ghost predicate SameProjects(s: map<ProjectId, Project>, t: map<ProjectId, Project>, a: OrgId) {
    && (forall p :: OwnsProject(s, a, p) <==> OwnsProject(t, a, p))
    && (forall p :: OwnsProject(s, a, p) ==> s[p] == t[p])
  }

  ghost predicate SameKeys(s: map<KeyId, ApiKey>, t: map<KeyId, ApiKey>, a: OrgId) {
    && (forall k :: OwnsKey(s, a, k) <==> OwnsKey(t, a, k))
    && (forall k :: OwnsKey(s, a, k) ==> Unstamped(s[k]) == Unstamped(t[k]))
  }

  /** The two stores hold the same of organisation `a`, the last use of its keys aside, and the same
      users. */
  ghost predicate SameSlice(s: Db, t: Db, a: OrgId) {
    && s.users == t.users
    && SameTenant(s.organisations, t.organisations, a)
    && SameMembers(s.members, t.members, a)
    && SameProjects(s.projects, t.projects, a)
    && SameKeys(s.keys, t.keys, a)
    && EventsOf(s.log, a) == EventsOf(t.log, a)
  }

  // ---- Fresh ids ----

  /** What the server draws at random: primary keys and key digests. */
  datatype Drawn =
    | OrganisationKey(org: OrgId)
    | MembershipKey(id: nat)
    | ProjectKey(project: ProjectId)
    | KeyKey(key: KeyId)
    | Digest(digest: string)

  function DrawnBy(c: Command): set<Drawn> {
    match c
    case CreateOrganisation(o, m, _, _) => {OrganisationKey(o), MembershipKey(m)}
    case AddMember(_, _, _, m) => {MembershipKey(m)}
    case CreateProject(_, p, _, _, _) => {ProjectKey(p)}
    case CreateApiKey(_, k, _, _, digest) => {KeyKey(k), Digest(digest)}
    case _ => {}
  }

  ghost predicate Within(db: Db, used: set<Drawn>) {
    && (forall m :: m in db.members ==> MembershipKey(db.members[m].id) in used)
    && (forall p :: p in db.projects ==> ProjectKey(p) in used)
    && (forall k :: k in db.keys ==> KeyKey(k) in used && Digest(db.keys[k].digest) in used)
  }

  function UsedBy(used: set<Drawn>, requests: seq<Request>): set<Drawn> {
    if requests == [] then used
    else UsedBy(used, requests[..|requests| - 1]) + DrawnBy(requests[|requests| - 1].command)
  }

  /** No request draws what is in use or was drawn before. */
  ghost predicate FreshRun(used: set<Drawn>, requests: seq<Request>) {
    requests != [] ==>
      var before := requests[..|requests| - 1];
      FreshRun(used, before) && DrawnBy(requests[|requests| - 1].command) !! UsedBy(used, before)
  }

  // ---- Requests of an organisation ----

  predicate Home(r: Request, a: OrgId) {
    Addressee(r.command) == Some(a)
  }

  /** Slugs are global: the user may update the organisation, but another organisation has the slug
      that is asked for. */
  predicate RefusesSlug(env: Env, db: Db, u: UserId, c: Command, a: OrgId) {
    && c.UpdateOrganisationCommand? && c.slug.Some?
    && TenantAccess(db, u, a, UpdateOrganisation).Granted?
    && var requested := Slugs.Normalise(env.casing, c.slug.value);
       requested != db.organisations[a].slug && SlugTaken(db, requested)
  }

  /** The request is refused for a slug that is taken. */
  predicate SlugRefused(env: Env, db: Db, r: Request, a: OrgId) {
    ActiveUser(db, r.bearer).Some? && RefusesSlug(env, db, ActiveUser(db, r.bearer).value, r.command, a)
  }

  /** The run without the requests that are dropped. */
  function Purge(requests: seq<Request>, drop: Request -> bool): seq<Request> {
    if requests == [] then []
    else
      var last := requests[|requests| - 1];
      Purge(requests[..|requests| - 1], drop) + if drop(last) then [] else [last]
  }

  /** Only requests of others are dropped: those of the organisation and registrations stay. */
  ghost predicate DropsOthersOnly(requests: seq<Request>, drop: Request -> bool, a: OrgId) {
    forall r :: r in requests && drop(r) ==> !Home(r, a) && !r.command.RegisterUser?
  }

  /** The request names another organisation. */
  predicate NamesAnother(r: Request, a: OrgId) {
    Addressee(r.command).Some? && Addressee(r.command) != Some(a)
  }

  // ---- Decisions of the organisation look at its slice only ----

  function Projected(d: Body): Body {
    match d
    case KeysPage(keys, total) => KeysPage(UnstampedRows(keys), total)
    case _ => d
  }

  /** A response with the last use of keys left out. */
  function Visible(response: Response): Response {
    if response.Ok? then Ok(Projected(response.body)) else response
  }

  predicate SameDecision(d: Decision, e: Decision) {
    d == e || (d.Reply? && e.Reply? && Projected(d.body) == Projected(e.body))
  }

  lemma SameAccess(s: Db, t: Db, a: OrgId, u: UserId, needed: Permission)
    requires SameSlice(s, t, a)
    ensures TenantAccess(s, u, a, needed) == TenantAccess(t, u, a, needed)
  {
  }

  lemma SameProjectAccess(s: Db, t: Db, a: OrgId, p: Principal, needed: Permission)
    requires SameSlice(s, t, a)
    ensures ProjectAccess(s, p, a, needed) == ProjectAccess(t, p, a, needed)
  {
  }

  lemma SameProtection(s: Db, t: Db, a: OrgId, u: UserId, current: Role, requested: Option<Role>)
    requires SameMembers(s.members, t.members, a)
    ensures OwnerProtected(s, a, u, current, requested) == OwnerProtected(t, a, u, current, requested)
  {
    forall w ensures w in OtherOwners(s, a, u) <==> w in OtherOwners(t, a, u) {
      assert w in OtherOwners(s, a, u) <==> (a, w) in s.members && s.members[(a, w)].role == Owner && w != u;
      assert w in OtherOwners(t, a, u) <==> (a, w) in t.members && t.members[(a, w)].role == Owner && w != u;
    }
    assert OtherOwners(s, a, u) == OtherOwners(t, a, u);
  }

  lemma NoMembershipClash(db: Db, a: OrgId, u: UserId, id: nat, used: set<Drawn>)
    requires Within(db, used) && MembershipKey(id) !in used && (a, u) !in db.members
    ensures !MembershipClashes(db, a, u, id)
  {
  }

  lemma NoKeyClash(db: Db, k: KeyId, digest: string, used: set<Drawn>)
    requires Within(db, used) && KeyKey(k) !in used && Digest(digest) !in used
    ensures !KeyClashes(db, k, digest)
  {
  }

  lemma SameListedProjects(env: Env, s: Db, t: Db, a: OrgId, f: ProjectFilter)
    requires SameProjects(s.projects, t.projects, a)
    ensures MatchingProjects(env, s, a, f) == MatchingProjects(env, t, a, f)
    ensures MatchingIds(env, s, a, f) == MatchingIds(env, t, a, f)
  {
    forall p
      ensures p in s.projects && ProjectMatches(env, a, f, s.projects[p])
              <==> p in t.projects && ProjectMatches(env, a, f, t.projects[p])
    {
      assert OwnsProject(s.projects, a, p) <==> OwnsProject(t.projects, a, p);
    }
  }

  lemma SameListedMembers(s: Db, t: Db, a: OrgId)
    requires SameMembers(s.members, t.members, a)
    ensures MembersOf(s, a) == MembersOf(t, a)
    ensures MembershipsOf(s, a) == MembershipsOf(t, a)
  {
    forall m: (OrgId, UserId) ensures m in s.members && m.0 == a <==> m in t.members && m.0 == a {
      assert m == (m.0, m.1);
    }
  }

  function UnstampedRow(k: (KeyId, ApiKey)): (KeyId, ApiKey) {
    (k.0, Unstamped(k.1))
  }

  function UnstampedRows(keys: seq<(KeyId, ApiKey)>): (r: seq<(KeyId, ApiKey)>)
    ensures |r| == |keys| && forall i :: 0 <= i < |keys| ==> r[i] == UnstampedRow(keys[i])
  {
    seq(|keys|, i requires 0 <= i < |keys| => UnstampedRow(keys[i]))
  }

  /** The keys of an organisation without their last use. */
  ghost function BareKeys(db: Db, a: OrgId): set<(KeyId, ApiKey)> {
    set k | k in db.keys && db.keys[k].org == a :: (k, Unstamped(db.keys[k]))
  }

  lemma BareInOrder(rows: seq<(KeyId, ApiKey)>)
    requires Paging.InOrder(KEY_ORDER, rows)
    ensures Paging.InOrder(KEY_ORDER, UnstampedRows(rows))
  {
  }

  lemma BareLists(db: Db, a: OrgId, rows: seq<(KeyId, ApiKey)>)
    requires Paging.Lists(rows, KeysOf(db, a))
    ensures Paging.Lists(UnstampedRows(rows), BareKeys(db, a))
  {
    var bare, plain := UnstampedRows(rows), BareKeys(db, a);
    Listings.KeyTotalIsExact(db, a);
    Listings.SameSize(KeyIdsOf(db, a), plain, k requires k in db.keys => (k, Unstamped(db.keys[k])),
                      (q: (KeyId, ApiKey)) => q.0);
    forall x ensures x in bare <==> x in plain {
      if x in bare {
        var i :| 0 <= i < |bare| && bare[i] == x;
        assert rows[i] in KeysOf(db, a);
      }
      if x in plain {
        assert (x.0, db.keys[x.0]) in KeysOf(db, a);
        var i :| 0 <= i < |rows| && rows[i] == (x.0, db.keys[x.0]);
        assert bare[i] == x;
      }
    }
  }

  /** Leaving out the last use before sorting or after makes no difference. */
  lemma SortedBareKeys(db: Db, a: OrgId)
    ensures UnstampedRows(Paging.Sorted(KEY_ORDER, KeysOf(db, a))) == Paging.Sorted(KEY_ORDER, BareKeys(db, a))
  {
    var rows := Paging.Sorted(KEY_ORDER, KeysOf(db, a));
    Paging.SortedListsRows(KEY_ORDER, KeysOf(db, a));
    BareInOrder(rows);
    BareLists(db, a, rows);
    Paging.OrderIsUnique(KEY_ORDER, BareKeys(db, a), UnstampedRows(rows));
  }

  lemma UnstampedPage(rows: seq<(KeyId, ApiKey)>, w: Window)
    ensures UnstampedRows(Paging.Page(rows, w.limit, w.offset)) == Paging.Page(UnstampedRows(rows), w.limit, w.offset)
  {
  }

  lemma SameBareKeys(s: Db, t: Db, a: OrgId)
    requires SameKeys(s.keys, t.keys, a)
    ensures BareKeys(s, a) == BareKeys(t, a) && KeyIdsOf(s, a) == KeyIdsOf(t, a)
  {
    forall k ensures k in KeyIdsOf(s, a) <==> k in KeyIdsOf(t, a) {
      assert OwnsKey(s.keys, a, k) <==> OwnsKey(t.keys, a, k);
    }
    forall q ensures q in BareKeys(s, a) <==> q in BareKeys(t, a) {
      assert q in BareKeys(s, a) <==> OwnsKey(s.keys, a, q.0) && q == (q.0, Unstamped(s.keys[q.0]));
      assert q in BareKeys(t, a) <==> OwnsKey(t.keys, a, q.0) && q == (q.0, Unstamped(t.keys[q.0]));
    }
  }

  lemma SameListedKeys(s: Db, t: Db, a: OrgId, w: Window)
    requires SameKeys(s.keys, t.keys, a)
    ensures UnstampedRows(Paging.Page(Paging.Sorted(KEY_ORDER, KeysOf(s, a)), w.limit, w.offset))
            == UnstampedRows(Paging.Page(Paging.Sorted(KEY_ORDER, KeysOf(t, a)), w.limit, w.offset))
    ensures KeyIdsOf(s, a) == KeyIdsOf(t, a)
  {
    SameBareKeys(s, t, a);
    hide SameKeys, KeysOf, BareKeys, UnstampedRows, Paging.Sorted, Paging.Page;
    SortedBareKeys(s, a);
    SortedBareKeys(t, a);
    UnstampedPage(Paging.Sorted(KEY_ORDER, KeysOf(s, a)), w);
    UnstampedPage(Paging.Sorted(KEY_ORDER, KeysOf(t, a)), w);
  }

  // ---- Changes inside and outside ----

  /** The change writes rows of `a`. */
  predicate Inside(db: Db, c: Change, a: OrgId) {
    match c
    case SetOrganisation(o, _) => o == a
    case SetMember(o, _, _) => o == a
    case DropMember(o, _) => o == a
    case SetProject(_, row) => row.org == a
    case NewKey(_, row) => row.org == a
    case RevokeKey(k, _) => OwnsKey(db.keys, a, k)
    case _ => false
  }

  /** The change leaves rows of `a` alone. */
  predicate Outside(db: Db, c: Change, a: OrgId) {
    match c
    case NoChange => true
    case NewUser(_, _) => false
    case NewOrganisation(o, _, _, _) => o != a
    case SetOrganisation(o, _) => o != a
    case SetMember(o, _, _) => o != a
    case DropMember(o, _) => o != a
    case SetProject(p, row) => row.org != a && !OwnsProject(db.projects, a, p)
    case NewKey(k, row) => row.org != a && !OwnsKey(db.keys, a, k)
    case RevokeKey(k, _) => !OwnsKey(db.keys, a, k)
    case StampKey(_, _) => true
  }

  lemma OutsideKeepsSlice(db: Db, c: Change, a: OrgId)
    requires a in db.organisations && Outside(db, c, a)
    ensures SameSlice(db, Apply(db, c), a)
  {
  }

  lemma SetProjectKeepsSame(s: map<ProjectId, Project>, t: map<ProjectId, Project>, a: OrgId, p: ProjectId,
                            row: Project)
    requires SameProjects(s, t, a) && row.org == a
    ensures SameProjects(s[p := row], t[p := row], a)
  {
    var v, w := s[p := row], t[p := row];
    forall q ensures OwnsProject(v, a, q) <==> OwnsProject(w, a, q) {
      assert q != p ==> (OwnsProject(v, a, q) <==> OwnsProject(s, a, q));
      assert q != p ==> (OwnsProject(w, a, q) <==> OwnsProject(t, a, q));
    }
    forall q | OwnsProject(v, a, q) ensures v[q] == w[q] {
      assert q != p ==> OwnsProject(s, a, q);
    }
  }

  lemma SetKeyKeepsSame(s: map<KeyId, ApiKey>, t: map<KeyId, ApiKey>, a: OrgId, k: KeyId, row: ApiKey, other: ApiKey)
    requires SameKeys(s, t, a) && row.org == a && Unstamped(row) == Unstamped(other)
    ensures SameKeys(s[k := row], t[k := other], a)
  {
    var v, w := s[k := row], t[k := other];
    assert other.org == Unstamped(other).org == row.org;
    forall q ensures OwnsKey(v, a, q) <==> OwnsKey(w, a, q) {
      assert q != k ==> (OwnsKey(v, a, q) <==> OwnsKey(s, a, q));
      assert q != k ==> (OwnsKey(w, a, q) <==> OwnsKey(t, a, q));
    }
    forall q | OwnsKey(v, a, q) ensures Unstamped(v[q]) == Unstamped(w[q]) {
      assert q != k ==> OwnsKey(s, a, q);
    }
  }

  lemma InsideKeepsSame(s: Db, t: Db, c: Change, a: OrgId)
    requires SameSlice(s, t, a) && Inside(s, c, a)
    ensures SameSlice(Apply(s, c), Apply(t, c), a)
  {
    match c
    case SetOrganisation(_, _) =>
    case SetMember(_, _, _) =>
    case DropMember(_, _) =>
    case SetProject(p, row) =>
      SetProjectKeepsSame(s.projects, t.projects, a, p, row);
    case NewKey(k, row) =>
      SetKeyKeepsSame(s.keys, t.keys, a, k, row, row);
    case RevokeKey(k, at) =>
      assert OwnsKey(t.keys, a, k);
      var row, other := s.keys[k].(revokedAt := Some(at)), t.keys[k].(revokedAt := Some(at));
      assert Unstamped(row) == Unstamped(s.keys[k]).(revokedAt := Some(at));
      assert Unstamped(other) == Unstamped(t.keys[k]).(revokedAt := Some(at));
      SetKeyKeepsSame(s.keys, t.keys, a, k, row, other);
  }

  lemma EventsExtend(log: seq<AuditEvent>, e: AuditEvent, a: OrgId)
    ensures EventsOf(log + [e], a) == EventsOf(log, a) + if e.org == Some(a) then [e] else []
  {
    assert (log + [e])[..|log|] == log;
  }

  lemma RecordKeepsSame(s: Db, t: Db, e: AuditEvent, a: OrgId)
    requires SameSlice(s, t, a)
    ensures SameSlice(Record(s, e), Record(t, e), a)
    ensures e.org != Some(a) ==> SameSlice(Record(s, e), t, a)
  {
    hide SameTenant, SameMembers, SameProjects, SameKeys, EventsOf;
    EventsExtend(s.log, e, a);
    EventsExtend(t.log, e, a);
  }

  lemma Transitive(s: Db, t: Db, u: Db, a: OrgId)
    requires SameSlice(s, t, a) && SameSlice(t, u, a)
    ensures SameSlice(s, u, a) && SameSlice(t, s, a)
  {
  }

  // ---- Requests of the organisation ----

  /** The same decision on both stores, and one that writes rows of `a` only. */
  predicate AgreeInside(db: Db, d: Decision, e: Decision, a: OrgId) {
    SameDecision(d, e) && (d.Commit? ==> d == e && Inside(db, d.change, a) && d.event.org == Some(a))
  }

  lemma UpdateOrganisationAgrees(env: Env, s: Db, t: Db, now: Time, u: UserId, c: Command, a: OrgId)
    requires SameSlice(s, t, a) && c.UpdateOrganisationCommand?
    requires RefusesSlug(env, s, u, c, a) <==> RefusesSlug(env, t, u, c, a)
    ensures AgreeInside(s, DecideUpdateOrganisation(env, s, now, u, a, c.newName, c.slug),
                        DecideUpdateOrganisation(env, t, now, u, a, c.newName, c.slug), a)
  {
    SameAccess(s, t, a, u, UpdateOrganisation);
    hide SameMembers, SameProjects, SameKeys, SlugTaken, Slugs.Normalise, ChangedFields, EditedOrganisation;
  }

  lemma GetOrganisationAgrees(s: Db, t: Db, u: UserId, a: OrgId)
    requires SameSlice(s, t, a)
    ensures AgreeInside(s, DecideGetOrganisation(s, u, a), DecideGetOrganisation(t, u, a), a)
  {
    SameAccess(s, t, a, u, ReadOrganisation);
    hide TenantAccess, SameMembers, SameProjects, SameKeys;
  }

  lemma AddMemberAgrees(s: Db, t: Db, now: Time, u: UserId, a: OrgId, target: UserId, role: Role, id: nat,
                        used: set<Drawn>)
    requires SameSlice(s, t, a) && Within(s, used) && Within(t, used) && MembershipKey(id) !in used
    ensures AgreeInside(s, DecideAddMember(s, now, u, a, target, role, id),
                        DecideAddMember(t, now, u, a, target, role, id), a)
  {
    SameAccess(s, t, a, u, ManageMembers);
    hide TenantAccess, SameProjects, SameKeys, Within, MembershipClashes;
    if (a, target) !in s.members {
      NoMembershipClash(s, a, target, id, used);
      NoMembershipClash(t, a, target, id, used);
    }
  }

  lemma UpdateMemberRoleAgrees(s: Db, t: Db, now: Time, u: UserId, a: OrgId, target: UserId, role: Role)
    requires SameSlice(s, t, a)
    ensures AgreeInside(s, DecideUpdateMemberRole(s, now, u, a, target, role),
                        DecideUpdateMemberRole(t, now, u, a, target, role), a)
  {
    SameAccess(s, t, a, u, ManageMembers);
    hide TenantAccess, SameProjects, SameKeys, OwnerProtected;
    if (a, target) in s.members {
      SameProtection(s, t, a, target, s.members[(a, target)].role, Some(role));
    }
  }

  lemma RemoveMemberAgrees(s: Db, t: Db, now: Time, u: UserId, a: OrgId, target: UserId)
    requires SameSlice(s, t, a)
    ensures AgreeInside(s, DecideRemoveMember(s, now, u, a, target), DecideRemoveMember(t, now, u, a, target), a)
  {
    SameAccess(s, t, a, u, ManageMembers);
    hide TenantAccess, SameProjects, SameKeys, OwnerProtected;
    if (a, target) in s.members {
      SameProtection(s, t, a, target, s.members[(a, target)].role, None);
    }
  }

  lemma CreateApiKeyAgrees(s: Db, t: Db, now: Time, u: UserId, a: OrgId, k: KeyId, name: string, prefix: string,
                           digest: string, used: set<Drawn>)
    requires SameSlice(s, t, a) && Within(s, used) && Within(t, used) && KeyKey(k) !in used && Digest(digest) !in used
    ensures AgreeInside(s, DecideCreateApiKey(s, now, u, a, k, name, prefix, digest),
                        DecideCreateApiKey(t, now, u, a, k, name, prefix, digest), a)
  {
    SameAccess(s, t, a, u, ManageApiKeys);
    NoKeyClash(s, k, digest, used);
    NoKeyClash(t, k, digest, used);
    hide TenantAccess, SameMembers, SameProjects, SameKeys, Within, KeyClashes;
  }

  lemma RevokeApiKeyAgrees(s: Db, t: Db, now: Time, u: UserId, a: OrgId, k: KeyId)
    requires SameSlice(s, t, a)
    ensures AgreeInside(s, DecideRevokeApiKey(s, now, u, a, k), DecideRevokeApiKey(t, now, u, a, k), a)
  {
    SameAccess(s, t, a, u, ManageApiKeys);
    hide TenantAccess, SameMembers, SameProjects;
    assert OwnsKey(s.keys, a, k) <==> OwnsKey(t.keys, a, k);
    if OwnsKey(s.keys, a, k) {
      assert Unstamped(s.keys[k]) == Unstamped(t.keys[k]);
    }
  }

  lemma ListMembersAgrees(s: Db, t: Db, u: UserId, a: OrgId, w: Window)
    requires SameSlice(s, t, a)
    ensures DecideListMembers(s, u, a, w) == DecideListMembers(t, u, a, w)
  {
    SameAccess(s, t, a, u, ManageMembers);
    SameListedMembers(s, t, a);
    hide TenantAccess, SameMembers, SameProjects, SameKeys, MembersOf;
  }

  lemma RefusalsAgree()
    ensures forall e :: SameDecision(Refuse(e), Refuse(e))
  {
  }

  lemma SameKeyPages(x: seq<(KeyId, ApiKey)>, y: seq<(KeyId, ApiKey)>, total: nat)
    requires UnstampedRows(x) == UnstampedRows(y)
    ensures SameDecision(Reply(KeysPage(x, total)), Reply(KeysPage(y, total)))
  {
    hide UnstampedRows;
  }

  lemma ListApiKeysAgrees(s: Db, t: Db, u: UserId, a: OrgId, w: Window)
    requires SameSlice(s, t, a)
    ensures AgreeInside(s, DecideListApiKeys(s, u, a, w), DecideListApiKeys(t, u, a, w), a)
  {
    SameAccess(s, t, a, u, ManageApiKeys);
    SameListedKeys(s, t, a, w);
    hide SameSlice, TenantAccess, KeysOf, KeyIdsOf, UnstampedRows, SameDecision, Paging.Page, Paging.Sorted;
    SameKeyPages(Paging.Page(Paging.Sorted(KEY_ORDER, KeysOf(s, a)), w.limit, w.offset),
                 Paging.Page(Paging.Sorted(KEY_ORDER, KeysOf(t, a)), w.limit, w.offset), CountKeys(s, a));
    RefusalsAgree();
  }

  lemma ListAuditAgrees(s: Db, t: Db, u: UserId, a: OrgId, w: Window)
    requires SameSlice(s, t, a)
    ensures DecideListAudit(s, u, a, w) == DecideListAudit(t, u, a, w)
  {
    SameAccess(s, t, a, u, ReadAuditEvents);
    hide TenantAccess, SameMembers, SameProjects, SameKeys;
  }

  lemma HomeCommandOfUserAgrees(env: Env, s: Db, t: Db, now: Time, u: UserId, c: Command, a: OrgId, used: set<Drawn>)
    requires SameSlice(s, t, a) && Within(s, used) && Within(t, used) && DrawnBy(c) !! used
    requires Addressee(c) == Some(a) && !IsProjectCommand(c)
    requires RefusesSlug(env, s, u, c, a) <==> RefusesSlug(env, t, u, c, a)
    ensures AgreeInside(s, DecideAsUser(env, s, now, u, c), DecideAsUser(env, t, now, u, c), a)
  {
    hide SameSlice, Within, RefusesSlug;
    match c
    case UpdateOrganisationCommand(_, _, _) => UpdateOrganisationAgrees(env, s, t, now, u, c, a);
    case GetOrganisation(_) => GetOrganisationAgrees(s, t, u, a);
    case ListMembers(_, w) => ListMembersAgrees(s, t, u, a, w);
    case AddMember(_, target, role, m) => AddMemberAgrees(s, t, now, u, a, target, role, m, used);
    case UpdateMemberRole(_, target, role) => UpdateMemberRoleAgrees(s, t, now, u, a, target, role);
    case RemoveMember(_, target) => RemoveMemberAgrees(s, t, now, u, a, target);
    case CreateApiKey(_, k, name, prefix, digest) => CreateApiKeyAgrees(s, t, now, u, a, k, name, prefix, digest, used);
    case ListApiKeys(_, w) => ListApiKeysAgrees(s, t, u, a, w);
    case RevokeApiKey(_, k) => RevokeApiKeyAgrees(s, t, now, u, a, k);
    case ListAudit(_, w) => ListAuditAgrees(s, t, u, a, w);
  }

  lemma CreateProjectAgrees(s: Db, t: Db, now: Time, p: Principal, a: OrgId, id: ProjectId, name: string,
                            description: Option<string>, status: ProjectStatus, used: set<Drawn>)
    requires SameSlice(s, t, a) && Within(s, used) && Within(t, used) && ProjectKey(id) !in used
    ensures AgreeInside(s, DecideCreateProject(s, now, p, a, id, name, description, status),
                        DecideCreateProject(t, now, p, a, id, name, description, status), a)
  {
    SameProjectAccess(s, t, a, p, WriteProjects);
    assert id !in s.projects && id !in t.projects;
    hide ProjectAccess, SameSlice, Within;
  }

  lemma SameLiveProject(s: Db, t: Db, a: OrgId, id: ProjectId)
    requires SameSlice(s, t, a)
    ensures LiveProject(s, a, id) <==> LiveProject(t, a, id)
    ensures LiveProject(s, a, id) ==> s.projects[id] == t.projects[id] && s.projects[id].org == a
  {
    assert OwnsProject(s.projects, a, id) <==> OwnsProject(t.projects, a, id);
  }

  lemma WriteProjectAgrees(env: Env, s: Db, t: Db, now: Time, p: Principal, c: Command, a: OrgId)
    requires SameSlice(s, t, a) && Addressee(c) == Some(a) && (c.UpdateProject? || c.DeleteProject?)
    ensures AgreeInside(s, DecideOnProjects(env, s, now, p, c), DecideOnProjects(env, t, now, p, c), a)
  {
    SameProjectAccess(s, t, a, p, WriteProjects);
    SameLiveProject(s, t, a, c.project);
    hide ProjectAccess, SameSlice, LiveProject, ProjectChanges;
  }

  lemma ReadProjectsAgrees(env: Env, s: Db, t: Db, now: Time, p: Principal, c: Command, a: OrgId)
    requires SameSlice(s, t, a) && Addressee(c) == Some(a) && (c.ListProjects? || c.GetProject?)
    ensures AgreeInside(s, DecideOnProjects(env, s, now, p, c), DecideOnProjects(env, t, now, p, c), a)
  {
    SameProjectAccess(s, t, a, p, ReadProjects);
    if c.GetProject? {
      SameLiveProject(s, t, a, c.project);
    } else {
      SameListedProjects(env, s, t, a, c.filter);
    }
    hide ProjectAccess, SameSlice, LiveProject, MatchingProjects, MatchingIds;
  }

  lemma HomeCommandAgrees(env: Env, s: Db, t: Db, now: Time, p: Principal, c: Command, a: OrgId, used: set<Drawn>)
    requires SameSlice(s, t, a) && Within(s, used) && Within(t, used) && DrawnBy(c) !! used
    requires Addressee(c) == Some(a)
    requires p.UserPrincipal? ==> (RefusesSlug(env, s, p.user, c, a) <==> RefusesSlug(env, t, p.user, c, a))
    ensures AgreeInside(s, Decide(env, s, now, p, c), Decide(env, t, now, p, c), a)
  {
    hide SameSlice, Within, RefusesSlug;
    if c.CreateProject? {
      CreateProjectAgrees(s, t, now, p, a, c.project, c.name, c.description, c.status, used);
    } else if c.UpdateProject? || c.DeleteProject? {
      hide DecideOnProjects;
      WriteProjectAgrees(env, s, t, now, p, c, a);
    } else if c.ListProjects? || c.GetProject? {
      hide DecideOnProjects;
      ReadProjectsAgrees(env, s, t, now, p, c, a);
    } else if p.UserPrincipal? {
      hide DecideAsUser;
      HomeCommandOfUserAgrees(env, s, t, now, p.user, c, a, used);
    }
  }

  lemma FinishAgrees(s: State, t: State, d: Decision, e: Decision, fault: Option<nat>, a: OrgId)
    requires SameSlice(s.db, t.db, a) && AgreeInside(s.db, d, e, a)
    ensures SameSlice(Finish(s, d, fault).0.db, Finish(t, e, fault).0.db, a)
    ensures Visible(Finish(s, d, fault).1) == Visible(Finish(t, e, fault).1)
  {
    hide SameSlice, Inside, Projected;
    if d.Commit? {
      InsideKeepsSame(s.db, t.db, d.change, a);
      RecordKeepsSame(Apply(s.db, d.change), Apply(t.db, d.change), d.event, a);
    }
  }

  // ---- Requests that name other organisations ----

  lemma EditsKeepOrganisation(p: Principal)
    ensures forall row, name, description, status :: EditedProject(row, p, name, description, status).org == row.org
  {
  }

  lemma OtherCommandsStayOutside(env: Env, db: Db, now: Time, p: Principal, c: Command, a: OrgId)
    requires a in db.organisations && Addressee(c) != Some(a) && !IsOpen(c)
    ensures var d := Decide(env, db, now, p, c); d.Commit? ==> Outside(db, d.change, a) && d.event.org != Some(a)
  {
    hide TenantAccess, ProjectAccess, OwnerProtected, MembershipClashes, SlugTaken, EditedProject, EditedOrganisation,
      RoleManagementAllowed, Slugs.Normalise, Slugs.FromName, ChangedFields, ProjectChanges;
    EditsKeepOrganisation(p);
  }

  lemma Reflexive(db: Db, a: OrgId)
    requires a in db.organisations
    ensures SameSlice(db, db, a)
  {
  }

  lemma OtherFinishKeepsSlice(st: State, d: Decision, fault: Option<nat>, a: OrgId)
    requires a in st.db.organisations && (d.Commit? ==> Outside(st.db, d.change, a) && d.event.org != Some(a))
    ensures SameSlice(st.db, Finish(st, d, fault).0.db, a)
  {
    Reflexive(st.db, a);
    if d.Commit? {
      OutsideKeepsSlice(st.db, d.change, a);
      hide SameSlice, Outside;
      var changed := Apply(st.db, d.change);
      Transitive(st.db, changed, st.db, a);
      RecordKeepsSame(changed, st.db, d.event, a);
      Transitive(Record(changed, d.event), st.db, st.db, a);
    }
  }

  /** The use of a key is invisible. */
  lemma StampKeepsSlice(db: Db, k: KeyId, at: Time, a: OrgId)
    requires a in db.organisations
    ensures SameSlice(db, Apply(db, StampKey(k, at)), a) && SameSlice(Apply(db, StampKey(k, at)), db, a)
    ensures a in Apply(db, StampKey(k, at)).organisations
  {
    OutsideKeepsSlice(db, StampKey(k, at), a);
    Transitive(db, Apply(db, StampKey(k, at)), db, a);
  }

  lemma LoginStaysOutside(db: Db, now: Time, email: string, passwordMatches: bool, a: OrgId)
    ensures var d := DecideLogin(db, now, email, passwordMatches);
            d.Commit? ==> Outside(db, d.change, a) && d.event.org != Some(a)
  {
  }

  lemma OtherRequestKeepsSlice(env: Env, st: State, r: Request, a: OrgId)
    requires a in st.db.organisations && !Home(r, a) && !r.command.RegisterUser?
    ensures SameSlice(st.db, Handle(env, st, r).0.db, a)
  {
    hide SameSlice, Decide, DecideLogin, Finish, Outside, Apply;
    Reflexive(st.db, a);
    var plan := Prepare(env, st, r);
    if r.command.LoginUser? {
      LoginStaysOutside(st.db, r.now, r.command.email, r.command.passwordMatches, a);
      OtherFinishKeepsSlice(st, plan.decision, plan.fault, a);
    } else if ActiveUser(st.db, r.bearer).Some? {
      OtherCommandsStayOutside(env, st.db, r.now, UserPrincipal(ActiveUser(st.db, r.bearer).value), r.command, a);
      OtherFinishKeepsSlice(st, plan.decision, plan.fault, a);
    } else if plan.Work? {
      var k := KeyFor(st.db, r.bearer.digest).value;
      StampKeepsSlice(st.db, k, r.now, a);
      OtherCommandsStayOutside(env, plan.start.db, r.now, KeyPrincipal(k, st.db.keys[k].org), r.command, a);
      OtherFinishKeepsSlice(plan.start, plan.decision, plan.fault, a);
      Transitive(st.db, plan.start.db, Finish(plan.start, plan.decision, plan.fault).0.db, a);
    }
  }

  // ---- Registrations ----

  lemma RegistrationKeepsSame(env: Env, s: State, t: State, r: Request, a: OrgId)
    requires SameSlice(s.db, t.db, a) && r.command.RegisterUser?
    ensures SameSlice(Handle(env, s, r).0.db, Handle(env, t, r).0.db, a)
  {
    assert DecideRegister(s.db, r.now, r.command.user, r.command.email)
        == DecideRegister(t.db, r.now, r.command.user, r.command.email);
    var d := DecideRegister(s.db, r.now, r.command.user, r.command.email);
    hide SameTenant, SameMembers, SameProjects, SameKeys, DecideRegister;
    if d.Commit? {
      RegisterChange(s.db, r.now, r.command.user, r.command.email);
      RecordKeepsSame(Apply(s.db, d.change), Apply(t.db, d.change), d.event, a);
    }
  }

  lemma RegisterChange(db: Db, now: Time, user: UserId, email: string)
    ensures var d := DecideRegister(db, now, user, email); d.Commit? ==> d.change.NewUser?
  {
  }

  // ---- Requests of the organisation, from credential to response ----

  /** The request authenticates with an active key of another organisation. */
  ghost predicate BearsForeignKey(db: Db, r: Request, a: OrgId) {
    && IsProjectCommand(r.command)
    && ActiveUser(db, r.bearer).None?
    && KeyFor(db, r.bearer.digest).Some?
    && db.keys[KeyFor(db, r.bearer.digest).value].org != a
  }

  /** The whole effect of a request that bears a foreign key: the key's stamp. */
  lemma ForeignKeysAreRefused(env: Env, st: State, r: Request, a: OrgId)
    requires a in st.db.organisations && Home(r, a) && BearsForeignKey(st.db, r, a)
    ensures var stamped := Apply(st.db, StampKey(KeyFor(st.db, r.bearer.digest).value, r.now));
            Handle(env, st, r) == if FailsBy(r.fault, 1) then (st, ServerError)
                                  else (st.(db := stamped), Failed(TenantAccessDenied))
    ensures SameSlice(Handle(env, st, r).0.db, st.db, a)
  {
    var k := KeyFor(st.db, r.bearer.digest).value;
    StampKeepsSlice(st.db, k, r.now, a);
    Reflexive(st.db, a);
    hide SameSlice, Apply, KeyFor;
  }

  lemma SameHomeKey(s: Db, t: Db, digest: string, a: OrgId)
    requires SameSlice(s, t, a) && UniqueDigests(s) && UniqueDigests(t)
    requires KeyFor(s, digest).Some? && s.keys[KeyFor(s, digest).value].org == a
    ensures KeyFor(t, digest) == KeyFor(s, digest) && t.keys[KeyFor(t, digest).value].org == a
  {
    var k := KeyFor(s, digest).value;
    assert OwnsKey(s.keys, a, k) && OwnsKey(t.keys, a, k);
    assert Unstamped(s.keys[k]) == Unstamped(t.keys[k]);
    assert t.keys[k].digest == Unstamped(t.keys[k]).digest && t.keys[k].revokedAt == Unstamped(t.keys[k]).revokedAt;
    assert ActiveKey(t, digest, k);
  }

  lemma UserRequestAgrees(env: Env, s: State, t: State, r: Request, a: OrgId, used: set<Drawn>)
    requires SameSlice(s.db, t.db, a) && Within(s.db, used) && Within(t.db, used) && DrawnBy(r.command) !! used
    requires Home(r, a) && ActiveUser(s.db, r.bearer).Some?
    requires SlugRefused(env, s.db, r, a) <==> SlugRefused(env, t.db, r, a)
    ensures SameSlice(Handle(env, s, r).0.db, Handle(env, t, r).0.db, a)
    ensures Visible(Handle(env, s, r).1) == Visible(Handle(env, t, r).1)
  {
    SameUsers(s.db, t.db, a, r.bearer);
    hide SameSlice, Within, Decide, Finish, AgreeInside, Visible, ActiveUser, RefusesSlug;
    var x, y := Prepare(env, s, r), Prepare(env, t, r);
    HomeCommandAgrees(env, s.db, t.db, r.now, UserPrincipal(ActiveUser(s.db, r.bearer).value), r.command, a, used);
    FinishAgrees(s, t, x.decision, y.decision, r.fault, a);
  }

  lemma SameUsers(s: Db, t: Db, a: OrgId, b: Bearer)
    requires SameSlice(s, t, a)
    ensures ActiveUser(s, b) == ActiveUser(t, b) && a in s.organisations && a in t.organisations
  {
  }

  /** A request whose bearer is no user, in terms of the key it resolves to. */
  lemma HandledByKey(env: Env, st: State, r: Request)
    requires !IsOpen(r.command) && ActiveUser(st.db, r.bearer).None?
    ensures var key := KeyFor(st.db, r.bearer.digest);
            Handle(env, st, r)
            == if !IsProjectCommand(r.command) || key.None? then (st, Failed(Unauthenticated))
               else if FailsBy(r.fault, 1) then (st, ServerError)
               else
                 var stamped := st.(db := Apply(st.db, StampKey(key.value, r.now)));
                 var p := KeyPrincipal(key.value, st.db.keys[key.value].org);
                 Finish(stamped, Decide(env, stamped.db, r.now, p, r.command), After(r.fault, 2))
  {
    hide Decide, Finish, Apply, ActiveUser, FailsBy;
  }

  /** Both sides authenticate with the same key of the organisation, or with none. */
  lemma KeyRequestAgrees(env: Env, s: State, t: State, r: Request, a: OrgId, used: set<Drawn>)
    requires SameSlice(s.db, t.db, a) && Within(s.db, used) && Within(t.db, used) && DrawnBy(r.command) !! used
    requires Home(r, a) && ActiveUser(s.db, r.bearer).None?
    requires KeyFor(s.db, r.bearer.digest) == KeyFor(t.db, r.bearer.digest)
    requires KeyFor(s.db, r.bearer.digest).Some? ==>
               && s.db.keys[KeyFor(s.db, r.bearer.digest).value].org == a
               && t.db.keys[KeyFor(s.db, r.bearer.digest).value].org == a
    ensures SameSlice(Handle(env, s, r).0.db, Handle(env, t, r).0.db, a)
    ensures Visible(Handle(env, s, r).1) == Visible(Handle(env, t, r).1)
  {
    SameUsers(s.db, t.db, a, r.bearer);
    hide SameSlice, Within, Decide, Finish, AgreeInside, Visible, ActiveUser, Apply, FailsBy, Handle;
    HandledByKey(env, s, r);
    HandledByKey(env, t, r);
    if IsProjectCommand(r.command) && KeyFor(s.db, r.bearer.digest).Some? {
      var k := KeyFor(s.db, r.bearer.digest).value;
      StampBoth(s.db, t.db, k, r.now, a, used);
      var x, y := s.(db := Apply(s.db, StampKey(k, r.now))), t.(db := Apply(t.db, StampKey(k, r.now)));
      var p := KeyPrincipal(k, a);
      HomeCommandAgrees(env, x.db, y.db, r.now, p, r.command, a, used);
      FinishAgrees(x, y, Decide(env, x.db, r.now, p, r.command), Decide(env, y.db, r.now, p, r.command),
                   After(r.fault, 2), a);
    }
  }

  /** Neither side authenticates with another organisation's key: the same happens on both. */
  lemma HomeRequestAgrees(env: Env, s: State, t: State, r: Request, a: OrgId, used: set<Drawn>)
    requires SameSlice(s.db, t.db, a) && Within(s.db, used) && Within(t.db, used) && DrawnBy(r.command) !! used
    requires UniqueDigests(s.db) && UniqueDigests(t.db) && Home(r, a)
    requires SlugRefused(env, s.db, r, a) <==> SlugRefused(env, t.db, r, a)
    requires !BearsForeignKey(s.db, r, a) && !BearsForeignKey(t.db, r, a)
    ensures SameSlice(Handle(env, s, r).0.db, Handle(env, t, r).0.db, a)
    ensures Visible(Handle(env, s, r).1) == Visible(Handle(env, t, r).1)
  {
    SameUsers(s.db, t.db, a, r.bearer);
    Flip(s.db, t.db, a);
    hide SameSlice, Within, Decide, Finish, AgreeInside, UniqueDigests, Apply, FailsBy, ActiveUser, SlugRefused;
    if ActiveUser(s.db, r.bearer).Some? {
      UserRequestAgrees(env, s, t, r, a, used);
    } else if IsProjectCommand(r.command) {
      if KeyFor(s.db, r.bearer.digest).Some? {
        SameHomeKey(s.db, t.db, r.bearer.digest, a);
      } else if KeyFor(t.db, r.bearer.digest).Some? {
        SameHomeKey(t.db, s.db, r.bearer.digest, a);
      }
      KeyRequestAgrees(env, s, t, r, a, used);
    }
  }

  lemma Flip(s: Db, t: Db, a: OrgId)
    requires SameSlice(s, t, a)
    ensures SameSlice(t, s, a)
  {
  }

  lemma StampBoth(s: Db, t: Db, k: KeyId, at: Time, a: OrgId, used: set<Drawn>)
    requires SameSlice(s, t, a) && Within(s, used) && Within(t, used)
    ensures SameSlice(Apply(s, StampKey(k, at)), Apply(t, StampKey(k, at)), a)
    ensures Within(Apply(s, StampKey(k, at)), used) && Within(Apply(t, StampKey(k, at)), used)
  {
    StampKeepsSlice(s, k, at, a);
    StampKeepsSlice(t, k, at, a);
    StampKeepsWithin(s, k, at, used);
    StampKeepsWithin(t, k, at, used);
    var v, w := Apply(s, StampKey(k, at)), Apply(t, StampKey(k, at));
    hide SameSlice, Within, Apply;
    Transitive(v, s, t, a);
    Transitive(v, t, w, a);
  }

  lemma StampKeepsWithin(db: Db, k: KeyId, at: Time, used: set<Drawn>)
    requires Within(db, used)
    ensures Within(Apply(db, StampKey(k, at)), used)
  {
  }

  // ---- Everything in use was drawn ----

  /** The ids the change brings in are drawn or were there. */
  predicate Draws(db: Db, c: Change, drawn: set<Drawn>) {
    match c
    case NewOrganisation(_, _, _, m) => MembershipKey(m.id) in drawn
    case SetMember(o, u, m) => MembershipKey(m.id) in drawn || ((o, u) in db.members && db.members[(o, u)].id == m.id)
    case SetProject(p, _) => ProjectKey(p) in drawn || p in db.projects
    case NewKey(k, row) => KeyKey(k) in drawn && Digest(row.digest) in drawn
    case _ => true
  }

  lemma ChangesAreDrawn(env: Env, db: Db, now: Time, p: Principal, c: Command)
    requires !IsOpen(c)
    ensures var d := Decide(env, db, now, p, c); d.Commit? ==> Draws(db, d.change, DrawnBy(c))
  {
    hide TenantAccess, ProjectAccess, OwnerProtected, MembershipClashes, SlugTaken, KeyClashes;
  }

  lemma DrawingStaysWithin(db: Db, c: Change, used: set<Drawn>, drawn: set<Drawn>)
    requires Within(db, used) && Draws(db, c, drawn)
    ensures Within(Apply(db, c), used + drawn)
  {
  }

  lemma WithinMore(db: Db, used: set<Drawn>, drawn: set<Drawn>)
    requires Within(db, used)
    ensures Within(db, used + drawn)
  {
  }

  lemma RecordStaysWithin(db: Db, e: AuditEvent, used: set<Drawn>)
    requires Within(db, used)
    ensures Within(Record(db, e), used)
  {
  }

  lemma FinishStaysWithin(st: State, d: Decision, fault: Option<nat>, used: set<Drawn>, drawn: set<Drawn>)
    requires Within(st.db, used) && (d.Commit? ==> Draws(st.db, d.change, drawn))
    ensures Within(Finish(st, d, fault).0.db, used + drawn)
  {
    WithinMore(st.db, used, drawn);
    if d.Commit? {
      DrawingStaysWithin(st.db, d.change, used, drawn);
      RecordStaysWithin(Apply(st.db, d.change), d.event, used + drawn);
      hide Within, Draws, Apply;
    }
  }

  lemma AccountsDrawNothing(db: Db, now: Time, c: Command, drawn: set<Drawn>)
    requires IsOpen(c)
    ensures var d := DecideOpen(db, now, c); d.Commit? ==> Draws(db, d.change, drawn)
  {
  }

  lemma RequestsStayWithin(env: Env, st: State, r: Request, used: set<Drawn>)
    requires Within(st.db, used)
    ensures Within(Handle(env, st, r).0.db, used + DrawnBy(r.command))
  {
    hide Within, Decide, DecideOpen, Finish, Apply, Draws;
    WithinMore(st.db, used, DrawnBy(r.command));
    var plan := Prepare(env, st, r);
    if IsOpen(r.command) {
      AccountsDrawNothing(st.db, r.now, r.command, DrawnBy(r.command));
      FinishStaysWithin(st, plan.decision, plan.fault, used, DrawnBy(r.command));
    } else if ActiveUser(st.db, r.bearer).Some? {
      ChangesAreDrawn(env, st.db, r.now, UserPrincipal(ActiveUser(st.db, r.bearer).value), r.command);
      FinishStaysWithin(st, plan.decision, plan.fault, used, DrawnBy(r.command));
    } else if plan.Work? {
      var k := KeyFor(st.db, r.bearer.digest).value;
      StampKeepsWithin(st.db, k, r.now, used);
      ChangesAreDrawn(env, plan.start.db, r.now, KeyPrincipal(k, st.db.keys[k].org), r.command);
      FinishStaysWithin(plan.start, plan.decision, plan.fault, used, DrawnBy(r.command));
    }
  }

  // ---- Whole runs ----

  /** A run that starts from tables whose ids are all in use and draws fresh ids. */
  ghost predicate Undisturbed(st: State, requests: seq<Request>, a: OrgId, used: set<Drawn>) {
    Sound(st.db) && a in st.db.organisations && Within(st.db, used) && FreshRun(used, requests)
  }

  lemma RunAppend(env: Env, st: State, requests: seq<Request>, r: Request)
    ensures Run(env, st, requests + [r]) == Handle(env, Run(env, st, requests), r).0
  {
    assert (requests + [r])[..|requests|] == requests;
  }

  /** If one side authenticates with a foreign key, neither side gets anywhere. */
  lemma ForeignBearersGetNowhere(env: Env, s: State, t: State, r: Request, a: OrgId)
    requires SameSlice(s.db, t.db, a) && UniqueDigests(s.db) && UniqueDigests(t.db)
    requires Home(r, a) && BearsForeignKey(s.db, r, a)
    ensures SameSlice(Handle(env, s, r).0.db, s.db, a) && SameSlice(Handle(env, t, r).0.db, t.db, a)
    ensures Handle(env, s, r).1 == if FailsBy(r.fault, 1) then ServerError else Failed(TenantAccessDenied)
    ensures Handle(env, t, r).1
            == if !BearsForeignKey(t.db, r, a) then Failed(Unauthenticated)
               else if FailsBy(r.fault, 1) then ServerError else Failed(TenantAccessDenied)
  {
    assert a in s.db.organisations && a in t.db.organisations
           && ActiveUser(s.db, r.bearer) == ActiveUser(t.db, r.bearer);
    Flip(s.db, t.db, a);
    Reflexive(t.db, a);
    hide SameSlice, UniqueDigests, FailsBy, Decide, Finish;
    ForeignKeysAreRefused(env, s, r, a);
    if BearsForeignKey(t.db, r, a) {
      ForeignKeysAreRefused(env, t, r, a);
    } else if KeyFor(t.db, r.bearer.digest).Some? {
      SameHomeKey(t.db, s.db, r.bearer.digest, a);
    }
  }

  /** If a slug is refused on one side only, the other side updates or breaks. */
  lemma SlugRefusalShows(env: Env, s: State, t: State, r: Request, a: OrgId)
    requires Home(r, a) && SlugRefused(env, s.db, r, a) && !SlugRefused(env, t.db, r, a)
    requires SameSlice(s.db, t.db, a)
    ensures Handle(env, s, r) == (s, Failed(SlugAlreadyExists))
    ensures Handle(env, t, r).1.Ok? || Handle(env, t, r).1 == ServerError
    ensures !BearsForeignKey(s.db, r, a) && !BearsForeignKey(t.db, r, a)
  {
    SameUsers(s.db, t.db, a, r.bearer);
    SameAccess(s.db, t.db, a, ActiveUser(s.db, r.bearer).value, UpdateOrganisation);
    hide SameSlice, ActiveUser, SlugTaken, Slugs.Normalise, ChangedFields, EditedOrganisation, KeyFor;
  }

  /** What may tell the two runs apart is the same in both: the use of a foreign key and the refusal
      of a slug. */
  ghost predicate SameCircumstances(env: Env, s: Db, t: Db, r: Request, a: OrgId) {
    && (BearsForeignKey(s, r, a) <==> BearsForeignKey(t, r, a))
    && (SlugRefused(env, s, r, a) <==> SlugRefused(env, t, r, a))
  }

  /** On stores that agree on the organisation its request is answered alike exactly in the same
      circumstances; a foreign key is refused on both sides. */
  lemma HomeAnswersExactly(env: Env, s: State, t: State, r: Request, a: OrgId, used: set<Drawn>)
    requires SameSlice(s.db, t.db, a) && Within(s.db, used) && Within(t.db, used) && DrawnBy(r.command) !! used
    requires Sound(s.db) && Sound(t.db) && Home(r, a)
    ensures Visible(Handle(env, s, r).1) == Visible(Handle(env, t, r).1) <==> SameCircumstances(env, s.db, t.db, r, a)
    ensures BearsForeignKey(s.db, r, a) || BearsForeignKey(t.db, r, a)
            ==> !Handle(env, s, r).1.Ok? && !Handle(env, t, r).1.Ok?
  {
    SoundHasUniqueDigests(s.db);
    SoundHasUniqueDigests(t.db);
    Flip(s.db, t.db, a);
    hide SameSlice, Within, Sound, Handle, DrawnBy, BearsForeignKey, SlugRefused, UniqueDigests;
    if SlugRefused(env, s.db, r, a) && !SlugRefused(env, t.db, r, a) {
      SlugRefusalShows(env, s, t, r, a);
    } else if SlugRefused(env, t.db, r, a) && !SlugRefused(env, s.db, r, a) {
      SlugRefusalShows(env, t, s, r, a);
    } else if BearsForeignKey(s.db, r, a) {
      ForeignBearersGetNowhere(env, s, t, r, a);
    } else if BearsForeignKey(t.db, r, a) {
      ForeignBearersGetNowhere(env, t, s, r, a);
    } else {
      HomeRequestAgrees(env, s, t, r, a, used);
    }
  }

  /** One more request keeps the slices of the full and the purged run the same, dropped or not. */
  lemma StepKeepsSame(env: Env, s: State, t: State, r: Request, dropped: bool, a: OrgId, used: set<Drawn>)
    requires SameSlice(s.db, t.db, a) && Within(s.db, used) && Within(t.db, used) && DrawnBy(r.command) !! used
    requires Sound(s.db) && Sound(t.db)
    requires Home(r, a) ==> (SlugRefused(env, s.db, r, a) <==> SlugRefused(env, t.db, r, a))
    requires dropped ==> !Home(r, a) && !r.command.RegisterUser?
    ensures SameSlice(Handle(env, s, r).0.db, if dropped then t.db else Handle(env, t, r).0.db, a)
  {
    assert a in s.db.organisations && a in t.db.organisations;
    SoundHasUniqueDigests(s.db);
    SoundHasUniqueDigests(t.db);
    hide SameSlice, Within, Sound, Handle, UniqueDigests, BearsForeignKey, SlugRefused;
    var v, w := Handle(env, s, r).0.db, Handle(env, t, r).0.db;
    if r.command.RegisterUser? {
      RegistrationKeepsSame(env, s, t, r, a);
    } else if !Home(r, a) {
      OtherRequestKeepsSlice(env, s, r, a);
      OtherRequestKeepsSlice(env, t, r, a);
      Flip(s.db, v, a);
      Transitive(v, s.db, t.db, a);
      Transitive(v, t.db, w, a);
    } else if !BearsForeignKey(s.db, r, a) && !BearsForeignKey(t.db, r, a) {
      HomeRequestAgrees(env, s, t, r, a, used);
    } else {
      Flip(s.db, t.db, a);
      if BearsForeignKey(s.db, r, a) {
        ForeignBearersGetNowhere(env, s, t, r, a);
      } else {
        ForeignBearersGetNowhere(env, t, s, r, a);
      }
      Flip(w, t.db, a);
      Transitive(v, s.db, t.db, a);
      Transitive(v, t.db, w, a);
    }
  }

  /** Every slug the organisation asks for is refused in both runs or in neither. */
  ghost predicate SlugRefusalsAgree(env: Env, st: State, requests: seq<Request>, drop: Request -> bool, a: OrgId) {
    requests != [] ==>
      var before, r := requests[..|requests| - 1], requests[|requests| - 1];
      var full, purged := Run(env, st, before), Run(env, st, Purge(before, drop));
      && SlugRefusalsAgree(env, st, before, drop, a)
      && (Home(r, a) ==> (SlugRefused(env, full.db, r, a) <==> SlugRefused(env, purged.db, r, a)))
  }

  /** Then the full run and the purged run hold the same of the organisation. */
  lemma {:induction false} PurgedRunsHoldTheSame(env: Env, st: State, requests: seq<Request>, drop: Request -> bool,
                                                 a: OrgId, used: set<Drawn>)
    requires Undisturbed(st, requests, a, used) && DropsOthersOnly(requests, drop, a)
    requires SlugRefusalsAgree(env, st, requests, drop, a)
    ensures var full, purged := Run(env, st, requests).db, Run(env, st, Purge(requests, drop)).db;
            && SameSlice(full, purged, a)
            && Within(full, UsedBy(used, requests)) && Within(purged, UsedBy(used, requests))
    decreases |requests|
  {
    hide SameSlice, Within, Sound, Handle, DrawnBy, SlugRefused;
    if requests == [] {
      Reflexive(st.db, a);
    } else {
      var before, r := requests[..|requests| - 1], requests[|requests| - 1];
      assert r in requests;
      PurgedRunsHoldTheSame(env, st, before, drop, a, used);
      RunKeepsSound(env, st, before);
      RunKeepsSound(env, st, Purge(before, drop));
      var s, t := Run(env, st, before), Run(env, st, Purge(before, drop));
      var drawn := UsedBy(used, before);
      StepKeepsSame(env, s, t, r, drop(r), a, drawn);
      RequestsStayWithin(env, s, r, drawn);
      RequestsStayWithin(env, t, r, drawn);
      WithinMore(t.db, drawn, DrawnBy(r.command));
      RunAppend(env, st, Purge(before, drop), r);
      assert Purge(before, drop) + [] == Purge(before, drop);
    }
  }

  /** Dropping any requests of others, all of them or some, changes no response to a request of this
      organisation, last uses left out, exactly as long as the request meets the same circumstances:
      it bears a key of another organisation in both runs or in neither, and asks for a slug that is
      taken in both or in neither. Bearers of foreign keys succeed in neither. */
  lemma TenantPurge(env: Env, st: State, requests: seq<Request>, drop: Request -> bool, r: Request, a: OrgId,
                    used: set<Drawn>)
    requires Undisturbed(st, requests + [r], a, used) && DropsOthersOnly(requests, drop, a) && Home(r, a)
    requires SlugRefusalsAgree(env, st, requests, drop, a)
    ensures var full, purged := Run(env, st, requests), Run(env, st, Purge(requests, drop));
            var x, y := Handle(env, full, r).1, Handle(env, purged, r).1;
            && (Visible(x) == Visible(y) <==> SameCircumstances(env, full.db, purged.db, r, a))
            && (BearsForeignKey(full.db, r, a) || BearsForeignKey(purged.db, r, a) ==> !x.Ok? && !y.Ok?)
  {
    hide SameSlice, Within, Sound, Handle, DrawnBy, BearsForeignKey, SlugRefused, DropsOthersOnly, SameCircumstances;
    assert (requests + [r])[..|requests|] == requests && (requests + [r])[|requests|] == r;
    PurgedRunsHoldTheSame(env, st, requests, drop, a, used);
    RunKeepsSound(env, st, requests);
    RunKeepsSound(env, st, Purge(requests, drop));
    HomeAnswersExactly(env, Run(env, st, requests), Run(env, st, Purge(requests, drop)), r, a, UsedBy(used, requests));
  }

  /** Every request of the organisation is answered alike in the full run and in the purged run. */
  ghost predicate AnsweredAlike(env: Env, st: State, requests: seq<Request>, drop: Request -> bool, a: OrgId) {
    requests != [] ==>
      var before, r := requests[..|requests| - 1], requests[|requests| - 1];
      var full, purged := Run(env, st, before), Run(env, st, Purge(before, drop));
      && AnsweredAlike(env, st, before, drop, a)
      && (Home(r, a) ==> Visible(Handle(env, full, r).1) == Visible(Handle(env, purged, r).1))
  }

  /** Every request of the organisation meets the same circumstances in both runs. */
  ghost predicate MeetsTheSame(env: Env, st: State, requests: seq<Request>, drop: Request -> bool, a: OrgId) {
    requests != [] ==>
      var before, r := requests[..|requests| - 1], requests[|requests| - 1];
      var full, purged := Run(env, st, before), Run(env, st, Purge(before, drop));
      && MeetsTheSame(env, st, before, drop, a)
      && (Home(r, a) ==> SameCircumstances(env, full.db, purged.db, r, a))
  }

  lemma {:induction false} SameCircumstancesRefuseTheSameSlugs(env: Env, st: State, requests: seq<Request>,
                                                               drop: Request -> bool, a: OrgId)
    requires MeetsTheSame(env, st, requests, drop, a)
    ensures SlugRefusalsAgree(env, st, requests, drop, a)
  {
    hide SlugRefused, BearsForeignKey, Run, Purge;
    if requests != [] {
      SameCircumstancesRefuseTheSameSlugs(env, st, requests[..|requests| - 1], drop, a);
    }
  }

  /** Over a whole run, slug changes included: no response to the organisation changes if and only if
      each of its requests meets the same circumstances in both runs. */
  lemma {:induction false} TenantPurgeOverRuns(env: Env, st: State, requests: seq<Request>, drop: Request -> bool,
                                               a: OrgId, used: set<Drawn>)
    requires Undisturbed(st, requests, a, used) && DropsOthersOnly(requests, drop, a)
    ensures AnsweredAlike(env, st, requests, drop, a) <==> MeetsTheSame(env, st, requests, drop, a)
    decreases |requests|
  {
    hide Within, Sound, Handle, DrawnBy, Run, SameCircumstances, Visible, Purge;
    if requests != [] {
      var before, r := requests[..|requests| - 1], requests[|requests| - 1];
      assert requests == before + [r];
      TenantPurgeOverRuns(env, st, before, drop, a, used);
      if MeetsTheSame(env, st, before, drop, a) && Home(r, a) {
        SameCircumstancesRefuseTheSameSlugs(env, st, before, drop, a);
        TenantPurge(env, st, before, drop, r, a, used);
      }
    }
  }

  function CreateKey(u: UserId, b: OrgId, k: KeyId, digest: string, now: Time): Request {
    Request(Bearer(Some(u), ""), now, None, CreateApiKey(b, k, "", "", digest))
  }

  function ReadWithKey(a: OrgId, digest: string, now: Time): Request {
    Request(Bearer(None, digest), now, None, GetProject(a, 0))
  }

  lemma KeyIsCreated(env: Env, st: State, u: UserId, b: OrgId, k: KeyId, digest: string, now: Time)
    requires u in st.db.users && st.db.users[u].active && TenantAccess(st.db, u, b, ManageApiKeys).Granted?
    requires !KeyClashes(st.db, k, digest)
    ensures var db := Handle(env, st, CreateKey(u, b, k, digest, now)).0.db;
            db.organisations == st.db.organisations
            && db.keys == st.db.keys[k := ApiKey(b, "", "", digest, u, now, None, None)]
  {
    hide TenantAccess, KeyClashes;
  }

  lemma OnlyKeyWithDigest(db: Db, made: Db, k: KeyId, row: ApiKey)
    requires !KeyClashes(db, k, row.digest) && made.keys == db.keys[k := row] && row.revokedAt == None
    ensures KeyFor(db, row.digest) == None && KeyFor(made, row.digest) == Some(k)
  {
    assert ActiveKey(made, row.digest, k);
  }

  lemma UnknownKeysAreUnauthenticated(env: Env, st: State, a: OrgId, digest: string, now: Time)
    requires KeyFor(st.db, digest) == None
    ensures Handle(env, st, ReadWithKey(a, digest, now)).1 == Failed(Unauthenticated)
  {
    hide Decide;
  }

  /** The exception is real: another organisation creates a key, and its bearer is told apart. With the
      creation in the run the tenant check refuses the key; without it the key is unknown. */
  lemma ForeignKeyTellsRunsApart(env: Env, st: State, u: UserId, a: OrgId, b: OrgId, k: KeyId, digest: string,
                                 now: Time)
    requires a != b && a in st.db.organisations
    requires u in st.db.users && st.db.users[u].active && TenantAccess(st.db, u, b, ManageApiKeys).Granted?
    requires !KeyClashes(st.db, k, digest)
    ensures var create, read := CreateKey(u, b, k, digest, now), ReadWithKey(a, digest, now);
            && Purge([create], q => NamesAnother(q, a)) == []
            && Handle(env, Run(env, st, [create]), read).1 == Failed(TenantAccessDenied)
            && Handle(env, Run(env, st, []), read).1 == Failed(Unauthenticated)
  {
    var create, read := CreateKey(u, b, k, digest, now), ReadWithKey(a, digest, now);
    hide TenantAccess, KeyClashes, Handle, ActiveUser;
    KeyIsCreated(env, st, u, b, k, digest, now);
    RunAppend(env, st, [], create);
    assert [] + [create] == [create] && [create][..0] == [];
    var made := Handle(env, st, create).0;
    OnlyKeyWithDigest(st.db, made.db, k, made.db.keys[k]);
    NoToken(made.db, digest);
    ForeignKeysAreRefused(env, made, read, a);
    UnknownKeysAreUnauthenticated(env, st, a, digest, now);
  }

  function TakeSlug(u: UserId, b: OrgId, m: nat, slug: string, now: Time): Request {
    Request(Bearer(Some(u), ""), now, None, CreateOrganisation(b, m, "", Some(slug)))
  }

  function AskForSlug(u: UserId, a: OrgId, slug: string, now: Time): Request {
    Request(Bearer(Some(u), ""), now, None, UpdateOrganisationCommand(a, None, Some(slug)))
  }

  lemma SlugIsTaken(env: Env, st: State, u: UserId, b: OrgId, m: nat, slug: string, now: Time)
    requires u in st.db.users && st.db.users[u].active
    requires b !in st.db.organisations && !MembershipClashes(st.db, b, u, m)
    requires !SlugTaken(st.db, Slugs.Normalise(env.casing, slug))
    ensures var db := Handle(env, st, TakeSlug(u, b, m, slug, now)).0.db; var taken :=
        Slugs.Normalise(env.casing, slug);
            && db.users == st.db.users && SlugTaken(db, taken)
            && db.organisations == st.db.organisations[b := Organisation("", taken)]
            && db.members == st.db.members[(b, u) := Membership(m, Owner, now)]
  {
    hide Slugs.Normalise, MembershipClashes;
    var db := Handle(env, st, TakeSlug(u, b, m, slug, now)).0.db;
    assert db.organisations[b].slug == Slugs.Normalise(env.casing, slug);
  }

  lemma SlugIsGiven(env: Env, st: State, u: UserId, a: OrgId, slug: string, now: Time)
    requires u in st.db.users && st.db.users[u].active && TenantAccess(st.db, u, a, UpdateOrganisation).Granted?
    ensures var requested := Slugs.Normalise(env.casing, slug); var taken := SlugTaken(st.db, requested);
            && (taken && requested != st.db.organisations[a].slug
                ==> Handle(env, st, AskForSlug(u, a, slug, now)).1 == Failed(SlugAlreadyExists))
            && (!taken ==> Handle(env, st, AskForSlug(u, a, slug, now)).1.Ok?)
  {
    hide Slugs.Normalise, SlugTaken;
  }

  /** The other exception is real too: somebody creates an organisation with a free slug, and a member
      of this organisation who asks for that slug is refused; without the creation the slug is given. */
  lemma TakenSlugTellsRunsApart(env: Env, st: State, u: UserId, a: OrgId, b: OrgId, m: nat, slug: string, now: Time)
    requires u in st.db.users && st.db.users[u].active && TenantAccess(st.db, u, a, UpdateOrganisation).Granted?
    requires b !in st.db.organisations && !MembershipClashes(st.db, b, u, m)
    requires !SlugTaken(st.db, Slugs.Normalise(env.casing, slug))
    ensures var take, ask := TakeSlug(u, b, m, slug, now), AskForSlug(u, a, slug, now);
            && Purge([take], q => !Home(q, a) && !q.command.RegisterUser?) == []
            && Handle(env, Run(env, st, [take]), ask).1 == Failed(SlugAlreadyExists)
            && Handle(env, Run(env, st, []), ask).1.Ok?
  {
    var take := TakeSlug(u, b, m, slug, now);
    assert st.db.organisations[a].slug != Slugs.Normalise(env.casing, slug);
    hide Handle, Slugs.Normalise, MembershipClashes, SlugTaken;
    SlugIsTaken(env, st, u, b, m, slug, now);
    RunAppend(env, st, [], take);
    assert [] + [take] == [take] && [take][..0] == [];
    SlugIsGiven(env, st, u, a, slug, now);
    SlugIsGiven(env, Handle(env, st, take).0, u, a, slug, now);
  }

  lemma NoToken(db: Db, digest: string)
    ensures ActiveUser(db, Bearer(None, digest)) == None
  {
  }

  /** Such states are reachable: one user registers and creates two organisations, with slugs to spare. */
  lemma TwoTenants(env: Env) returns (requests: seq<Request>)
    requires Text.KeepsPlain(env.casing)
    ensures var db := Run(env, GENESIS, requests).db;
            && 0 in db.users && db.users[0].active && db.organisations.Keys == {0, 1}
            && TenantAccess(db, 0, 0, UpdateOrganisation).Granted? && TenantAccess(db, 0, 1, ManageApiKeys).Granted?
            && !SlugTaken(db, "ccc") && db.members.Keys == {(0, 0), (1, 0)} && db.keys == map[]
  {
    var who := Bearer(Some(0), "");
    var register := Request(who, 0, None, RegisterUser(0, ""));
    var first := Request(who, 0, None, CreateOrganisation(0, 0, "", Some("aaa")));
    var second := Request(who, 0, None, CreateOrganisation(1, 1, "", Some("bbb")));
    SlugsStay(env.casing);
    var one, two := Handle(env, GENESIS, register).0, Handle(env, Handle(env, GENESIS, register).0, first).0;
    assert one.db.users == map[0 := User("", true)];
    OrganisationIsCreated(env, one, 0, "aaa");
    OrganisationIsCreated(env, two, 1, "bbb");
    hide Handle, Slugs.Normalise, SlugTaken, MembershipClashes, TenantAccess;
    RunAppend(env, GENESIS, [], register);
    RunAppend(env, GENESIS, [] + [register], first);
    RunAppend(env, GENESIS, [] + [register] + [first], second);
    requests := [] + [register] + [first] + [second];
    TwoTenantsTables(Run(env, GENESIS, requests).db);
  }

  lemma TwoTenantsTables(db: Db)
    requires db.organisations == map[0 := Organisation("", "aaa"), 1 := Organisation("", "bbb")]
    requires db.members == map[(0, 0) := Membership(0, Owner, 0), (1, 0) := Membership(1, Owner, 0)]
    ensures db.organisations.Keys == {0, 1} && db.members.Keys == {(0, 0), (1, 0)} && !SlugTaken(db, "ccc")
    ensures TenantAccess(db, 0, 0, UpdateOrganisation).Granted? && TenantAccess(db, 0, 1, ManageApiKeys).Granted?
  {
  }

  lemma OrganisationIsCreated(env: Env, st: State, o: OrgId, slug: string)
    requires 0 in st.db.users && st.db.users[0].active && Slugs.Normalise(env.casing, slug) == slug
    requires !SlugTaken(st.db, slug) && o !in st.db.organisations && !MembershipClashes(st.db, o, 0, o)
    ensures var db := Handle(env, st,
                             Request(Bearer(Some(0), ""), 0, None, CreateOrganisation(o, o, "", Some(slug)))).0.db;
            && db.users == st.db.users && db.keys == st.db.keys
            && db.organisations == st.db.organisations[o := Organisation("", slug)]
            && db.members == st.db.members[(o, 0) := Membership(o, Owner, 0)]
  {
    hide Slugs.Normalise, SlugTaken, MembershipClashes;
  }

  lemma SlugsStay(casing: Text.Casing)
    requires Text.KeepsPlain(casing)
    ensures Slugs.Normalise(casing, "aaa") == "aaa" && Slugs.Normalise(casing, "bbb") == "bbb"
  {
    Text.StripKeepsEnds(casing.isSpace, "aaa");
    Text.StripKeepsEnds(casing.isSpace, "bbb");
  }
}
