/** The listings of the API: totals that agree with their rows, pages that partition them, and
    defensive branches that never run. */
module Listings {
  import opened Domain
  import opened Store
  import opened Workflows
  import opened Ledger
  import opened LedgerTheorems
  import Paging

  // ---- Totals agree with rows ----

  /** Sets that two functions map onto each other have the same size. */
  lemma {:induction false} SameSize<A, B>(a: set<A>, b: set<B>, f: A --> B, g: B -> A)
    requires forall x :: x in a ==> f.requires(x) && f(x) in b && g(f(x)) == x
    requires forall y :: y in b ==> g(y) in a && f(g(y)) == y
    ensures |a| == |b|
    decreases |a|
  {
    if x :| x in a {
      SameSize(a - {x}, b - {f(x)}, f, g);
    } else if y :| y in b {
      assert g(y) in a;
    }
  }

  /** The project count is the number of rows the list selects: both use the same filter. */
  lemma ProjectTotalIsExact(env: Env, db: Db, org: OrgId, f: ProjectFilter)
    ensures |MatchingProjects(env, db, org, f)| == CountProjects(env, db, org, f)
  {
    SameSize(MatchingIds(env, db, org, f), MatchingProjects(env, db, org, f),
             p requires p in db.projects => (p, db.projects[p]),
             (q: (ProjectId, Project)) => q.0);
  }

  lemma MemberTotalIsExact(db: Db, org: OrgId)
    ensures |MembersOf(db, org)| == CountMembers(db, org)
  {
    SameSize(MembershipsOf(db, org), MembersOf(db, org), m requires m in db.members => (m.1, db.members[m]),
             (q: (UserId, Membership)) => (org, q.0));
  }

  lemma KeyTotalIsExact(db: Db, org: OrgId)
    ensures |KeysOf(db, org)| == CountKeys(db, org)
  {
    SameSize(KeyIdsOf(db, org), KeysOf(db, org), k requires k in db.keys => (k, db.keys[k]),
             (q: (KeyId, ApiKey)) => q.0);
  }

  /** The join of two tables has as many rows as the count over one of them: no membership lacks its
      organisation, and none is there twice. */
  lemma JoinTotalIsExact(db: Db, user: UserId)
    requires TablesOk(db)
    ensures |JoinedOrganisations(db, user)| == CountMemberships(db, user)
  {
    SameSize(MembershipsHeldBy(db, user), JoinedOrganisations(db, user),
             (m: (OrgId, UserId)) requires m.0 in db.organisations => (m.0, db.organisations[m.0]),
             (q: (OrgId, Organisation)) => (q.0, user));
  }

  /** In every reachable state a user's organisations are listed in order, none twice, and as many
      as are counted. */
  lemma OrganisationListAgreesWithCount(env: Env, st: State, user: UserId)
    requires Reachable(env, st)
    ensures var rows := Paging.Sorted(OrganisationOrder(env), JoinedOrganisations(st.db, user));
            && |rows| == CountMemberships(st.db, user)
            && Paging.InOrder(OrganisationOrder(env), rows)
            && ListsOrganisationsOf(st.db, user, rows)
  {
    ReachableIsSound(env, st);
    hide TablesOk, Reachable, JoinedOrganisations, OrganisationOrder, CountMemberships, ListsOrganisationsOf;
    JoinTotalIsExact(st.db, user);
    var order, joined := OrganisationOrder(env), JoinedOrganisations(st.db, user);
    Paging.SortedListsRows(order, joined);
    Paging.NoneTwice(Paging.Sorted(order, joined), joined);
    JoinedById(st.db, user, Paging.Sorted(order, joined));
  }

  /** Exactly the organisations the user is a member of, none twice. */
  ghost predicate ListsOrganisationsOf(db: Db, user: UserId, rows: seq<(OrgId, Organisation)>) {
    && (forall i, j :: 0 <= i < j < |rows| ==> rows[i].0 != rows[j].0)
    && (forall i :: 0 <= i < |rows| ==>
          (rows[i].0, user) in db.members && rows[i].0 in db.organisations && rows[i].1 == db.organisations[rows[i].0])
    && (forall o :: (o, user) in db.members ==> o in db.organisations && (o, db.organisations[o]) in rows)
  }

  lemma JoinedById(db: Db, user: UserId, rows: seq<(OrgId, Organisation)>)
    requires TablesOk(db) && Paging.Lists(rows, JoinedOrganisations(db, user))
    requires forall i, j :: 0 <= i < j < |rows| ==> rows[i] != rows[j]
    ensures ListsOrganisationsOf(db, user, rows)
  {
    forall i | 0 <= i < |rows|
      ensures (rows[i].0, user) in db.members && rows[i].0 in db.organisations
              && rows[i].1 == db.organisations[rows[i].0]
    {
      assert rows[i] in JoinedOrganisations(db, user);
    }
    forall o | (o, user) in db.members ensures o in db.organisations && (o, db.organisations[o]) in rows {
      assert (o, user).0 in db.organisations;
      assert (o, db.organisations[o]) in JoinedOrganisations(db, user);
    }
  }

  // ---- Pages ----

  /** The items of the first `n` pages of a project listing, as they are returned. */
  ghost function ProjectPages(env: Env, db: Db, p: Principal, org: OrgId, f: ProjectFilter, limit: nat, n: nat)
    : seq<(ProjectId, Project)>
    requires ProjectAccess(db, p, org, ReadProjects) == None
  {
    if n == 0 then []
    else
      ProjectPages(env, db, p, org, f, limit, n - 1)
      + DecideListProjects(env, db, p, org, f, Window(limit, (n - 1) * limit)).body.projects
  }

  lemma {:induction false} ProjectPagesArePages(env: Env, db: Db, p: Principal, org: OrgId, f: ProjectFilter,
                                                limit: nat, n: nat)
    requires ProjectAccess(db, p, org, ReadProjects) == None
    ensures ProjectPages(env, db, p, org, f, limit, n)
            == Paging.Pages(Paging.Sorted(ProjectOrder(env, f), MatchingProjects(env, db, org, f)), limit, n)
  {
    if n > 0 {
      ProjectPagesArePages(env, db, p, org, f, limit, n - 1);
    }
  }

  /** Page after page returns every project that matches exactly once and in order, as many as the
      total says, and the opposite direction returns exactly the reverse. */
  lemma ProjectPagesPartition(env: Env, db: Db, p: Principal, org: OrgId, f: ProjectFilter, limit: nat, n: nat)
    requires ProjectAccess(db, p, org, ReadProjects) == None
    requires n * limit >= CountProjects(env, db, org, f)
    ensures var rows := ProjectPages(env, db, p, org, f, limit, n);
            && Paging.Lists(rows, MatchingProjects(env, db, org, f))
            && |rows| == CountProjects(env, db, org, f)
            && Paging.InOrder(ProjectOrder(env, f), rows)
            && ProjectPages(env, db, p, org, f.(descending := !f.descending), limit, n) == Paging.Reverse(rows)
  {
    var back := f.(descending := !f.descending);
    var order, flipped := ProjectOrder(env, f), ProjectOrder(env, back);
    var matching := MatchingProjects(env, db, org, f);
    ProjectTotalIsExact(env, db, org, f);
    ProjectPagesArePages(env, db, p, org, f, limit, n);
    ProjectPagesArePages(env, db, p, org, back, limit, n);
    assert MatchingProjects(env, db, org, back) == matching;
    Paging.PagesPartition(order, matching, limit, n);
    Paging.PagesPartition(flipped, matching, limit, n);
    Paging.SortedListsRows(order, matching);
    SameColumn(env, f);
    Paging.DescendingIsReverse(order, flipped, matching);
  }

  lemma SameColumn(env: Env, f: ProjectFilter)
    ensures Paging.Flips(ProjectOrder(env, f), ProjectOrder(env, f.(descending := !f.descending)))
  {
  }

  /** The window of a listing request. */
  function WindowOf(c: Command): Option<Window> {
    match c
    case ListOrganisations(w) => Some(w)
    case ListMembers(_, w) => Some(w)
    case ListApiKeys(_, w) => Some(w)
    case ListAudit(_, w) => Some(w)
    case ListProjects(_, _, w) => Some(w)
    case _ => None
  }

  /** How many items a page shows, and the total beside them. */
  function CountAndTotal(b: Body): Option<(nat, nat)> {
    match b
    case OrganisationsPage(tenants, total) => Some((|tenants|, total))
    case MembersPage(members, total) => Some((|members|, total))
    case ProjectsPage(projects, total) => Some((|projects|, total))
    case KeysPage(keys, total) => Some((|keys|, total))
    case AuditPage(events, total) => Some((|events|, total))
    case _ => None
  }

  ghost predicate PageAccepted(w: Window, b: Body) {
    && CountAndTotal(b).Some?
    && Paging.MetaAccepts(w.limit, w.offset, CountAndTotal(b).value.1, CountAndTotal(b).value.0)
  }

  lemma ProjectPagesAreAccepted(env: Env, db: Db, p: Principal, o: OrgId, f: ProjectFilter, w: Window)
    requires 1 <= w.limit <= 100
    ensures DecideListProjects(env, db, p, o, f, w).Reply?
            ==> PageAccepted(w, DecideListProjects(env, db, p, o, f, w).body)
  {
    hide ProjectAccess, MatchingProjects;
    ProjectTotalIsExact(env, db, o, f);
  }

  lemma MemberPagesAreAccepted(db: Db, u: UserId, o: OrgId, w: Window)
    requires 1 <= w.limit <= 100
    ensures DecideListMembers(db, u, o, w).Reply? ==> PageAccepted(w, DecideListMembers(db, u, o, w).body)
  {
    hide TenantAccess, MembersOf, KnownUsers, WithUsers;
    MemberTotalIsExact(db, o);
  }

  lemma KeyPagesAreAccepted(db: Db, u: UserId, o: OrgId, w: Window)
    requires 1 <= w.limit <= 100
    ensures DecideListApiKeys(db, u, o, w).Reply? ==> PageAccepted(w, DecideListApiKeys(db, u, o, w).body)
  {
    hide TenantAccess, KeysOf;
    KeyTotalIsExact(db, o);
  }

  lemma AuditPagesAreAccepted(db: Db, u: UserId, o: OrgId, w: Window)
    requires 1 <= w.limit <= 100
    ensures DecideListAudit(db, u, o, w).Reply? ==> PageAccepted(w, DecideListAudit(db, u, o, w).body)
  {
    hide TenantAccess;
  }

  lemma OrganisationPagesAreAccepted(env: Env, db: Db, u: UserId, w: Window)
    requires TablesOk(db) && 1 <= w.limit <= 100
    ensures PageAccepted(w, DecideListOrganisations(env, db, u, w).body)
  {
    hide TablesOk, JoinedOrganisations;
    JoinTotalIsExact(db, u);
  }

  lemma ListsAreAccepted(env: Env, db: Db, now: Time, p: Principal, c: Command)
    requires TablesOk(db) && WindowOf(c).Some? && 1 <= WindowOf(c).value.limit <= 100
    requires Decide(env, db, now, p, c).Reply?
    ensures PageAccepted(WindowOf(c).value, Decide(env, db, now, p, c).body)
  {
    hide TablesOk, PageAccepted, DecideListProjects, DecideListMembers, DecideListApiKeys, DecideListAudit,
      DecideListOrganisations;
    match c
    case ListOrganisations(w) => OrganisationPagesAreAccepted(env, db, p.user, w);
    case ListMembers(o, w) => MemberPagesAreAccepted(db, p.user, o, w);
    case ListApiKeys(o, w) => KeyPagesAreAccepted(db, p.user, o, w);
    case ListProjects(o, f, w) => ProjectPagesAreAccepted(env, db, p, o, f, w);
    case ListAudit(o, w) => AuditPagesAreAccepted(db, p.user, o, w);
  }

  lemma ListsOnlyReply(env: Env, db: Db, now: Time, p: Principal, c: Command)
    requires WindowOf(c).Some?
    ensures Decide(env, db, now, p, c).Reply? || Decide(env, db, now, p, c).Refuse?
  {
  }

  /** No page that any listing request returns in a reachable state is rejected by its own metadata. */
  lemma EveryPageIsAccepted(env: Env, st: State, r: Request)
    requires Reachable(env, st) && WindowOf(r.command).Some? && 1 <= WindowOf(r.command).value.limit <= 100
    requires Handle(env, st, r).1.Ok?
    ensures PageAccepted(WindowOf(r.command).value, Handle(env, st, r).1.body)
  {
    ReachableIsSound(env, st);
    PlansAreFaithful(env, st, r);
    hide Decide, Sound, PageAccepted, WindowOf, TablesOk, Faithful, Reachable;
    var plan := Prepare(env, st, r);
    NoWindowWhenOpen(r.command);
    var p := PlanPrincipal(env, st, r);
    ListsOnlyReply(env, plan.start.db, r.now, p, r.command);
    SoundHasTables(plan.start.db);
    ListsAreAccepted(env, plan.start.db, r.now, p, r.command);
  }

  lemma NoWindowWhenOpen(c: Command)
    requires WindowOf(c).Some?
    ensures !IsOpen(c)
  {
  }

  /** Whoever the request's credential resolved to decides on the tables the transaction starts from. */
  lemma PlanPrincipal(env: Env, st: State, r: Request) returns (p: Principal)
    requires !IsOpen(r.command) && Prepare(env, st, r).Work?
    ensures Prepare(env, st, r).decision == Decide(env, Prepare(env, st, r).start.db, r.now, p, r.command)
  {
    hide Decide;
    if ActiveUser(st.db, r.bearer).Some? {
      p := UserPrincipal(ActiveUser(st.db, r.bearer).value);
    } else {
      var k := KeyFor(st.db, r.bearer.digest).value;
      p := KeyPrincipal(k, st.db.keys[k].org);
    }
  }

  // ---- Defensive branches that never run ----

  lemma MembersAreUsers(db: Db, org: OrgId)
    requires TablesOk(db)
    ensures forall m :: m in MembersOf(db, org) ==> m.0 in db.users
  {
  }

  lemma PagesOfUsers(db: Db, rows: seq<(UserId, Membership)>, from: set<(UserId, Membership)>, w: Window)
    requires Paging.Lists(rows, from) && forall m :: m in from ==> m.0 in db.users
    ensures KnownUsers(db, Paging.Page(rows, w.limit, w.offset))
  {
    forall m | m in rows ensures m.0 in db.users {
      assert m in from;
    }
  }

  /** Listing members never misses a user. */
  lemma ListingFindsEveryUser(env: Env, st: State, actor: UserId, org: OrgId, w: Window)
    requires Reachable(env, st)
    ensures DecideListMembers(st.db, actor, org, w) != Refuse(TargetUserNotFound)
  {
    ReachableIsSound(env, st);
    hide TablesOk, MembersOf, Reachable, KnownUsers, WithUsers;
    MembersAreUsers(st.db, org);
    Paging.SortedListsRows(MEMBER_ORDER, MembersOf(st.db, org));
    PagesOfUsers(st.db, Paging.Sorted(MEMBER_ORDER, MembersOf(st.db, org)), MembersOf(st.db, org), w);
  }

  /** Changing a role never misses its user. */
  lemma RoleChangeFindsItsUser(env: Env, st: State, now: Time, actor: UserId, org: OrgId, target: UserId, role: Role)
    requires Reachable(env, st)
    ensures DecideUpdateMemberRole(st.db, now, actor, org, target, role) != Refuse(TargetUserNotFound)
  {
    ReachableIsSound(env, st);
  }

  /** After a revocation is answered the row is revoked, at the time the answer gives. */
  lemma RevokedMeansRevoked(env: Env, st: State, r: Request)
    requires r.command.RevokeApiKey? && Handle(env, st, r).1.Ok?
    ensures var (after, response) := Handle(env, st, r); var k := r.command.key;
            && k in after.db.keys && after.db.keys[k].org == r.command.org && after.db.keys[k].revokedAt.Some?
            && response.body == RevokedBody(k, r.command.org, after.db.keys[k].revokedAt.value)
            && (k in st.db.keys && st.db.keys[k].revokedAt.Some? ==> after == st)
  {
    hide TenantAccess;
  }

  /** The memberships of a user with their organisations, one by one; a membership whose organisation
      is missing is skipped. */
  function WithOrganisations(db: Db, rows: seq<(OrgId, Membership)>): seq<(OrgId, Organisation, Role)> {
    if rows == [] then []
    else
      var last := rows[|rows| - 1];
      WithOrganisations(db, rows[..|rows| - 1])
      + if last.0 in db.organisations then [(last.0, db.organisations[last.0], last.1.role)] else []
  }

  method CurrentUserMemberships(db: Db,
                                rows: seq<(OrgId, Membership)>) returns (shown: seq<(OrgId, Organisation, Role)>)
    ensures shown == WithOrganisations(db, rows)
  {
    shown := [];
    for i := 0 to |rows|
      invariant shown == WithOrganisations(db, rows[..i])
    {
      assert rows[..i + 1][..i] == rows[..i];
      if rows[i].0 in db.organisations {
        shown := shown + [(rows[i].0, db.organisations[rows[i].0], rows[i].1.role)];
      }
    }
    assert rows[..|rows|] == rows;
  }

  lemma {:induction false} NothingSkipped(db: Db, rows: seq<(OrgId, Membership)>)
    requires forall i :: 0 <= i < |rows| ==> rows[i].0 in db.organisations
    ensures var shown := WithOrganisations(db, rows);
            && |shown| == |rows|
            && forall i :: 0 <= i < |rows| ==> shown[i] == (rows[i].0, db.organisations[rows[i].0], rows[i].1.role)
  {
    if rows != [] {
      NothingSkipped(db, rows[..|rows| - 1]);
    }
  }

  /** The current user is shown every membership: the loop never skips one. */
  lemma CurrentUserSeesAllMemberships(env: Env, st: State, user: UserId, rows: seq<(OrgId, Membership)>)
    requires Reachable(env, st)
    requires forall i :: 0 <= i < |rows| ==> (rows[i].0, user) in st.db.members
    ensures var shown := WithOrganisations(st.db, rows);
            && |shown| == |rows|
            && forall i :: 0 <= i < |rows| ==> shown[i].0 == rows[i].0 && shown[i].2 == rows[i].1.role
  {
    ReachableIsSound(env, st);
    forall i | 0 <= i < |rows| ensures rows[i].0 in st.db.organisations {
      assert (rows[i].0, user).0 in st.db.organisations;
    }
    NothingSkipped(st.db, rows);
  }
}
