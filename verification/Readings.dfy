/** What every endpoint that reads answers, said of whole requests with the rows and fields themselves:
    which rows a listing holds, in which order, which part of it a page shows, and the total beside it. */
module Readings {
  import opened Domain
  import opened Store
  import opened Workflows
  import opened Ledger
  import opened Gate
  import opened Answers
  import Listings
  import Paging

  /** What a page shows of a listing. */
  function Cut<T>(rows: seq<T>, w: Window): seq<T> {
    if w.offset >= |rows| then []
    else if w.offset + w.limit >= |rows| then rows[w.offset..]
    else rows[w.offset..w.offset + w.limit]
  }

  lemma PageIsCut<T>(rows: seq<T>, w: Window)
    ensures Paging.Page(rows, w.limit, w.offset) == Cut(rows, w)
  {
  }

  /** Ascending by column and then by id, or descending by both. */
  predicate Before(descending: bool, a: real, i: nat, b: real, j: nat) {
    if descending then a > b || (a == b && i >= j) else a < b || (a == b && i <= j)
  }

  /** Sorted rows, for the listings that follow: `id` identifies rows and `before` is their order. */
  lemma SortedOnce<T(!new)>(order: Paging.Order<T>, rows: set<T>, id: T -> nat, before: (T, T) -> bool)
    requires forall x, y :: x in rows && y in rows && id(x) == id(y) ==> x == y
    requires forall x, y :: Paging.AtMost(order, x, y) ==> before(x, y)
    ensures var s := Paging.Sorted(order, rows);
            && (forall x :: x in s <==> x in rows)
            && (forall i, j :: 0 <= i < j < |s| ==> id(s[i]) != id(s[j]) && before(s[i], s[j]))
  {
    var s := Paging.Sorted(order, rows);
    Paging.SortedListsRows(order, rows);
    Paging.NoneTwice(s, rows);
    hide Paging.Sorted, Paging.AtMost;
    forall i, j | 0 <= i < j < |s| ensures id(s[i]) != id(s[j]) && before(s[i], s[j]) {
      assert s[i] in rows && s[j] in rows;
      assert Paging.AtMost(order, s[i], s[j]);
    }
  }

  // ---- Projects ----

  /** The bearer may read projects of the organisation: a member who signed in, or else a live key of
      the organisation. */
  ghost predicate Reads(db: Db, b: Bearer, o: OrgId, p: Principal) {
    match p
    case UserPrincipal(u) => SignedIn(db, b, u) && o in db.organisations && (o, u) in db.members
    case KeyPrincipal(k, own) =>
      (forall u :: !SignedIn(db, b, u)) && Opens(db, b, k) && db.keys[k].org == o && own == o
  }

  lemma ReaderHandled(env: Env, st: State, r: Request, p: Principal)
    requires Sound(st.db) && OnProjects(r.command) && r.fault == None && Reads(st.db, r.bearer, r.command.org, p)
    ensures var start := st.(db := Seen(st.db, p, r.now));
            && Handle(env, st, r) == Finish(start, DecideOnProjects(env, start.db, r.now, p, r.command), None)
            && ProjectAccess(start.db, p, r.command.org, ReadProjects) == None
  {
    hide DecideOnProjects, Finish, Sound;
    match p
    case UserPrincipal(u) =>
      UserHandled(env, st, r, u);
      RolesOfPermission(st.db.members[(r.command.org, u)].role, ReadProjects);
      hide PermissionsForRole, Handle;
    case KeyPrincipal(k, _) =>
      KeyHandled(env, st, r, k);
      hide Handle;
  }

  /** The row passes the filters: not deleted, of the organisation, of the status asked for, and like
      the search unless that is empty. */
  predicate Selected(env: Env, o: OrgId, f: ProjectFilter, row: Project) {
    && row.org == o
    && row.deletedAt == None
    && (f.status == None || f.status == Some(row.status))
    && (f.name == None || f.name == Some("") || env.like(row.name, f.name.value))
  }

  predicate ProjectBefore(env: Env, f: ProjectFilter, x: (ProjectId, Project), y: (ProjectId, Project)) {
    match f.sort
    case ByCreatedAt => Before(f.descending, x.1.createdAt as real, x.0, y.1.createdAt as real, y.0)
    case ByName => Before(f.descending, env.collate(x.1.name), x.0, env.collate(y.1.name), y.0)
    case ByStatus =>
      Before(f.descending, env.collate(if x.1.status == Active then "active" else "archived"), x.0,
             env.collate(if y.1.status == Active then "active" else "archived"), y.0)
  }

  /** The selected projects, each once, in the order asked for. */
  ghost predicate ProjectListing(env: Env, db: Db, o: OrgId, f: ProjectFilter, rows: seq<(ProjectId, Project)>) {
    && (forall x :: x in rows <==> x.0 in db.projects && x.1 == db.projects[x.0] && Selected(env, o, f, x.1))
    && (forall i, j :: 0 <= i < j < |rows| ==> rows[i].0 != rows[j].0 && ProjectBefore(env, f, rows[i], rows[j]))
  }

  lemma MatchesSelected(env: Env, o: OrgId, f: ProjectFilter, row: Project)
    ensures ProjectMatches(env, o, f, row) <==> Selected(env, o, f, row)
  {
  }

  lemma MatchingAreSelected(env: Env, db: Db, o: OrgId, f: ProjectFilter, x: (ProjectId, Project))
    ensures x in MatchingProjects(env, db, o, f)
            <==> x.0 in db.projects && x.1 == db.projects[x.0] && Selected(env, o, f, x.1)
  {
    MatchesSelected(env, o, f, x.1);
    hide ProjectMatches, Selected;
    assert x == (x.0, x.1);
  }

  lemma ProjectOrderIsBefore(env: Env, f: ProjectFilter, x: (ProjectId, Project), y: (ProjectId, Project))
    ensures Paging.AtMost(ProjectOrder(env, f), x, y) <==> ProjectBefore(env, f, x, y)
  {
    match f.sort
    case ByCreatedAt =>
    case ByName =>
    case ByStatus =>
      assert StatusText(x.1.status) == if x.1.status == Active then "active" else "archived";
      assert StatusText(y.1.status) == if y.1.status == Active then "active" else "archived";
  }

  lemma ProjectsSortedOnce(env: Env, db: Db, o: OrgId, f: ProjectFilter)
    ensures var rows := Paging.Sorted(ProjectOrder(env, f), MatchingProjects(env, db, o, f));
            && (forall x :: x in rows <==> x in MatchingProjects(env, db, o, f))
            && (forall i, j :: 0 <= i < j < |rows| ==>
                  rows[i].0 != rows[j].0 && ProjectBefore(env, f, rows[i], rows[j]))
  {
    var matching := MatchingProjects(env, db, o, f);
    hide ProjectOrder, MatchingProjects, Paging.AtMost, ProjectBefore, Selected;
    forall x, y | x in matching && y in matching && x.0 == y.0 ensures x == y {
      MatchingAreSelected(env, db, o, f, x);
      MatchingAreSelected(env, db, o, f, y);
    }
    forall x, y ensures Paging.AtMost(ProjectOrder(env, f), x, y) <==> ProjectBefore(env, f, x, y) {
      ProjectOrderIsBefore(env, f, x, y);
    }
    SortedOnce(ProjectOrder(env, f), matching, (x: (ProjectId, Project)) => x.0, (x, y) => ProjectBefore(env, f, x, y));
  }

  lemma SortedProjects(env: Env, db: Db, o: OrgId, f: ProjectFilter)
    ensures ProjectListing(env, db, o, f, Paging.Sorted(ProjectOrder(env, f), MatchingProjects(env, db, o, f)))
  {
    hide ProjectOrder, MatchingProjects, ProjectBefore, Selected;
    ProjectsSortedOnce(env, db, o, f);
    forall x ensures x in MatchingProjects(env, db, o, f)
                     <==> x.0 in db.projects && x.1 == db.projects[x.0] && Selected(env, o, f, x.1) {
      MatchingAreSelected(env, db, o, f, x);
    }
  }

  /** Listing projects. */
  lemma ListProjectsAnswers(env: Env, st: State, r: Request, p: Principal)
    requires Sound(st.db) && r.command.ListProjects? && r.fault == None && Reads(st.db, r.bearer, r.command.org, p)
    ensures exists rows :: ProjectListing(env, st.db, r.command.org, r.command.filter, rows)
                           && Handle(env, st, r)
                              == (st.(db := Seen(st.db, p, r.now)),
                                  Ok(ProjectsPage(Cut(rows, r.command.window), |rows|)))
  {
    ReaderHandled(env, st, r, p);
    var c, db := r.command, Seen(st.db, p, r.now);
    var rows := Paging.Sorted(ProjectOrder(env, c.filter), MatchingProjects(env, db, c.org, c.filter));
    hide Sound, Handle, Reads, ProjectAccess, MatchingProjects, ProjectOrder, Paging.Page, Cut;
    SortedProjects(env, db, c.org, c.filter);
    Listings.ProjectTotalIsExact(env, db, c.org, c.filter);
    PageIsCut(rows, c.window);
    SameListing(env, db, st.db, c.org, c.filter, rows);
    hide CountProjects, ProjectListing, Seen;
  }

  lemma SameListing(env: Env, db: Db, other: Db, o: OrgId, f: ProjectFilter, rows: seq<(ProjectId, Project)>)
    requires db.projects == other.projects
    ensures ProjectListing(env, db, o, f, rows) == ProjectListing(env, other, o, f, rows)
  {
  }

  /** There is only one listing, so all pages of it are cut from the same rows. */
  lemma ListingIsUnique(env: Env, db: Db, o: OrgId, f: ProjectFilter,
                        rows: seq<(ProjectId, Project)>, others: seq<(ProjectId, Project)>)
    requires ProjectListing(env, db, o, f, rows) && ProjectListing(env, db, o, f, others)
    ensures rows == others
  {
    ListingIsSorted(env, db, o, f, rows);
    ListingIsSorted(env, db, o, f, others);
  }

  lemma ListingIsSorted(env: Env, db: Db, o: OrgId, f: ProjectFilter, rows: seq<(ProjectId, Project)>)
    requires ProjectListing(env, db, o, f, rows)
    ensures rows == Paging.Sorted(ProjectOrder(env, f), MatchingProjects(env, db, o, f))
  {
    var order, matching := ProjectOrder(env, f), MatchingProjects(env, db, o, f);
    assert Paging.DistinctIds(order, matching);
    hide ProjectOrder, MatchingProjects, Paging.AtMost, ProjectBefore, Selected, Paging.DistinctIds;
    forall x ensures x in rows <==> x in matching {
      MatchingAreSelected(env, db, o, f, x);
    }
    ListedOnce(rows, matching);
    forall i, j | 0 <= i < j < |rows| ensures Paging.AtMost(order, rows[i], rows[j]) {
      ProjectOrderIsBefore(env, f, rows[i], rows[j]);
    }
    Paging.OrderIsUnique(order, matching, rows);
  }

  /** A list without repetitions has as many entries as members. */
  lemma {:induction false} ListedOnce<T(!new)>(s: seq<T>, rows: set<T>)
    requires forall x :: x in s <==> x in rows
    requires forall i, j :: 0 <= i < j < |s| ==> s[i] != s[j]
    ensures |s| == |rows|
  {
    if s == [] {
      assert rows == {};
    } else {
      var tail := s[1..];
      assert s == [s[0]] + tail;
      forall x ensures x in tail <==> x in rows - {s[0]} {
        assert x in s <==> x == s[0] || x in tail;
        if x in tail {
          var k :| 0 <= k < |tail| && tail[k] == x;
          assert s[k + 1] == x;
        }
      }
      ListedOnce(tail, rows - {s[0]});
    }
  }

  /** Page after page, exactly the selected projects appear, and the total is their number. */
  lemma PagesSelect(env: Env, db: Db, p: Principal, o: OrgId, f: ProjectFilter, limit: nat, n: nat)
    requires ProjectAccess(db, p, o, ReadProjects) == None
    requires n * limit >= |set id | id in db.projects && Selected(env, o, f, db.projects[id])|
    ensures ProjectListing(env, db, o, f, Listings.ProjectPages(env, db, p, o, f, limit, n))
    ensures CountProjects(env, db, o, f) == |set id | id in db.projects && Selected(env, o, f, db.projects[id])|
  {
    assert MatchingIds(env, db, o, f) == set id | id in db.projects && Selected(env, o, f, db.projects[id]);
    SortedProjects(env, db, o, f);
    PagesSorted(env, db, p, o, f, limit, n);
  }

  lemma PagesSorted(env: Env, db: Db, p: Principal, o: OrgId, f: ProjectFilter, limit: nat, n: nat)
    requires ProjectAccess(db, p, o, ReadProjects) == None && n * limit >= CountProjects(env, db, o, f)
    ensures Listings.ProjectPages(env, db, p, o, f, limit, n)
            == Paging.Sorted(ProjectOrder(env, f), MatchingProjects(env, db, o, f))
  {
    var order, matching := ProjectOrder(env, f), MatchingProjects(env, db, o, f);
    hide ProjectAccess, ProjectOrder, MatchingProjects;
    Listings.ProjectTotalIsExact(env, db, o, f);
    Listings.ProjectPagesArePages(env, db, p, o, f, limit, n);
    Paging.PagesPartition(order, matching, limit, n);
  }

  /** Reading a project. */
  lemma GetProjectAnswers(env: Env, st: State, r: Request, p: Principal)
    requires Sound(st.db) && r.command.GetProject? && r.fault == None && Reads(st.db, r.bearer, r.command.org, p)
    ensures var c, seen := r.command, st.(db := Seen(st.db, p, r.now));
            Handle(env, st, r)
            == if Live(st.db, c.org, c.project) then (seen, Ok(ProjectBody(c.project, st.db.projects[c.project])))
               else (seen, Failed(ProjectNotFound))
  {
    ReaderHandled(env, st, r, p);
    hide Sound, Handle, Reads, ProjectAccess;
  }

  // ---- Members ----

  /** The members of the organisation, each once, by date of joining and then by the id of the
      membership. */
  ghost predicate MemberListing(db: Db, o: OrgId, rows: seq<(UserId, Membership)>) {
    && (forall x :: x in rows <==> (o, x.0) in db.members && x.1 == db.members[(o, x.0)])
    && (forall i, j :: 0 <= i < j < |rows| ==> rows[i].0 != rows[j].0 && MemberBefore(rows[i], rows[j]))
    && (forall i :: 0 <= i < |rows| ==> rows[i].0 in db.users)
  }

  predicate MemberBefore(x: (UserId, Membership), y: (UserId, Membership)) {
    Before(false, x.1.createdAt as real, x.1.id, y.1.createdAt as real, y.1.id)
  }

  function WithAccounts(db: Db, rows: seq<(UserId, Membership)>): seq<(UserId, Membership, User)>
    requires forall i :: 0 <= i < |rows| ==> rows[i].0 in db.users
  {
    seq(|rows|, i requires 0 <= i < |rows| => (rows[i].0, rows[i].1, db.users[rows[i].0]))
  }

  lemma MembersOfAre(db: Db, o: OrgId, x: (UserId, Membership))
    ensures x in MembersOf(db, o) <==> (o, x.0) in db.members && x.1 == db.members[(o, x.0)]
  {
    if (o, x.0) in db.members && x.1 == db.members[(o, x.0)] {
      assert x == ((o, x.0).1, db.members[(o, x.0)]);
    }
  }

  lemma MemberOrderIsBefore(x: (UserId, Membership), y: (UserId, Membership))
    ensures Paging.AtMost(MEMBER_ORDER, x, y) <==> MemberBefore(x, y)
  {
  }

  lemma SortedMembers(db: Db, o: OrgId)
    requires TablesOk(db)
    ensures MemberListing(db, o, Paging.Sorted(MEMBER_ORDER, MembersOf(db, o)))
  {
    Listings.MembersAreUsers(db, o);
    hide TablesOk, MembersOf, MemberBefore;
    MembersSortedOnce(db, o);
    forall x ensures x in MembersOf(db, o) <==> (o, x.0) in db.members && x.1 == db.members[(o, x.0)] {
      MembersOfAre(db, o, x);
    }
  }

  lemma MembersSortedOnce(db: Db, o: OrgId)
    ensures var rows := Paging.Sorted(MEMBER_ORDER, MembersOf(db, o));
            && (forall x :: x in rows <==> x in MembersOf(db, o))
            && (forall i, j :: 0 <= i < j < |rows| ==> rows[i].0 != rows[j].0 && MemberBefore(rows[i], rows[j]))
  {
    forall x, y | x in MembersOf(db, o) && y in MembersOf(db, o) && x.0 == y.0 ensures x == y {
      MembersOfAre(db, o, x);
      MembersOfAre(db, o, y);
    }
    hide MembersOf, Paging.AtMost, MemberBefore;
    forall x, y ensures Paging.AtMost(MEMBER_ORDER, x, y) <==> MemberBefore(x, y) {
      MemberOrderIsBefore(x, y);
    }
    SortedOnce(MEMBER_ORDER, MembersOf(db, o), (x: (UserId, Membership)) => x.0, (x, y) => MemberBefore(x, y));
  }

  lemma CutOfMembers(db: Db, rows: seq<(UserId, Membership)>, w: Window)
    requires forall i :: 0 <= i < |rows| ==> rows[i].0 in db.users
    ensures KnownUsers(db, Cut(rows, w)) && WithUsers(db, Cut(rows, w)) == Cut(WithAccounts(db, rows), w)
  {
  }

  /** Listing members, with their accounts. */
  lemma ListMembersAnswers(env: Env, st: State, r: Request, u: UserId)
    requires TablesOk(st.db) && r.command.ListMembers? && SignedIn(st.db, r.bearer, u)
    requires Manages(st.db, r.command.org, u)
    ensures exists rows :: MemberListing(st.db, r.command.org, rows)
                           && Handle(env, st, r)
                              == (st, Ok(MembersPage(Cut(WithAccounts(st.db, rows), r.command.window), |rows|)))
  {
    var c := r.command;
    UserHandled(env, st, r, u);
    hide Handle, SignedIn, TenantAccess;
    ManagersAreGranted(st.db, c.org, u, ManageMembers);
    hide Manages, MembersOf, CountMembers, Paging.Page, Cut, KnownUsers, WithUsers, WithAccounts;
    SortedMembers(st.db, c.org);
    Listings.MemberTotalIsExact(st.db, c.org);
    hide TablesOk;
    var rows := Paging.Sorted(MEMBER_ORDER, MembersOf(st.db, c.org));
    PageIsCut(rows, c.window);
    CutOfMembers(st.db, rows, c.window);
    assert MemberListing(st.db, c.org, rows);
    hide MemberListing;
  }

  // ---- API keys ----

  /** The keys of the organisation, each once, newest first. */
  ghost predicate KeyListing(db: Db, o: OrgId, rows: seq<(KeyId, ApiKey)>) {
    && (forall x :: x in rows <==> x.0 in db.keys && x.1 == db.keys[x.0] && x.1.org == o)
    && (forall i, j :: 0 <= i < j < |rows| ==> rows[i].0 != rows[j].0 && KeyBefore(rows[i], rows[j]))
  }

  predicate KeyBefore(x: (KeyId, ApiKey), y: (KeyId, ApiKey)) {
    Before(true, x.1.createdAt as real, x.0, y.1.createdAt as real, y.0)
  }

  lemma KeysOfAre(db: Db, o: OrgId, x: (KeyId, ApiKey))
    ensures x in KeysOf(db, o) <==> x.0 in db.keys && x.1 == db.keys[x.0] && x.1.org == o
  {
    assert x == (x.0, x.1);
  }

  lemma KeyOrderIsBefore(x: (KeyId, ApiKey), y: (KeyId, ApiKey))
    ensures Paging.AtMost(KEY_ORDER, x, y) <==> KeyBefore(x, y)
  {
  }

  lemma KeysSortedOnce(db: Db, o: OrgId)
    ensures var rows := Paging.Sorted(KEY_ORDER, KeysOf(db, o));
            && (forall x :: x in rows <==> x in KeysOf(db, o))
            && (forall i, j :: 0 <= i < j < |rows| ==> rows[i].0 != rows[j].0 && KeyBefore(rows[i], rows[j]))
  {
    hide KeysOf, Paging.AtMost, KeyBefore;
    forall x, y | x in KeysOf(db, o) && y in KeysOf(db, o) && x.0 == y.0 ensures x == y {
      KeysOfAre(db, o, x);
      KeysOfAre(db, o, y);
    }
    forall x, y ensures Paging.AtMost(KEY_ORDER, x, y) <==> KeyBefore(x, y) {
      KeyOrderIsBefore(x, y);
    }
    SortedOnce(KEY_ORDER, KeysOf(db, o), (x: (KeyId, ApiKey)) => x.0, (x, y) => KeyBefore(x, y));
  }

  lemma SortedKeys(db: Db, o: OrgId)
    ensures KeyListing(db, o, Paging.Sorted(KEY_ORDER, KeysOf(db, o)))
  {
    hide KeysOf, KeyBefore;
    KeysSortedOnce(db, o);
    forall x ensures x in KeysOf(db, o) <==> x.0 in db.keys && x.1 == db.keys[x.0] && x.1.org == o {
      KeysOfAre(db, o, x);
    }
  }

  /** Listing API keys. */
  lemma ListApiKeysAnswers(env: Env, st: State, r: Request, u: UserId)
    requires r.command.ListApiKeys? && SignedIn(st.db, r.bearer, u) && Manages(st.db, r.command.org, u)
    ensures exists rows :: KeyListing(st.db, r.command.org, rows)
                           && Handle(env, st, r) == (st, Ok(KeysPage(Cut(rows, r.command.window), |rows|)))
  {
    var c := r.command;
    UserHandled(env, st, r, u);
    hide Handle, SignedIn, TenantAccess;
    ManagersAreGranted(st.db, c.org, u, ManageApiKeys);
    hide Manages, KeysOf, CountKeys, Paging.Page, Cut, KeyListing;
    SortedKeys(st.db, c.org);
    Listings.KeyTotalIsExact(st.db, c.org);
    var rows := Paging.Sorted(KEY_ORDER, KeysOf(st.db, c.org));
    PageIsCut(rows, c.window);
    assert KeyListing(st.db, c.org, rows);
  }

  // ---- Organisations ----

  /** The organisations the user is a member of, each once, by name and then by id. */
  ghost predicate OrganisationListing(env: Env, db: Db, u: UserId, rows: seq<(OrgId, Organisation)>) {
    && (forall x :: x in rows
                    <==> (x.0, u) in db.members && x.0 in db.organisations && x.1 == db.organisations[x.0])
    && (forall i, j :: 0 <= i < j < |rows| ==>
          rows[i].0 != rows[j].0 && OrganisationBefore(env, rows[i], rows[j]))
  }

  predicate OrganisationBefore(env: Env, x: (OrgId, Organisation), y: (OrgId, Organisation)) {
    Before(false, env.collate(x.1.name), x.0, env.collate(y.1.name), y.0)
  }

  lemma JoinedAre(db: Db, u: UserId, x: (OrgId, Organisation))
    ensures x in JoinedOrganisations(db, u)
            <==> (x.0, u) in db.members && x.0 in db.organisations && x.1 == db.organisations[x.0]
  {
    if (x.0, u) in db.members && x.0 in db.organisations && x.1 == db.organisations[x.0] {
      assert x == ((x.0, u).0, db.organisations[(x.0, u).0]);
    }
  }

  lemma OrganisationOrderIsBefore(env: Env, x: (OrgId, Organisation), y: (OrgId, Organisation))
    ensures Paging.AtMost(OrganisationOrder(env), x, y) <==> OrganisationBefore(env, x, y)
  {
  }

  lemma OrganisationsSortedOnce(env: Env, db: Db, u: UserId)
    ensures var rows := Paging.Sorted(OrganisationOrder(env), JoinedOrganisations(db, u));
            && (forall x :: x in rows <==> x in JoinedOrganisations(db, u))
            && (forall i, j :: 0 <= i < j < |rows| ==>
                  rows[i].0 != rows[j].0 && OrganisationBefore(env, rows[i], rows[j]))
  {
    hide JoinedOrganisations, OrganisationOrder, Paging.AtMost, OrganisationBefore;
    forall x, y | x in JoinedOrganisations(db, u) && y in JoinedOrganisations(db, u) && x.0 == y.0 ensures x == y {
      JoinedAre(db, u, x);
      JoinedAre(db, u, y);
    }
    forall x, y ensures Paging.AtMost(OrganisationOrder(env), x, y) <==> OrganisationBefore(env, x, y) {
      OrganisationOrderIsBefore(env, x, y);
    }
    SortedOnce(OrganisationOrder(env), JoinedOrganisations(db, u), (x: (OrgId, Organisation)) => x.0,
               (x, y) => OrganisationBefore(env, x, y));
  }

  lemma SortedOrganisations(env: Env, db: Db, u: UserId)
    ensures OrganisationListing(env, db, u, Paging.Sorted(OrganisationOrder(env), JoinedOrganisations(db, u)))
  {
    hide JoinedOrganisations, OrganisationOrder, OrganisationBefore;
    OrganisationsSortedOnce(env, db, u);
    forall x ensures x in JoinedOrganisations(db, u)
                     <==> (x.0, u) in db.members && x.0 in db.organisations && x.1 == db.organisations[x.0] {
      JoinedAre(db, u, x);
    }
  }

  /** Listing one's organisations. */
  lemma ListOrganisationsAnswers(env: Env, st: State, r: Request, u: UserId)
    requires TablesOk(st.db) && r.command.ListOrganisations? && SignedIn(st.db, r.bearer, u)
    ensures exists rows :: OrganisationListing(env, st.db, u, rows)
                           && Handle(env, st, r) == (st, Ok(OrganisationsPage(Cut(rows, r.command.window), |rows|)))
  {
    var w := r.command.window;
    UserHandled(env, st, r, u);
    hide Handle, SignedIn, JoinedOrganisations, OrganisationOrder, CountMemberships, Paging.Page, Cut,
      OrganisationListing;
    SortedOrganisations(env, st.db, u);
    Listings.JoinTotalIsExact(st.db, u);
    hide TablesOk;
    var rows := Paging.Sorted(OrganisationOrder(env), JoinedOrganisations(st.db, u));
    PageIsCut(rows, w);
    assert OrganisationListing(env, st.db, u, rows);
  }

  /** Reading an organisation: every member may. */
  lemma GetOrganisationAnswers(env: Env, st: State, r: Request, u: UserId)
    requires r.command.GetOrganisation? && SignedIn(st.db, r.bearer, u)
    requires r.command.org in st.db.organisations && (r.command.org, u) in st.db.members
    ensures Handle(env, st, r) == (st, Ok(OrganisationBody(r.command.org, st.db.organisations[r.command.org])))
  {
    UserHandled(env, st, r, u);
    RolesOfPermission(st.db.members[(r.command.org, u)].role, ReadOrganisation);
    hide Handle, SignedIn, PermissionsForRole;
  }

  // ---- The audit log ----

  /** The positions of the organisation's events in the log, each once, from the last to the first. */
  ghost predicate AuditListing(log: seq<AuditEvent>, o: OrgId, at: seq<nat>) {
    && (forall i :: 0 <= i < |at| ==> at[i] < |log|)
    && (forall k: nat :: k in at <==> k < |log| && log[k].org == Some(o))
    && (forall i, j :: 0 <= i < j < |at| ==> at[i] > at[j])
  }

  function EventsAt(log: seq<AuditEvent>, at: seq<nat>): seq<AuditEvent>
    requires forall i :: 0 <= i < |at| ==> at[i] < |log|
  {
    seq(|at|, i requires 0 <= i < |at| => log[at[i]])
  }

  function Positions(log: seq<AuditEvent>, o: OrgId): seq<nat> {
    if log == [] then []
    else (if log[|log| - 1].org == Some(o) then [|log| - 1] else []) + Positions(log[..|log| - 1], o)
  }

  lemma {:induction false} PositionsListed(log: seq<AuditEvent>, o: OrgId)
    ensures AuditListing(log, o, Positions(log, o))
  {
    if log != [] {
      var n := |log| - 1;
      PositionsListed(log[..n], o);
      var rest, at := Positions(log[..n], o), Positions(log, o);
      var first: seq<nat> := if log[n].org == Some(o) then [n] else [];
      assert at == first + rest;
      forall k: nat ensures k in at <==> k < |log| && log[k].org == Some(o) {
        assert k in at <==> k in first || k in rest;
        assert k < n ==> log[..n][k] == log[k];
      }
      forall i | 0 <= i < |at| ensures at[i] < |log| {
        assert at[i] in at;
      }
      forall i, j | 0 <= i < j < |at| ensures at[i] > at[j] {
        assert at[j] == rest[j - |first|] && at[j] in rest;
      }
    }
  }

  lemma {:induction false} EventsNewestFirst(log: seq<AuditEvent>, o: OrgId)
    ensures var at := Positions(log, o); forall i :: 0 <= i < |at| ==> at[i] < |log|
    ensures Paging.Reverse(EventsOf(log, o)) == EventsAt(log, Positions(log, o))
  {
    PositionsListed(log, o);
    if log != [] {
      var n := |log| - 1;
      EventsNewestFirst(log[..n], o);
      PositionsListed(log[..n], o);
      var rest, older := Positions(log[..n], o), EventsOf(log[..n], o);
      assert EventsAt(log[..n], rest) == EventsAt(log, rest);
      if log[n].org == Some(o) {
        assert EventsOf(log, o) == older + [log[n]];
        assert Paging.Reverse(older + [log[n]]) == [log[n]] + Paging.Reverse(older);
        assert Positions(log, o) == [n] + rest;
        assert EventsAt(log, [n] + rest) == [log[n]] + EventsAt(log, rest);
      } else {
        assert EventsOf(log, o) == older;
        assert Positions(log, o) == rest;
      }
    }
  }

  /** Listing the audit log: the organisation's events only, newest first. */
  lemma ListAuditAnswers(env: Env, st: State, r: Request, u: UserId)
    requires r.command.ListAudit? && SignedIn(st.db, r.bearer, u) && Manages(st.db, r.command.org, u)
    ensures exists at :: AuditListing(st.db.log, r.command.org, at)
                         && Handle(env, st, r)
                            == (st, Ok(AuditPage(Cut(EventsAt(st.db.log, at), r.command.window), |at|)))
  {
    var c := r.command;
    UserHandled(env, st, r, u);
    hide Handle, SignedIn, TenantAccess;
    ManagersAreGranted(st.db, c.org, u, ReadAuditEvents);
    hide Manages, Paging.Page, Cut, EventsOf;
    var at := Positions(st.db.log, c.org);
    EventsNewestFirst(st.db.log, c.org);
    PositionsListed(st.db.log, c.org);
    PageIsCut(EventsAt(st.db.log, at), c.window);
    assert AuditListing(st.db.log, c.org, at);
  }

  // ---- The current user ----

  /** The memberships shown to the current user are those of the rows before, the row itself with its
      organisation and role unless the organisation is missing, and those of the rows after. */
  lemma {:induction false} MembershipsShown(db: Db, before: seq<(OrgId, Membership)>, row: (OrgId, Membership),
                                            after: seq<(OrgId, Membership)>)
    ensures Listings.WithOrganisations(db, []) == []
    ensures Listings.WithOrganisations(db, before + [row] + after)
            == Listings.WithOrganisations(db, before)
               + (if row.0 in db.organisations then [(row.0, db.organisations[row.0], row.1.role)] else [])
               + Listings.WithOrganisations(db, after)
  {
    var rows := before + [row] + after;
    if after == [] {
      assert rows[..|rows| - 1] == before && rows[|rows| - 1] == row;
    } else {
      var n := |after| - 1;
      assert rows[..|rows| - 1] == before + [row] + after[..n] && rows[|rows| - 1] == after[n];
      MembershipsShown(db, before, row, after[..n]);
    }
  }
}
