/** The audit log read as a history: what it rebuilds, when it certifies itself, and what follows
    for every certified log. Nothing here looks at the tables. */
module AuditLog {
  import opened Domain
  import W = Workflows

  datatype ProjectEntry = ProjectEntry(org: OrgId, live: bool)
  datatype KeyEntry = KeyEntry(org: OrgId, active: bool)

  /** What the log tells about the tables. */
  datatype View = View(
    users: set<UserId>,
    orgs: set<OrgId>,
    members: map<(OrgId, UserId), Role>,
    projects: map<ProjectId, ProjectEntry>,
    keys: map<KeyId, KeyEntry>)

  const BLANK := View({}, {}, map[], map[], map[])

  function Absorb(v: View, e: AuditEvent): View {
    if e.fact.UserRegistered? then v.(users := v.users + {e.target})
    else if e.org.None? then v
    else
      var o := e.org.value;
      match e.fact
      case OrganisationCreated =>
        if e.actorUser.None? then v
        else v.(orgs := v.orgs + {e.target}, members := v.members[(o, e.actorUser.value) := Owner])
      case MemberAdded(u, role) => v.(members := v.members[(o, u) := role])
      case MemberRoleChanged(u, _, role) => v.(members := v.members[(o, u) := role])
      case MemberRemoved(u, _) => v.(members := v.members - {(o, u)})
      case ProjectCreated(_, _) => v.(projects := v.projects[e.target := ProjectEntry(o, true)])
      case ProjectDeleted(_) => v.(projects := v.projects[e.target := ProjectEntry(o, false)])
      case ApiKeyCreated(_, _) => v.(keys := v.keys[e.target := KeyEntry(o, true)])
      case ApiKeyRevoked(_, _) => v.(keys := v.keys[e.target := KeyEntry(o, false)])
      case _ => v
  }

  function Replay(log: seq<AuditEvent>): View {
    if log == [] then BLANK else Absorb(Replay(log[..|log| - 1]), log[|log| - 1])
  }

  // ---- When an event is permitted by the history before it ----

  predicate IsOwner(v: View, o: OrgId, u: UserId) {
    (o, u) in v.members && v.members[(o, u)] == Owner
  }

  ghost function Owners(v: View, o: OrgId): set<UserId> {
    set m | m in v.members && m.0 == o && v.members[m] == Owner :: m.1
  }

  ghost predicate AnotherOwner(v: View, o: OrgId, u: UserId) {
    exists w :: w != u && IsOwner(v, o, w)
  }

  predicate IsProjectFact(fact: Fact) {
    fact.ProjectCreated? || fact.ProjectUpdated? || fact.ProjectDeleted?
  }

  /** The permission the role table asks for before the fact may happen. */
  function Needed(fact: Fact): Permission {
    match fact
    case MemberAdded(_, _) => ManageMembers
    case MemberRoleChanged(_, _, _) => ManageMembers
    case MemberRemoved(_, _) => ManageMembers
    case ApiKeyCreated(_, _) => ManageApiKeys
    case ApiKeyRevoked(_, _) => ManageApiKeys
    case OrganisationUpdated(_) => UpdateOrganisation
    case _ => WriteProjects
  }

  /** A member whose replayed role has the permission, or an unrevoked key of the organisation on
      a project. */
  ghost predicate ActorMay(v: View, o: OrgId, e: AuditEvent) {
    if e.actorUser.Some? then
      (o, e.actorUser.value) in v.members && Needed(e.fact) in PermissionsForRole(v.members[(o, e.actorUser.value)])
    else
      e.actorKey.Some? && e.actorKey.value in v.keys && v.keys[e.actorKey.value] == KeyEntry(o, true)
      && IsProjectFact(e.fact)
  }

  /** The actor may manage the roles involved, the recorded old role is the replayed one, and an
      owner who goes or steps down leaves another owner behind. */
  ghost predicate RoleChangeFits(v: View, o: OrgId, e: AuditEvent, u: UserId, from: Option<Role>, to: Option<Role>) {
    && e.actorUser.Some? && (o, e.actorUser.value) in v.members
    && W.RoleManagementAllowed(v.members[(o, e.actorUser.value)], from, to)
    && (from.None? <==> (o, u) !in v.members)
    && (from.Some? ==> v.members[(o, u)] == from.value)
    && (from == Some(Owner) && to != Some(Owner) ==> AnotherOwner(v, o, u))
  }

  /** The fact is about something that is there in the replayed state. */
  ghost predicate FactFits(v: View, o: OrgId, e: AuditEvent) {
    match e.fact
    case MemberAdded(u, role) => u in v.users && RoleChangeFits(v, o, e, u, None, Some(role))
    case MemberRoleChanged(u, from, to) => RoleChangeFits(v, o, e, u, Some(from), Some(to))
    case MemberRemoved(u, role) => RoleChangeFits(v, o, e, u, Some(role), None)
    case ProjectCreated(_, _) => e.target !in v.projects
    case ProjectUpdated(_) => e.target in v.projects && v.projects[e.target] == ProjectEntry(o, true)
    case ProjectDeleted(_) => e.target in v.projects && v.projects[e.target] == ProjectEntry(o, true)
    case ApiKeyCreated(_, _) => e.target !in v.keys
    case ApiKeyRevoked(_, _) => e.target in v.keys && v.keys[e.target] == KeyEntry(o, true)
    case _ => true
  }

  ghost predicate Permitted(v: View, e: AuditEvent) {
    && (e.actorUser.Some? <==> e.actorKey.None?)
    && match e.fact
       case UserRegistered => e.org == None && e.actorUser == Some(e.target) && e.target !in v.users
       case UserLoggedIn => e.org == None && e.actorUser == Some(e.target) && e.target in v.users
       case OrganisationCreated =>
         e.org == Some(e.target) && e.target !in v.orgs && e.actorUser.Some? && e.actorUser.value in v.users
       case _ => e.org.Some? && e.org.value in v.orgs && ActorMay(v, e.org.value, e) && FactFits(v, e.org.value, e)
  }

  /** Every entry is permitted by the entries before it. */
  ghost predicate Certified(log: seq<AuditEvent>) {
    log != [] ==> Certified(log[..|log| - 1]) && Permitted(Replay(log[..|log| - 1]), log[|log| - 1])
  }

  /** Position by position: replaying what comes before an entry is enough to permit it. */
  lemma {:induction false} CertifiedPointwise(log: seq<AuditEvent>)
    ensures Certified(log) <==> forall i :: 0 <= i < |log| ==> Permitted(Replay(log[..i]), log[i])
  {
    hide Permitted, Absorb, Replay;
    if log != [] {
      var n := |log| - 1;
      CertifiedPointwise(log[..n]);
      forall i | 0 <= i < n ensures log[..n][..i] == log[..i] && log[..n][i] == log[i] {
      }
    }
  }

  lemma CertifiedExtend(log: seq<AuditEvent>, e: AuditEvent)
    ensures Certified(log + [e]) <==> Certified(log) && Permitted(Replay(log), e)
    ensures Replay(log + [e]) == Absorb(Replay(log), e)
  {
    assert (log + [e])[..|log|] == log;
  }

  // ---- Owners ----

  /** Memberships are of organisations that exist. */
  lemma {:induction false} MembersHaveOrganisations(log: seq<AuditEvent>)
    requires Certified(log)
    ensures forall m :: m in Replay(log).members ==> m.0 in Replay(log).orgs
  {
    if log != [] {
      MembersHaveOrganisations(log[..|log| - 1]);
    }
  }

  /** Members are registered users. */
  lemma {:induction false} MembersAreRegistered(log: seq<AuditEvent>)
    requires Certified(log)
    ensures forall m :: m in Replay(log).members ==> m.1 in Replay(log).users
  {
    if log != [] {
      MembersAreRegistered(log[..|log| - 1]);
    }
  }

  /** The rows an entry points to: its organisation and its actor. */
  predicate RefersTo(v: View, e: AuditEvent) {
    && (e.org.Some? ==> e.org.value in v.orgs)
    && (e.actorUser.Some? ==> e.actorUser.value in v.users)
    && (e.actorKey.Some? ==> e.actorKey.value in v.keys)
  }

  /** Users, organisations and keys never vanish from the replay. */
  lemma RowsStay(v: View, e: AuditEvent)
    ensures var w := Absorb(v, e); v.users <= w.users && v.orgs <= w.orgs && v.keys.Keys <= w.keys.Keys
  {
  }

  lemma NewEntryRefers(v: View, e: AuditEvent)
    requires Permitted(v, e) && forall m :: m in v.members ==> m.1 in v.users
    ensures RefersTo(Absorb(v, e), e)
  {
  }

  /** Every entry of a certified log points to rows that the replay of the whole log still has. */
  lemma {:induction false} EntriesReferToRows(log: seq<AuditEvent>)
    requires Certified(log)
    ensures forall i :: 0 <= i < |log| ==> RefersTo(Replay(log), log[i])
  {
    if log != [] {
      hide Permitted, Absorb;
      var n := |log| - 1;
      EntriesReferToRows(log[..n]);
      MembersAreRegistered(log[..n]);
      RowsStay(Replay(log[..n]), log[n]);
      NewEntryRefers(Replay(log[..n]), log[n]);
      forall i | 0 <= i < |log| ensures RefersTo(Replay(log), log[i]) {
        assert i < n ==> RefersTo(Replay(log[..n]), log[..n][i]);
      }
    }
  }

  /** In every certified log every organisation has an owner. */
  lemma {:induction false} SomeOwnerRemains(log: seq<AuditEvent>, o: OrgId)
    requires Certified(log) && o in Replay(log).orgs
    ensures exists u :: IsOwner(Replay(log), o, u)
  {
    var before, e := log[..|log| - 1], log[|log| - 1];
    var v := Replay(before);
    if e.fact.OrganisationCreated? && e.target == o {
      assert IsOwner(Replay(log), o, e.actorUser.value);
    } else {
      SomeOwnerRemains(before, o);
      var u :| IsOwner(v, o, u);
      match e.fact
      case MemberRoleChanged(w, _, _) => OwnerSurvives(v, e, o, u, w);
      case MemberRemoved(w, _) => OwnerSurvives(v, e, o, u, w);
      case MemberAdded(w, _) => OwnerSurvives(v, e, o, u, w);
      case _ =>
        assert IsOwner(Replay(log), o, u);
    }
  }

  lemma OwnerSurvives(v: View, e: AuditEvent, o: OrgId, u: UserId, w: UserId)
    requires Permitted(v, e) && IsOwner(v, o, u)
    requires (e.fact.MemberRoleChanged? || e.fact.MemberRemoved? || e.fact.MemberAdded?) && e.fact.user == w
    ensures exists x :: IsOwner(Absorb(v, e), o, x)
  {
    if e.org == Some(o) && u == w {
      if AnotherOwner(v, o, w) {
        var x :| x != w && IsOwner(v, o, x);
        assert IsOwner(Absorb(v, e), o, x);
      } else {
        assert IsOwner(Absorb(v, e), o, u);
      }
    } else {
      assert IsOwner(Absorb(v, e), o, u);
    }
  }

  /** An event whose actor is not an owner of an existing organisation leaves its owners as they are. */
  lemma OwnersChangeOnlyByOwners(v: View, e: AuditEvent, o: OrgId)
    requires Permitted(v, e) && o in v.orgs
    requires e.actorUser.None? || !IsOwner(v, o, e.actorUser.value)
    ensures Owners(Absorb(v, e), o) == Owners(v, o)
  {
    var w := Absorb(v, e);
    forall u ensures IsOwner(w, o, u) <==> IsOwner(v, o, u) {
    }
    OwnersByUser(v, o);
    OwnersByUser(w, o);
  }

  lemma OwnersByUser(v: View, o: OrgId)
    ensures forall u :: u in Owners(v, o) <==> IsOwner(v, o, u)
  {
    forall u ensures u in Owners(v, o) <==> IsOwner(v, o, u) {
      if IsOwner(v, o, u) {
        assert (o, u) in v.members && (o, u).0 == o;
      }
    }
  }

  /** The event makes `u` an owner of `o`. */
  predicate Grants(e: AuditEvent, o: OrgId, u: UserId) {
    && e.org == Some(o)
    && match e.fact
       case OrganisationCreated => e.actorUser == Some(u)
       case MemberAdded(w, role) => w == u && role == Owner
       case MemberRoleChanged(w, _, role) => w == u && role == Owner
       case _ => false
  }

  /** Log positions of a chain of grants that ends with `u`, latest first: each grant was made by
      an owner of that moment, whose own ownership the rest of the chain explains; the last link
      is the creation of the organisation. */
  ghost predicate Chain(log: seq<AuditEvent>, o: OrgId, u: UserId, chain: seq<nat>)
    decreases chain
  {
    && chain != [] && chain[0] < |log| && Grants(log[chain[0]], o, u)
    && var e := log[chain[0]];
       if |chain| == 1 then e.fact.OrganisationCreated?
       else
         && chain[1] < chain[0]
         && e.actorUser.Some? && IsOwner(Replay(log[..chain[0]]), o, e.actorUser.value)
         && Chain(log, o, e.actorUser.value, chain[1..])
  }

  lemma {:induction false} ChainInLonger(log: seq<AuditEvent>, e: AuditEvent, o: OrgId, u: UserId, chain: seq<nat>)
    requires Chain(log, o, u, chain)
    ensures Chain(log + [e], o, u, chain)
    decreases chain
  {
    assert (log + [e])[..chain[0]] == log[..chain[0]];
    if |chain| > 1 {
      ChainInLonger(log, e, o, log[chain[0]].actorUser.value, chain[1..]);
    }
  }

  /** Who becomes an owner was granted it just now; a grant after the creation is made by an owner. */
  lemma NewOwnersAreGranted(v: View, e: AuditEvent, o: OrgId, u: UserId)
    requires Permitted(v, e) && IsOwner(Absorb(v, e), o, u)
    ensures Grants(e, o, u) || IsOwner(v, o, u)
    ensures Grants(e, o, u) && !e.fact.OrganisationCreated? ==> e.actorUser.Some? && IsOwner(v, o, e.actorUser.value)
  {
  }

  lemma LinkChain(before: seq<AuditEvent>, e: AuditEvent, o: OrgId, u: UserId, chain: seq<nat>)
    requires Grants(e, o, u) && !e.fact.OrganisationCreated?
    requires e.actorUser.Some? && IsOwner(Replay(before), o, e.actorUser.value)
    requires Chain(before, o, e.actorUser.value, chain)
    ensures Chain(before + [e], o, u, [|before|] + chain)
  {
    ChainInLonger(before, e, o, e.actorUser.value, chain);
    assert (before + [e])[..|before|] == before;
    assert ([|before|] + chain)[1..] == chain;
  }

  /** Every owner is linked to the creator of the organisation by such a chain. */
  lemma {:induction false} OwnersHaveProvenance(log: seq<AuditEvent>, o: OrgId, u: UserId)
    requires Certified(log) && IsOwner(Replay(log), o, u)
    ensures exists chain :: Chain(log, o, u, chain)
  {
    var n := |log| - 1;
    var before, e := log[..n], log[n];
    assert log == before + [e];
    NewOwnersAreGranted(Replay(before), e, o, u);
    if !Grants(e, o, u) {
      OwnersHaveProvenance(before, o, u);
      var chain :| Chain(before, o, u, chain);
      ChainInLonger(before, e, o, u, chain);
    } else if e.fact.OrganisationCreated? {
      assert Chain(log, o, u, [n]);
    } else {
      OwnersHaveProvenance(before, o, e.actorUser.value);
      var chain :| Chain(before, o, e.actorUser.value, chain);
      LinkChain(before, e, o, u, chain);
    }
  }

  // ---- Deletion and revocation are final ----

  predicate TargetsProject(e: AuditEvent, p: ProjectId) {
    IsProjectFact(e.fact) && e.target == p
  }

  predicate Deletes(e: AuditEvent, p: ProjectId) {
    e.fact.ProjectDeleted? && e.target == p
  }

  predicate UsesKey(e: AuditEvent, k: KeyId) {
    e.actorKey == Some(k) || ((e.fact.ApiKeyCreated? || e.fact.ApiKeyRevoked?) && e.target == k)
  }

  predicate Revokes(e: AuditEvent, k: KeyId) {
    e.fact.ApiKeyRevoked? && e.target == k
  }

  predicate Dead(v: View, p: ProjectId) {
    p in v.projects && !v.projects[p].live
  }

  predicate Revoked(v: View, k: KeyId) {
    k in v.keys && !v.keys[k].active
  }

  /** A dead project is never targeted again, and projects die only by a deletion. */
  lemma DeadStep(v: View, e: AuditEvent, p: ProjectId)
    requires Permitted(v, e)
    ensures Dead(v, p) ==> !TargetsProject(e, p)
    ensures Dead(Absorb(v, e), p) <==> Dead(v, p) || Deletes(e, p)
  {
  }

  /** A revoked key is never used again, and keys are revoked only by a revocation. */
  lemma RevokedStep(v: View, e: AuditEvent, k: KeyId)
    requires Permitted(v, e)
    ensures Revoked(v, k) ==> !UsesKey(e, k)
    ensures Revoked(Absorb(v, e), k) <==> Revoked(v, k) || Revokes(e, k)
  {
  }

  /** Once deleted a project stays deleted, and no later event is about it. */
  lemma {:induction false} DeletedStaysDeleted(log: seq<AuditEvent>, i: nat, p: ProjectId)
    requires Certified(log) && i < |log| && Deletes(log[i], p)
    ensures Dead(Replay(log), p)
    ensures forall j :: i < j < |log| ==> !TargetsProject(log[j], p)
    decreases |log|
  {
    var n := |log| - 1;
    DeadStep(Replay(log[..n]), log[n], p);
    if i < n {
      DeletedStaysDeleted(log[..n], i, p);
      assert forall j :: 0 <= j < n ==> log[..n][j] == log[j];
    }
  }

  /** Once revoked a key stays revoked, and no later event names it, as actor or as target. */
  lemma {:induction false} RevokedStaysRevoked(log: seq<AuditEvent>, i: nat, k: KeyId)
    requires Certified(log) && i < |log| && Revokes(log[i], k)
    ensures Revoked(Replay(log), k)
    ensures forall j :: i < j < |log| ==> !UsesKey(log[j], k)
    decreases |log|
  {
    var n := |log| - 1;
    RevokedStep(Replay(log[..n]), log[n], k);
    if i < n {
      RevokedStaysRevoked(log[..n], i, k);
      assert forall j :: 0 <= j < n ==> log[..n][j] == log[j];
    }
  }

  /** A deleted project has a deletion event, and by finality it has no other. */
  lemma {:induction false} DeletedHasOneEvent(log: seq<AuditEvent>, p: ProjectId) returns (i: nat)
    requires Certified(log) && Dead(Replay(log), p)
    ensures i < |log| && Deletes(log[i], p)
    ensures forall j :: 0 <= j < |log| && Deletes(log[j], p) ==> j == i
    decreases |log|
  {
    var n := |log| - 1;
    DeadStep(Replay(log[..n]), log[n], p);
    if Deletes(log[n], p) {
      i := n;
    } else {
      i := DeletedHasOneEvent(log[..n], p);
      assert log[..n][i] == log[i];
    }
    OnlyOneDeletion(log, p);
  }

  lemma OnlyOneDeletion(log: seq<AuditEvent>, p: ProjectId)
    requires Certified(log)
    ensures forall i, j :: 0 <= i < j < |log| ==> !(Deletes(log[i], p) && Deletes(log[j], p))
  {
    forall i, j | 0 <= i < j < |log| && Deletes(log[i], p) ensures !Deletes(log[j], p) {
      DeletedStaysDeleted(log, i, p);
    }
  }

  /** A revoked key has a revocation event, and by finality it has no other. */
  lemma {:induction false} RevokedHasOneEvent(log: seq<AuditEvent>, k: KeyId) returns (i: nat)
    requires Certified(log) && Revoked(Replay(log), k)
    ensures i < |log| && Revokes(log[i], k)
    ensures forall j :: 0 <= j < |log| && Revokes(log[j], k) ==> j == i
    decreases |log|
  {
    var n := |log| - 1;
    RevokedStep(Replay(log[..n]), log[n], k);
    if Revokes(log[n], k) {
      i := n;
    } else {
      i := RevokedHasOneEvent(log[..n], k);
      assert log[..n][i] == log[i];
    }
    OnlyOneRevocation(log, k);
  }

  lemma OnlyOneRevocation(log: seq<AuditEvent>, k: KeyId)
    requires Certified(log)
    ensures forall i, j :: 0 <= i < j < |log| ==> !(Revokes(log[i], k) && Revokes(log[j], k))
  {
    forall i, j | 0 <= i < j < |log| && Revokes(log[i], k) ensures !Revokes(log[j], k) {
      RevokedStaysRevoked(log, i, k);
    }
  }

  // ---- Counting ----

  function Count(log: seq<AuditEvent>, action: Action): nat {
    if log == [] then 0
    else Count(log[..|log| - 1], action) + (if ActionOf(log[|log| - 1].fact) == action then 1 else 0)
  }

  /** How often each action occurs in the log. */
  function Actions(log: seq<AuditEvent>): multiset<Action> {
    if log == [] then multiset{} else Actions(log[..|log| - 1]) + multiset{ActionOf(log[|log| - 1].fact)}
  }

  lemma {:induction false} ActionsCount(log: seq<AuditEvent>, action: Action)
    ensures Actions(log)[action] == Count(log, action)
  {
    if log != [] {
      ActionsCount(log[..|log| - 1], action);
    }
  }

  ghost function LiveProjects(v: View): set<ProjectId> {
    set p | p in v.projects && v.projects[p].live
  }

  ghost function ActiveKeys(v: View): set<KeyId> {
    set k | k in v.keys && v.keys[k].active
  }

  /** How an entry changes the projects. */
  lemma ProjectStep(v: View, e: AuditEvent)
    requires Permitted(v, e)
    ensures e.fact.ProjectCreated? ==>
              && e.target !in v.projects
              && exists o :: Absorb(v, e).projects == v.projects[e.target := ProjectEntry(o, true)]
    ensures e.fact.ProjectDeleted? ==>
              && e.target in v.projects && v.projects[e.target].live
              && exists o :: Absorb(v, e).projects == v.projects[e.target := ProjectEntry(o, false)]
    ensures !e.fact.ProjectCreated? && !e.fact.ProjectDeleted? ==> Absorb(v, e).projects == v.projects
  {
  }

  lemma LiveAfter(v: View, w: View, p: ProjectId, o: OrgId, live: bool)
    requires w.projects == v.projects[p := ProjectEntry(o, live)]
    ensures LiveProjects(w) == if live then LiveProjects(v) + {p} else LiveProjects(v) - {p}
    ensures p in LiveProjects(v) <==> p in v.projects && v.projects[p].live
  {
  }

  lemma LiveProjectsStep(v: View, e: AuditEvent)
    requires Permitted(v, e)
    ensures |LiveProjects(Absorb(v, e))| ==
            |LiveProjects(v)| + (if e.fact.ProjectCreated? then 1 else if e.fact.ProjectDeleted? then -1 else 0)
  {
    ProjectStep(v, e);
    hide Permitted, Absorb;
    var w := Absorb(v, e);
    if e.fact.ProjectCreated? {
      var o :| w.projects == v.projects[e.target := ProjectEntry(o, true)];
      LiveAfter(v, w, e.target, o, true);
      hide LiveProjects;
    } else if e.fact.ProjectDeleted? {
      var o :| w.projects == v.projects[e.target := ProjectEntry(o, false)];
      LiveAfter(v, w, e.target, o, false);
      hide LiveProjects;
    }
  }

  /** How an entry changes the keys. */
  lemma KeyStep(v: View, e: AuditEvent)
    requires Permitted(v, e)
    ensures e.fact.ApiKeyCreated? ==>
              e.target !in v.keys && exists o :: Absorb(v, e).keys == v.keys[e.target := KeyEntry(o, true)]
    ensures e.fact.ApiKeyRevoked? ==>
              && e.target in v.keys && v.keys[e.target].active
              && exists o :: Absorb(v, e).keys == v.keys[e.target := KeyEntry(o, false)]
    ensures !e.fact.ApiKeyCreated? && !e.fact.ApiKeyRevoked? ==> Absorb(v, e).keys == v.keys
  {
  }

  lemma ActiveAfter(v: View, w: View, k: KeyId, o: OrgId, active: bool)
    requires w.keys == v.keys[k := KeyEntry(o, active)]
    ensures ActiveKeys(w) == if active then ActiveKeys(v) + {k} else ActiveKeys(v) - {k}
    ensures k in ActiveKeys(v) <==> k in v.keys && v.keys[k].active
  {
  }

  lemma ActiveKeysStep(v: View, e: AuditEvent)
    requires Permitted(v, e)
    ensures |ActiveKeys(Absorb(v, e))| ==
            |ActiveKeys(v)| + (if e.fact.ApiKeyCreated? then 1 else if e.fact.ApiKeyRevoked? then -1 else 0)
  {
    KeyStep(v, e);
    hide Permitted, Absorb;
    var w := Absorb(v, e);
    if e.fact.ApiKeyCreated? {
      var o :| w.keys == v.keys[e.target := KeyEntry(o, true)];
      ActiveAfter(v, w, e.target, o, true);
      hide ActiveKeys;
    } else if e.fact.ApiKeyRevoked? {
      var o :| w.keys == v.keys[e.target := KeyEntry(o, false)];
      ActiveAfter(v, w, e.target, o, false);
      hide ActiveKeys;
    }
  }

  /** What an entry adds to the number of live projects and of active keys, counted by its action. */
  lemma StepByAction(v: View, e: AuditEvent)
    requires Permitted(v, e)
    ensures |LiveProjects(Absorb(v, e))| == |LiveProjects(v)|
            + (if ActionOf(e.fact) == ProjectCreatedAction then 1 else 0)
            - (if ActionOf(e.fact) == ProjectDeletedAction then 1 else 0)
    ensures |ActiveKeys(Absorb(v, e))| == |ActiveKeys(v)|
            + (if ActionOf(e.fact) == ApiKeyCreatedAction then 1 else 0)
            - (if ActionOf(e.fact) == ApiKeyRevokedAction then 1 else 0)
  {
    LiveProjectsStep(v, e);
    ActiveKeysStep(v, e);
    hide Permitted, Absorb, LiveProjects, ActiveKeys;
  }

  /** Live projects are those created less those deleted; active keys likewise. */
  lemma {:induction false} Conservation(log: seq<AuditEvent>)
    requires Certified(log)
    ensures |LiveProjects(Replay(log))| == Count(log, ProjectCreatedAction) - Count(log, ProjectDeletedAction)
    ensures |ActiveKeys(Replay(log))| == Count(log, ApiKeyCreatedAction) - Count(log, ApiKeyRevokedAction)
  {
    if log == [] {
      assert LiveProjects(BLANK) == {} && ActiveKeys(BLANK) == {};
    } else {
      hide Permitted, Absorb, LiveProjects, ActiveKeys, ActionOf;
      Conservation(log[..|log| - 1]);
      StepByAction(Replay(log[..|log| - 1]), log[|log| - 1]);
    }
  }
}
