/** What holds in every run of requests, whatever fails on the way. */
module LedgerTheorems {
  import opened Domain
  import opened Store
  import opened Workflows
  import opened AuditLog
  import opened Ledger

  /** States the service can be in: everything reachable from empty tables. */
  ghost predicate Reachable(env: Env, st: State) {
    exists requests :: st == Run(env, GENESIS, requests)
  }

  lemma ReachableIsSound(env: Env, st: State)
    requires Reachable(env, st)
    ensures Sound(st.db)
  {
    var requests :| st == Run(env, GENESIS, requests);
    GenesisIsSound();
    RunKeepsSound(env, GENESIS, requests);
  }

  // ---- The audit log ----

  /** The audit log certifies itself: replaying what precedes an entry shows that its actor held the
      permission, that exactly one actor is named, and that the recorded old values are right. */
  lemma AuditCertifiesItself(env: Env, st: State, i: nat)
    requires Reachable(env, st) && i < |st.db.log|
    ensures Permitted(Replay(st.db.log[..i]), st.db.log[i])
  {
    ReachableIsSound(env, st);
    CertifiedPointwise(st.db.log);
  }

  /** Replaying the log rebuilds the membership table, the projects with their liveness and the keys
      with their activity. */
  lemma ReplayRebuildsTables(env: Env, st: State)
    requires Reachable(env, st)
    ensures Replay(st.db.log) == ViewOf(st.db)
  {
    ReachableIsSound(env, st);
  }

  /** The organisation and the actor of every audit event are rows of their tables. */
  lemma EventsReferToRows(env: Env, st: State, i: nat)
    requires Reachable(env, st) && i < |st.db.log|
    ensures var e := st.db.log[i];
            && (e.org.Some? ==> e.org.value in st.db.organisations)
            && (e.actorUser.Some? ==> e.actorUser.value in st.db.users)
            && (e.actorKey.Some? ==> e.actorKey.value in st.db.keys)
  {
    ReachableIsSound(env, st);
    EntriesReferToRows(st.db.log);
    ViewHasKeys(st.db);
    hide ViewOf, TablesOk, Certified, Reachable;
  }

  lemma ViewHasKeys(db: Db)
    ensures ViewOf(db).keys.Keys == db.keys.Keys && ViewOf(db).users == db.users.Keys
            && ViewOf(db).orgs == db.organisations.Keys
  {
  }

  // ---- Owners ----

  /** Every organisation always has an owner. */
  lemma EveryOrganisationHasAnOwner(env: Env, st: State, o: OrgId)
    requires Reachable(env, st) && o in st.db.organisations
    ensures exists u :: (o, u) in st.db.members && st.db.members[(o, u)].role == Owner
  {
    ReachableIsSound(env, st);
    SomeOwnerRemains(st.db.log, o);
    var u: UserId :| IsOwner(Replay(st.db.log), o, u);
    MemberSeen(st.db, o, u);
    assert (o, u) in st.db.members;
  }

  /** Every owner traces back to the creator through grants made by owners. */
  lemma OwnersTraceBackToCreator(env: Env, st: State, o: OrgId, u: UserId)
    requires Reachable(env, st) && (o, u) in st.db.members && st.db.members[(o, u)].role == Owner
    ensures exists chain :: Chain(st.db.log, o, u, chain)
  {
    ReachableIsSound(env, st);
    MemberSeen(st.db, o, u);
    OwnersHaveProvenance(st.db.log, o, u);
  }

  ghost predicate SomeOwner(db: Db, o: OrgId) {
    exists u :: (o, u) in db.members && db.members[(o, u)].role == Owner
  }

  /** The last-owner check sees exactly whether the organisation would keep an owner. */
  lemma ProtectionIsExact(db: Db, o: OrgId, u: UserId, requested: Option<Role>)
    requires (o, u) in db.members && SomeOwner(db, o)
    ensures var row := db.members[(o, u)];
            var after := Apply(db, if requested.Some? then SetMember(o, u, row.(role := requested.value))
                               else DropMember(o, u));
            OwnerProtected(db, o, u, row.role, requested) <==> !SomeOwner(after, o)
  {
    var row := db.members[(o, u)];
    var after := Apply(db, if requested.Some? then SetMember(o, u, row.(role := requested.value))
                       else DropMember(o, u));
    var others := OtherOwners(db, o, u);
    if |others| > 0 {
      var w :| w in others;
      assert (o, w) in after.members && after.members[(o, w)].role == Owner;
    } else {
      forall w | (o, w) in db.members && db.members[(o, w)].role == Owner ensures w == u {
        assert w != u ==> (o, w).1 in others;
      }
      if requested == Some(Owner) {
        assert (o, u) in after.members;
      }
    }
  }

  /** Once the role checks pass, changing a role is refused for the sake of the owners precisely when
      the change would leave the organisation without one. */
  lemma RoleChangeGuardIsExact(env: Env, st: State, now: Time, actor: UserId, o: OrgId, u: UserId, role: Role)
    requires Reachable(env, st) && (o, u) in st.db.members
    requires var access := TenantAccess(st.db, actor, o, ManageMembers);
             access.Granted? && RoleManagementAllowed(access.role, Some(st.db.members[(o, u)].role), Some(role))
    ensures DecideUpdateMemberRole(st.db, now, actor, o, u, role) == Refuse(LastOwnerProtection)
            <==> !SomeOwner(Apply(st.db, SetMember(o, u, st.db.members[(o, u)].(role := role))), o)
  {
    EveryOrganisationHasAnOwner(env, st, o);
    ProtectionIsExact(st.db, o, u, Some(role));
  }

  /** The same for removing a member. */
  lemma RemovalGuardIsExact(env: Env, st: State, now: Time, actor: UserId, o: OrgId, u: UserId)
    requires Reachable(env, st) && (o, u) in st.db.members
    requires var access := TenantAccess(st.db, actor, o, ManageMembers);
             access.Granted? && RoleManagementAllowed(access.role, Some(st.db.members[(o, u)].role), None)
    ensures DecideRemoveMember(st.db, now, actor, o, u) == Refuse(LastOwnerProtection)
            <==> !SomeOwner(Apply(st.db, DropMember(o, u)), o)
  {
    EveryOrganisationHasAnOwner(env, st, o);
    ProtectionIsExact(st.db, o, u, None);
  }

  /** Changing a member's role, or removing the member when no role is given. */
  function DecideMemberChange(db: Db, now: Time, actor: UserId, o: OrgId, u: UserId, to: Option<Role>): Decision {
    if to.Some? then DecideUpdateMemberRole(db, now, actor, o, u, to.value)
        else DecideRemoveMember(db, now, actor, o, u)
  }

  function MemberChange(db: Db, o: OrgId, u: UserId, to: Option<Role>): Change
    requires (o, u) in db.members
  {
    if to.Some? then SetMember(o, u, db.members[(o, u)].(role := to.value)) else DropMember(o, u)
  }

  lemma MemberChangeWrites(db: Db, now: Time, actor: UserId, o: OrgId, u: UserId, to: Option<Role>)
    ensures var d := DecideMemberChange(db, now, actor, o, u, to);
            d.Commit? ==> (o, u) in db.members && d.change == MemberChange(db, o, u, to)
  {
    hide TenantAccess, RoleManagementAllowed, OwnerProtected;
  }

  /** Somebody other than these two is an owner. */
  ghost predicate OwnerBeside(db: Db, o: OrgId, u: UserId, v: UserId) {
    exists w :: w != u && w != v && (o, w) in db.members && db.members[(o, w)].role == Owner
  }

  lemma ChangesOfTwoMembers(db: Db, o: OrgId, u: UserId, v: UserId, toU: Option<Role>, toV: Option<Role>)
    requires u != v && (o, u) in db.members && (o, v) in db.members
    ensures SomeOwner(Apply(Apply(db, MemberChange(db, o, u, toU)), MemberChange(db, o, v, toV)), o)
            <==> toU == Some(Owner) || toV == Some(Owner) || OwnerBeside(db, o, u, v)
  {
    var after := Apply(Apply(db, MemberChange(db, o, u, toU)), MemberChange(db, o, v, toV)).members;
    assert (o, u) in after <==> toU.Some?;
    assert (o, v) in after <==> toV.Some?;
    assert toU.Some? ==> after[(o, u)].role == toU.value;
    assert toV.Some? ==> after[(o, v)].role == toV.value;
    forall w | w != u && w != v
      ensures (o, w) in after <==> (o, w) in db.members
      ensures (o, w) in after ==> after[(o, w)] == db.members[(o, w)]
    {
    }
  }

  lemma ChangesOfOneMember(db: Db, o: OrgId, u: UserId, first: Option<Role>, second: Option<Role>)
    requires (o, u) in db.members
    ensures SomeOwner(Apply(Apply(db, MemberChange(db, o, u, first)), MemberChange(db, o, u, second)), o)
            <==> second == Some(Owner) || OwnerBeside(db, o, u, u)
  {
    var after := Apply(Apply(db, MemberChange(db, o, u, first)), MemberChange(db, o, u, second)).members;
    assert (o, u) in after <==> second.Some?;
    assert second.Some? ==> after[(o, u)].role == second.value;
    forall w | w != u
      ensures (o, w) in after <==> (o, w) in db.members
      ensures (o, w) in after ==> after[(o, w)] == db.members[(o, w)]
    {
    }
  }

  /** What passes the guard leaves an owner beside the member, unless the member is to be one. */
  lemma GuardLeavesOwner(db: Db, now: Time, actor: UserId, o: OrgId, u: UserId, to: Option<Role>)
    requires DecideMemberChange(db, now, actor, o, u, to).Commit? && SomeOwner(db, o) && to != Some(Owner)
    ensures OwnerBeside(db, o, u, u)
  {
    hide TenantAccess, RoleManagementAllowed;
    var others := OtherOwners(db, o, u);
    var w: UserId :| (o, w) in db.members && db.members[(o, w)].role == Owner;
    if w == u {
      assert |others| > 0;
      var x :| x in others;
      assert (o, x) in db.members;
    }
  }

  /** The guard protects requests that follow one another. When two changes to members are decided on
      the same tables and both commit: two changes to one member always leave an owner where there was
      one; two changes to different members leave one if and only if one of the changes makes an owner
      or somebody else is one. */
  lemma OverlappingChangesKeepOwnersExactly(db: Db, now: Time, later: Time, o: OrgId, a: UserId, b: UserId,
                                            u: UserId, v: UserId, toU: Option<Role>, toV: Option<Role>)
    requires DecideMemberChange(db, now, a, o, u, toU).Commit? && DecideMemberChange(db, later, b, o, v, toV).Commit?
    requires SomeOwner(db, o)
    ensures var first := DecideMemberChange(db, now, a, o, u, toU);
            var second := DecideMemberChange(db, later, b, o, v, toV);
            SomeOwner(Apply(Apply(db, first.change), second.change), o)
            <==> u == v || toU == Some(Owner) || toV == Some(Owner) || OwnerBeside(db, o, u, v)
  {
    hide SomeOwner, Apply, MemberChange;
    MemberChangeWrites(db, now, a, o, u, toU);
    MemberChangeWrites(db, later, b, o, v, toV);
    if u != v {
      ChangesOfTwoMembers(db, o, u, v, toU, toV);
    } else {
      ChangesOfOneMember(db, o, u, toU, toV);
      if toV != Some(Owner) {
        GuardLeavesOwner(db, later, b, o, v, toV);
      }
    }
    hide DecideMemberChange;
  }

  /** So the only two owners can remove each other: both may, and the organisation is left without one. */
  lemma OverlappingRemovalsLoseOwners(db: Db, now: Time, o: OrgId, u: UserId, v: UserId)
    requires o in db.organisations && u != v
    requires forall w :: (o, w) in db.members && db.members[(o, w)].role == Owner <==> w == u || w == v
    ensures var first, second := DecideRemoveMember(db, now, u, o, v), DecideRemoveMember(db, now, v, o, u);
            && first.Commit? && second.Commit?
            && !SomeOwner(Apply(Apply(db, first.change), second.change), o)
  {
    assert u in OtherOwners(db, o, v) by { assert (o, u) in db.members; }
    assert v in OtherOwners(db, o, u) by { assert (o, v) in db.members; }
    OverlappingChangesKeepOwnersExactly(db, now, now, o, u, v, v, u, None, None);
  }

  // ---- What one request does to the view ----

  /** Events of accounts rather than organisations. */
  predicate IsAccountFact(fact: Fact) {
    fact.UserRegistered? || fact.UserLoggedIn?
  }

  lemma EventNamesPrincipal(env: Env, db: Db, now: Time, p: Principal, c: Command)
    requires !IsOpen(c)
    ensures var d := Decide(env, db, now, p, c);
            d.Commit? ==>
              d.event.actorUser == ActorUser(p) && d.event.actorKey == ActorKey(p) && !IsAccountFact(d.event.fact)
  {
    hide TenantAccess, ProjectAccess, OwnerProtected, MembershipClashes, KeyClashes, SlugTaken, LiveProject;
  }

  /** Nothing, a stamp, or one event absorbed by the view. */
  lemma HandleInView(env: Env, st: State, r: Request)
    requires Sound(st.db)
    ensures var after, plan := Handle(env, st, r).0.db, Prepare(env, st, r);
            || (after.log == st.db.log && ViewOf(after) == ViewOf(st.db))
            || (plan.Work? && plan.decision.Commit? && after.log == st.db.log + [plan.decision.event]
                && Permitted(ViewOf(st.db), plan.decision.event)
                && ViewOf(after) == Absorb(ViewOf(st.db), plan.decision.event))
  {
    hide ViewOf, Permitted, Absorb, TablesOk, Decide, DecideOpen;
    PlansAreFaithful(env, st, r);
    var plan := Prepare(env, st, r);
    if plan.Work? {
      StartIsStamped(env, st, r);
      if plan.decision.Commit? {
        RecordIsInvisible(Apply(plan.start.db, plan.decision.change), plan.decision.event);
      }
    }
  }

  lemma StartIsStamped(env: Env, st: State, r: Request)
    requires Sound(st.db) && Prepare(env, st, r).Work?
    ensures var start := Prepare(env, st, r).start;
            && start.metrics == st.metrics && start.db.log == st.db.log && ViewOf(start.db) == ViewOf(st.db)
            && (start.db == st.db
                || exists k :: ActiveKey(st.db, r.bearer.digest, k) && start.db == Apply(st.db, StampKey(k, r.now)))
  {
    hide ViewOf, TablesOk, Decide, DecideOpen, Certified;
    if !IsOpen(r.command) && ActiveUser(st.db, r.bearer).None? {
      StampKeyIsInvisible(st.db, KeyFor(st.db, r.bearer.digest).value, r.now);
    }
  }

  // ---- Only owners change the owners ----

  /** The request is made by a user who owns the organisation at that moment. */
  ghost predicate ActsAsOwner(st: State, r: Request, o: OrgId) {
    ActiveUser(st.db, r.bearer).Some? && IsOwner(ViewOf(st.db), o, ActiveUser(st.db, r.bearer).value)
  }

  ghost predicate NoOwnerActs(env: Env, st: State, requests: seq<Request>, o: OrgId) {
    forall i :: 0 <= i < |requests| ==> !ActsAsOwner(Run(env, st, requests[..i]), requests[i], o)
  }

  lemma NonOwnerRequestKeepsOwners(env: Env, st: State, r: Request, o: OrgId)
    requires Sound(st.db) && o in st.db.organisations && !ActsAsOwner(st, r, o)
    ensures Owners(ViewOf(Handle(env, st, r).0.db), o) == Owners(ViewOf(st.db), o)
    ensures o in Handle(env, st, r).0.db.organisations
  {
    HandleInView(env, st, r);
    var plan := Prepare(env, st, r);
    assert o in ViewOf(st.db).orgs;
    assert ViewOf(Handle(env, st, r).0.db).orgs == Handle(env, st, r).0.db.organisations.Keys;
    hide ViewOf;
    if plan.Work? && plan.decision.Commit? && Handle(env, st, r).0.db.log != st.db.log {
      PlanActor(env, st, r);
      if !IsAccountFact(plan.decision.event.fact) {
        OwnersChangeOnlyByOwners(ViewOf(st.db), plan.decision.event, o);
      }
    }
  }

  lemma PlanActor(env: Env, st: State, r: Request)
    requires Prepare(env, st, r).Work? && Prepare(env, st, r).decision.Commit?
    ensures var e := Prepare(env, st, r).decision.event;
            IsAccountFact(e.fact) || e.actorUser == ActiveUser(st.db, r.bearer)
  {
    hide Decide;
    if !IsOpen(r.command) {
      if ActiveUser(st.db, r.bearer).Some? {
        EventNamesPrincipal(env, st.db, r.now, UserPrincipal(ActiveUser(st.db, r.bearer).value), r.command);
      } else {
        var k := KeyFor(st.db, r.bearer.digest).value;
        EventNamesPrincipal(env, Apply(st.db, StampKey(k, r.now)), r.now, KeyPrincipal(k, st.db.keys[k].org),
                            r.command);
      }
    }
  }

  /** A run in which no acting principal owns the organisation leaves its set of owners exactly as it was. */
  lemma {:induction false} NonOwnersKeepOwners(env: Env, st: State, requests: seq<Request>, o: OrgId)
    requires Sound(st.db) && o in st.db.organisations && NoOwnerActs(env, st, requests, o)
    ensures Owners(ViewOf(Run(env, st, requests).db), o) == Owners(ViewOf(st.db), o)
    ensures o in Run(env, st, requests).db.organisations
  {
    hide ViewOf, Sound, Handle, ActsAsOwner;
    if requests != [] {
      var n := |requests| - 1;
      forall i | 0 <= i < n ensures !ActsAsOwner(Run(env, st, requests[..n][..i]), requests[..n][i], o) {
        assert requests[..n][..i] == requests[..i];
      }
      NonOwnersKeepOwners(env, st, requests[..n], o);
      RunKeepsSound(env, st, requests[..n]);
      NonOwnerRequestKeepsOwners(env, Run(env, st, requests[..n]), requests[n], o);
    }
  }

  // ---- Deletion and revocation ----

  /** Workflows write live or new projects and unrevoked or new keys, nothing else. */
  ghost predicate SparesTheDead(db: Db, c: Change) {
    match c
    case SetProject(p, _) => p in db.projects ==> db.projects[p].deletedAt == None
    case NewKey(k, _) => k !in db.keys
    case RevokeKey(k, _) => k in db.keys && db.keys[k].revokedAt == None
    case StampKey(k, _) => k in db.keys && db.keys[k].revokedAt == None
    case _ => true
  }

  lemma CommandsSpareTheDead(env: Env, db: Db, now: Time, p: Principal, c: Command)
    requires !IsOpen(c)
    ensures var d := Decide(env, db, now, p, c); d.Commit? ==> SparesTheDead(db, d.change)
  {
    hide TenantAccess, ProjectAccess, OwnerProtected, MembershipClashes, SlugTaken;
  }

  /** Rows that are deleted or revoked are the same rows afterwards. */
  ghost predicate KeepsTheDead(before: Db, after: Db) {
    && (forall p :: p in before.projects && before.projects[p].deletedAt.Some?
                    ==> p in after.projects && after.projects[p] == before.projects[p])
    && (forall k :: k in before.keys && before.keys[k].revokedAt.Some?
                    ==> k in after.keys && after.keys[k] == before.keys[k])
  }

  lemma SparingKeeps(db: Db, c: Change)
    requires SparesTheDead(db, c)
    ensures KeepsTheDead(db, Apply(db, c))
  {
  }

  lemma FinishKeepsTheDead(st: State, d: Decision, fault: Option<nat>)
    requires d.Commit? ==> SparesTheDead(st.db, d.change)
    ensures KeepsTheDead(st.db, Finish(st, d, fault).0.db)
  {
    if d.Commit? {
      SparingKeeps(st.db, d.change);
    }
  }

  lemma RequestKeepsTheDead(env: Env, st: State, r: Request)
    ensures KeepsTheDead(st.db, Handle(env, st, r).0.db)
  {
    hide Decide, DecideOpen, SparesTheDead, Finish;
    var plan := Prepare(env, st, r);
    if IsOpen(r.command) {
      OpenSparesTheDead(st.db, r.now, r.command);
      FinishKeepsTheDead(st, plan.decision, plan.fault);
    } else if ActiveUser(st.db, r.bearer).Some? {
      CommandsSpareTheDead(env, st.db, r.now, UserPrincipal(ActiveUser(st.db, r.bearer).value), r.command);
      FinishKeepsTheDead(st, plan.decision, plan.fault);
    } else if plan.Work? {
      var k := KeyFor(st.db, r.bearer.digest).value;
      StampSparesTheDead(st.db, k, r.now);
      CommandsSpareTheDead(env, Apply(st.db, StampKey(k, r.now)), r.now, KeyPrincipal(k, st.db.keys[k].org), r.command);
      FinishKeepsTheDead(plan.start, plan.decision, plan.fault);
    }
  }

  lemma OpenSparesTheDead(db: Db, now: Time, c: Command)
    requires IsOpen(c)
    ensures var d := DecideOpen(db, now, c); d.Commit? ==> SparesTheDead(db, d.change)
  {
  }

  lemma StampSparesTheDead(db: Db, k: KeyId, at: Time)
    requires k in db.keys && db.keys[k].revokedAt == None
    ensures KeepsTheDead(db, Apply(db, StampKey(k, at)))
  {
  }

  /** In any later run a deleted project and a revoked key keep their rows to the letter, time of
      deletion or revocation included. */
  lemma {:induction false} DeadRowsNeverChange(env: Env, st: State, requests: seq<Request>)
    ensures KeepsTheDead(st.db, Run(env, st, requests).db)
  {
    if requests != [] {
      hide Handle;
      var n := |requests| - 1;
      DeadRowsNeverChange(env, st, requests[..n]);
      RequestKeepsTheDead(env, Run(env, st, requests[..n]), requests[n]);
    }
  }

  /** A deleted project has exactly one deletion event, and nothing after it is about the project. */
  lemma DeletionIsFinal(env: Env, st: State, p: ProjectId) returns (i: nat)
    requires Reachable(env, st) && p in st.db.projects && st.db.projects[p].deletedAt.Some?
    ensures i < |st.db.log| && Deletes(st.db.log[i], p)
    ensures forall j :: 0 <= j < |st.db.log| && j != i ==> !Deletes(st.db.log[j], p)
    ensures forall j :: i < j < |st.db.log| ==> !TargetsProject(st.db.log[j], p)
  {
    ReachableIsSound(env, st);
    assert Dead(ViewOf(st.db), p);
    i := DeletedHasOneEvent(st.db.log, p);
    DeletedStaysDeleted(st.db.log, i, p);
  }

  /** A revoked key has exactly one revocation event, and no later event names it, as actor or target. */
  lemma RevocationIsFinal(env: Env, st: State, k: KeyId) returns (i: nat)
    requires Reachable(env, st) && k in st.db.keys && st.db.keys[k].revokedAt.Some?
    ensures i < |st.db.log| && Revokes(st.db.log[i], k)
    ensures forall j :: 0 <= j < |st.db.log| && j != i ==> !Revokes(st.db.log[j], k)
    ensures forall j :: i < j < |st.db.log| ==> !UsesKey(st.db.log[j], k)
  {
    ReachableIsSound(env, st);
    assert Revoked(ViewOf(st.db), k);
    i := RevokedHasOneEvent(st.db.log, k);
    RevokedStaysRevoked(st.db.log, i, k);
  }

  // ---- Atomicity and conservation ----

  /** The event of a request whose audit row was flushed and then rolled back with its transaction. */
  ghost function LostAudit(env: Env, st: State, r: Request): multiset<Action> {
    match Prepare(env, st, r)
    case Work(_, Commit(_, event, flushes, _), fault) =>
      if fault == Some(flushes + 1) then multiset{ActionOf(event.fact)} else multiset{}
    case _ => multiset{}
  }

  ghost function LostAudits(env: Env, st: State, requests: seq<Request>): multiset<Action> {
    if requests == [] then multiset{}
    else
      var before := requests[..|requests| - 1];
      LostAudits(env, st, before) + LostAudit(env, Run(env, st, before), requests[|requests| - 1])
  }

  /** Equal tables, except that the use of API keys may have been stamped. */
  ghost predicate SameButStamps(a: Db, b: Db) {
    && a.(keys := map[]) == b.(keys := map[])
    && a.keys.Keys == b.keys.Keys
    && forall k :: k in a.keys ==> a.keys[k].(lastUsedAt := None) == b.keys[k].(lastUsedAt := None)
  }

  lemma StampIsSmall(db: Db, k: KeyId, at: Time)
    ensures SameButStamps(db, db) && SameButStamps(db, Apply(db, StampKey(k, at)))
  {
  }

  lemma FinishAllOrNothing(start: State, d: Decision, fault: Option<nat>)
    requires d.Commit? ==> Apply(start.db, d.change).log == start.db.log
    ensures var (after, response) := Finish(start, d, fault);
            if after.db.log == start.db.log then after.db == start.db
            else response.Ok? && d.Commit? && after.db.log == start.db.log + [d.event]
  {
  }

  /** All or nothing: a request that succeeds in changing something adds exactly one audit event;
      every other request, refused, failed or broken off, leaves tables and log as they were. */
  lemma AllOrNothing(env: Env, st: State, r: Request)
    requires Sound(st.db)
    ensures var (after, response) := Handle(env, st, r);
            if after.db.log == st.db.log then SameButStamps(st.db, after.db)
            else response.Ok? && |after.db.log| == |st.db.log| + 1 && st.db.log < after.db.log
  {
    hide Prepare, Finish, Sound, SameButStamps, Apply, ViewOf, Permitted, Reflects;
    PlansAreFaithful(env, st, r);
    StampIsSmall(st.db, 0, 0);
    var plan := Prepare(env, st, r);
    if plan.Work? {
      StartIsStamped(env, st, r);
      FinishAllOrNothing(plan.start, plan.decision, plan.fault);
      if plan.start.db != st.db {
        var k :| ActiveKey(st.db, r.bearer.digest, k) && plan.start.db == Apply(st.db, StampKey(k, r.now));
        StampIsSmall(st.db, k, r.now);
      }
    }
  }

  ghost predicate CountersMatch(st: State, lost: multiset<Action>) {
    && st.metrics.organisationsCreated == Count(st.db.log, OrganisationCreatedAction)
    && st.metrics.projectsCreated == Count(st.db.log, ProjectCreatedAction)
    && st.metrics.keysCreated == Count(st.db.log, ApiKeyCreatedAction)
    && st.metrics.keysRevoked == Count(st.db.log, ApiKeyRevokedAction)
    && st.metrics.audit == Actions(st.db.log) + lost
  }

  lemma CountsExtend(log: seq<AuditEvent>, e: AuditEvent)
    ensures Actions(log + [e]) == Actions(log) + multiset{ActionOf(e.fact)}
    ensures forall a :: Count(log + [e], a) == Count(log, a) + if ActionOf(e.fact) == a then 1 else 0
  {
    assert (log + [e])[..|log|] == log && (log + [e])[|log|] == e;
  }

  /** Both counters move with the committed event. */
  lemma CommitCounts(st: State, e: AuditEvent, db: Db, lost: multiset<Action>)
    requires CountersMatch(st, lost) && db.log == st.db.log + [e]
    ensures CountersMatch(State(db, CountBusiness(CountAudit(st.metrics, e), e)), lost)
  {
    hide Count, Actions;
    CountsExtend(st.db.log, e);
  }

  lemma FinishCounts(start: State, d: Decision, fault: Option<nat>, lost: multiset<Action>)
    requires CountersMatch(start, lost)
    requires d.Commit? ==> Apply(start.db, d.change).log == start.db.log
    ensures CountersMatch(
              Finish(start, d, fault).0,
              lost + if d.Commit? && fault == Some(d.flushes + 1) then multiset{ActionOf(d.event.fact)} else multiset{})
  {
    hide Count, Actions, Apply, CountBusiness, ActionOf;
    if d.Commit? && !FailsBy(fault, d.flushes + 1) {
      hide CountersMatch;
      CommitCounts(start, d.event, Record(Apply(start.db, d.change), d.event), lost);
      assert lost + multiset{} == lost;
    }
  }

  lemma SameCounters(a: State, b: State, lost: multiset<Action>)
    requires CountersMatch(a, lost) && a.metrics == b.metrics && a.db.log == b.db.log
    ensures CountersMatch(b, lost) && CountersMatch(b, lost + multiset{})
  {
    assert lost + multiset{} == lost;
  }

  lemma HandleCounts(env: Env, st: State, r: Request, lost: multiset<Action>)
    requires Sound(st.db) && CountersMatch(st, lost)
    ensures CountersMatch(Handle(env, st, r).0, lost + LostAudit(env, st, r))
  {
    hide Prepare, Finish, Sound, Apply, ViewOf, Permitted, Reflects, ActionOf, CountersMatch;
    PlansAreFaithful(env, st, r);
    SameCounters(st, st, lost);
    var plan := Prepare(env, st, r);
    if plan.Work? {
      StartIsStamped(env, st, r);
      SameCounters(st, plan.start, lost);
      FinishCounts(plan.start, plan.decision, plan.fault, lost);
    }
  }

  /** The business counters equal the matching committed events, and the audit counter exceeds the
      committed events by exactly those that were flushed and rolled back. */
  lemma {:induction false} CountersMatchTheLog(env: Env, requests: seq<Request>)
    ensures CountersMatch(Run(env, GENESIS, requests), LostAudits(env, GENESIS, requests))
  {
    if requests != [] {
      hide CountersMatch, Sound, Handle, LostAudit;
      var n := |requests| - 1;
      CountersMatchTheLog(env, requests[..n]);
      GenesisIsSound();
      RunKeepsSound(env, GENESIS, requests[..n]);
      HandleCounts(env, Run(env, GENESIS, requests[..n]), requests[n], LostAudits(env, GENESIS, requests[..n]));
    }
  }

  /** Action by action, the audit counter is what the log holds plus what was flushed and rolled back. */
  lemma AuditCounterPerAction(env: Env, requests: seq<Request>, action: Action)
    ensures var st := Run(env, GENESIS, requests);
            st.metrics.audit[action] == Count(st.db.log, action) + LostAudits(env, GENESIS, requests)[action]
  {
    CountersMatchTheLog(env, requests);
    ActionsCount(Run(env, GENESIS, requests).db.log, action);
    hide Run, LostAudits, Actions, Count;
  }

  /** Live projects are projects created less projects deleted; active keys likewise. */
  lemma TablesAreConserved(env: Env, st: State)
    requires Reachable(env, st)
    ensures |set p | p in st.db.projects && st.db.projects[p].deletedAt.None?|
            == Count(st.db.log, ProjectCreatedAction) - Count(st.db.log, ProjectDeletedAction)
    ensures |set k | k in st.db.keys && st.db.keys[k].revokedAt.None?|
            == Count(st.db.log, ApiKeyCreatedAction) - Count(st.db.log, ApiKeyRevokedAction)
  {
    ReachableIsSound(env, st);
    Conservation(st.db.log);
    var v := ViewOf(st.db);
    assert LiveProjects(v) == set p | p in st.db.projects && st.db.projects[p].deletedAt.None?;
    assert ActiveKeys(v) == set k | k in st.db.keys && st.db.keys[k].revokedAt.None?;
  }
}
