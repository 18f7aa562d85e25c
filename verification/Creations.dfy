/** The idempotency protocol on one shared ledger: what a call creates is a transaction on the
    tables, with any other requests and any other calls in between. */
module Creations {
  import opened Domain
  import opened Store
  import opened Workflows
  import opened Idempotency
  import opened Routes
  import AuditLog
  import opened Ledger
  import Secrets
  import Slugs

  /** The protocol's world, the ledger, and for every creation the log position of its event. */
  datatype Joint = Joint(world: World, state: State, positions: seq<nat>)

  const BEGIN := Joint(START, GENESIS, [])

  datatype JointStep =
    | Protocol(step: Step)
      // the creation of call `i`: a command of its principal, run on the tables as they are now
    | Make(i: nat, principal: Principal, now: Time, fault: Option<nat>, command: Command)
      // any request outside the protocol
    | Other(request: Request)

  /** The command creates what the call's route creates, for the principal and organisation of its scope. */
  predicate Belongs(call: Call, p: Principal, c: Command) {
    && (match call.route
        case OrganisationRoute => c.CreateOrganisation? && p.UserPrincipal?
        case ProjectRoute => c.CreateProject?
        case ApiKeyRoute => c.CreateApiKey? && p.UserPrincipal?)
    && (call.scope.Some? ==>
          && (call.scope.value.kind.UserType? <==> p.UserPrincipal?)
          && call.scope.value.principal == (if p.UserPrincipal? then p.user else p.key)
          && call.scope.value.org == Addressee(c))
  }

  predicate MayMake(w: World, i: nat, p: Principal, c: Command) {
    i < |w.calls| && w.calls[i].phase.Looked? && Belongs(w.calls[i].call, p, c)
  }

  ghost function TakeJoint(h: Host, env: Env, render: Body -> Secrets.Value, j: Joint, s: JointStep): Joint {
    match s
    case Protocol(step) => if step.Create? then j else j.(world := Take(h, j.world, step))
    case Make(i, p, now, fault, c) =>
      if !MayMake(j.world, i, p, c) then j
      else
        var (after, response) := Finish(j.state, Decide(env, j.state.db, now, p, c), fault);
        Joint(Take(h, j.world, Create(i, Made(response, render))), after,
              if response.Ok? then j.positions + [|j.state.db.log|] else j.positions)
    case Other(request) => j.(state := Handle(env, j.state, request).0)
  }

  ghost function JointRun(h: Host, env: Env, render: Body -> Secrets.Value, steps: seq<JointStep>): Joint {
    if steps == [] then BEGIN
    else TakeJoint(h, env, render, JointRun(h, env, render, steps[..|steps| - 1]), steps[|steps| - 1])
  }

  // ---- A joint run is a run of the protocol ----

  /** The protocol's own steps of a joint run. */
  ghost function ProtocolSteps(h: Host, env: Env, render: Body -> Secrets.Value, steps: seq<JointStep>): seq<Step> {
    if steps == [] then []
    else
      var before, s := steps[..|steps| - 1], steps[|steps| - 1];
      var j := JointRun(h, env, render, before);
      ProtocolSteps(h, env, render, before)
      + match s
        case Protocol(step) => if step.Create? then [] else [step]
        case Make(i, p, now, fault, c) =>
          if !MayMake(j.world, i, p, c) then []
          else [Create(i, Made(Finish(j.state, Decide(env, j.state.db, now, p, c), fault).1, render))]
        case Other(_) => []
  }

  /** So what is proved of the protocol's runs holds of joint runs. */
  lemma {:induction false} JointRunsAreRuns(h: Host, env: Env, render: Body -> Secrets.Value, steps: seq<JointStep>)
    ensures JointRun(h, env, render, steps).world == Steps(h, START, ProtocolSteps(h, env, render, steps))
  {
    if steps != [] {
      hide Take, Decide, Finish, Handle, MayMake;
      var before := steps[..|steps| - 1];
      JointRunsAreRuns(h, env, render, before);
      var done, all := ProtocolSteps(h, env, render, before), ProtocolSteps(h, env, render, steps);
      if all != done {
        var step := all[|all| - 1];
        StepsThenOne(h, START, done, step);
        assert all == done + [step];
      }
    }
  }

  // ---- The ledger of a joint run ----

  /** Every creation is made for a principal that is there, and a key not revoked, at that moment. */
  ghost predicate PrincipalsHold(h: Host, env: Env, render: Body -> Secrets.Value, steps: seq<JointStep>) {
    steps != [] ==>
      var before, s := steps[..|steps| - 1], steps[|steps| - 1];
      && PrincipalsHold(h, env, render, before)
      && (s.Make? ==> PrincipalOk(JointRun(h, env, render, before).state.db, s.principal))
  }

  lemma MakeKeepsSound(env: Env, st: State, now: Time, p: Principal, c: Command, fault: Option<nat>)
    requires Sound(st.db) && PrincipalOk(st.db, p) && !IsOpen(c)
    ensures Sound(Finish(st, Decide(env, st.db, now, p, c), fault).0.db)
  {
    hide Sound, PrincipalOk, TablesOk, Decide, Finish, Faithful;
    SoundHasTables(st.db);
    CommandsAreFaithful(env, st.db, now, p, c);
    FinishKeepsSound(st, Decide(env, st.db, now, p, c), fault);
  }

  /** Then interleaving keeps the ledger's invariant: the log certifies itself and replays to the
      tables, and every organisation has an owner. */
  lemma {:induction false} JointRunsKeepSound(h: Host, env: Env, render: Body -> Secrets.Value, steps: seq<JointStep>)
    requires PrincipalsHold(h, env, render, steps)
    ensures Sound(JointRun(h, env, render, steps).state.db)
  {
    if steps == [] {
      GenesisIsSound();
    } else {
      hide Sound, PrincipalOk, Take, Decide, Finish, Handle, Belongs;
      var before, s := steps[..|steps| - 1], steps[|steps| - 1];
      JointRunsKeepSound(h, env, render, before);
      var j := JointRun(h, env, render, before);
      match s
      case Protocol(_) =>
      case Other(request) => HandleKeepsSound(env, j.state, request);
      case Make(i, p, now, fault, c) =>
        if MayMake(j.world, i, p, c) {
          CreationsAreNotOpen(j.world.calls[i].call, p, c);
          MakeKeepsSound(env, j.state, now, p, c, fault);
        }
    }
  }

  lemma CreationsAreNotOpen(call: Call, p: Principal, c: Command)
    requires Belongs(call, p, c)
    ensures !IsOpen(c)
  {
  }

  /** What soundness says, spelt out for an interleaved run. */
  lemma InterleavedLedger(h: Host, env: Env, render: Body -> Secrets.Value, steps: seq<JointStep>)
    requires PrincipalsHold(h, env, render, steps)
    ensures var db := JointRun(h, env, render, steps).state.db;
            && (forall i :: 0 <= i < |db.log| ==> AuditLog.Permitted(AuditLog.Replay(db.log[..i]), db.log[i]))
            && AuditLog.Replay(db.log) == ViewOf(db)
            && forall o :: o in db.organisations ==> exists u :: AuditLog.IsOwner(ViewOf(db), o, u)
  {
    JointRunsKeepSound(h, env, render, steps);
    var db := JointRun(h, env, render, steps).state.db;
    hide JointRun, AuditLog.Permitted, TablesOk;
    AuditLog.CertifiedPointwise(db.log);
    forall o | o in db.organisations ensures exists u :: AuditLog.IsOwner(ViewOf(db), o, u) {
      AuditLog.SomeOwnerRemains(db.log, o);
    }
  }

  // ---- Creations are events ----

  /** The event records a creation by the principal of the scope in its organisation. */
  predicate RecordsCreation(k: Scope, e: AuditEvent) {
    && (if k.org.None? then e.fact.OrganisationCreated?
        else e.org == k.org && (e.fact.ProjectCreated? || e.fact.ApiKeyCreated?))
    && (if k.kind.UserType? then e.actorUser == Some(k.principal) else e.actorKey == Some(k.principal))
  }

  /** Every creation has its event, and no two share one. */
  ghost predicate Recorded(j: Joint) {
    && |j.positions| == |j.world.created|
    && (forall m :: 0 <= m < |j.positions| ==> j.positions[m] < |j.state.db.log|)
    && (forall m, n :: 0 <= m < n < |j.positions| ==> j.positions[m] < j.positions[n])
    && (forall m :: 0 <= m < |j.positions| && j.world.created[m].Some?
                    ==> RecordsCreation(j.world.created[m].value, j.state.db.log[j.positions[m]]))
  }

  /** What a creating command appends, if it succeeds. */
  lemma CreationIsRecorded(env: Env, db: Db, now: Time, p: Principal, c: Command, call: Call)
    requires Belongs(call, p, c)
    ensures var d := Decide(env, db, now, p, c);
            && !d.Reply? && (d.Clash? ==> !d.response.Ok?)
            && (d.Commit? && call.scope.Some? ==> RecordsCreation(call.scope.value, d.event))
  {
    hide TenantAccess, ProjectAccess, MembershipClashes, KeyClashes, SlugTaken, Slugs.Normalise, Slugs.FromName;
  }

  lemma ChangesSpareTheLog(db: Db, c: Change)
    ensures Apply(db, c).log == db.log
  {
  }

  lemma FinishAppends(st: State, d: Decision, fault: Option<nat>)
    ensures var (after, response) := Finish(st, d, fault);
            && (after.db.log == st.db.log || (d.Commit? && after.db.log == st.db.log + [d.event]))
            && (d.Commit? && response.Ok? ==> after.db.log == st.db.log + [d.event])
  {
    hide Apply, CountBusiness;
    if d.Commit? {
      ChangesSpareTheLog(st.db, d.change);
    }
  }

  lemma HandleAppends(env: Env, st: State, r: Request)
    ensures st.db.log <= Handle(env, st, r).0.db.log
  {
    hide Finish, Decide, DecideOpen;
    var plan := Prepare(env, st, r);
    if plan.Work? {
      FinishAppends(plan.start, plan.decision, plan.fault);
    }
  }

  lemma LongerLogKeepsRecorded(j: Joint, after: State)
    requires Recorded(j) && j.state.db.log <= after.db.log
    ensures Recorded(j.(state := after))
  {
  }

  lemma OneMoreRecorded(j: Joint, world: World, after: State, scope: Option<Scope>, e: AuditEvent)
    requires Recorded(j) && after.db.log == j.state.db.log + [e] && world.created == j.world.created + [scope]
    requires scope.Some? ==> RecordsCreation(scope.value, e)
    ensures Recorded(Joint(world, after, j.positions + [|j.state.db.log|]))
  {
  }

  lemma ProtocolCreatesNothing(h: Host, w: World, s: Step)
    requires !s.Create?
    ensures Take(h, w, s).created == w.created
  {
    hide Hash, Snapshot, StoreFails;
  }

  lemma StepKeepsRecorded(h: Host, env: Env, render: Body -> Secrets.Value, j: Joint, s: JointStep)
    requires Recorded(j)
    ensures Recorded(TakeJoint(h, env, render, j, s))
  {
    match s
    case Protocol(step) =>
      if !step.Create? {
        ProtocolCreatesNothing(h, j.world, step);
        hide Take;
      }
    case Other(request) =>
      HandleAppends(env, j.state, request);
      hide Handle, Recorded;
      LongerLogKeepsRecorded(j, Handle(env, j.state, request).0);
    case Make(i, p, now, fault, c) =>
      if MayMake(j.world, i, p, c) {
        MakeKeepsRecorded(h, env, render, j, i, p, now, fault, c);
      }
  }

  lemma CreateAppends(h: Host, w: World, i: nat, result: Option<Secrets.Value>)
    requires i < |w.calls| && w.calls[i].phase.Looked?
    ensures Take(h, w, Create(i, result)).created == w.created + if result.Some? then [w.calls[i].call.scope] else []
  {
  }

  /** The end of a creation, successful or not. */
  lemma MadeKeepsRecorded(j: Joint, world: World, after: State, made: bool, scope: Option<Scope>, e: AuditEvent)
    requires Recorded(j) && world.created == j.world.created + if made then [scope] else []
    requires made ==> after.db.log == j.state.db.log + [e] && (scope.Some? ==> RecordsCreation(scope.value, e))
    requires j.state.db.log <= after.db.log
    ensures Recorded(Joint(world, after, if made then j.positions + [|j.state.db.log|] else j.positions))
  {
    hide Recorded, RecordsCreation;
    if made {
      OneMoreRecorded(j, world, after, scope, e);
    } else {
      LongerLogKeepsRecorded(j, after);
      SameCreations(Joint(j.world, after, j.positions), world);
    }
  }

  lemma MakeKeepsRecorded(h: Host, env: Env, render: Body -> Secrets.Value, j: Joint, i: nat, p: Principal, now: Time,
                          fault: Option<nat>, c: Command)
    requires Recorded(j) && MayMake(j.world, i, p, c)
    ensures Recorded(TakeJoint(h, env, render, j, Make(i, p, now, fault, c)))
  {
    hide Decide, Finish, Recorded, RecordsCreation, Belongs, Take;
    var call := j.world.calls[i].call;
    CreationsAreNotOpen(call, p, c);
    var d := Decide(env, j.state.db, now, p, c);
    CreationIsRecorded(env, j.state.db, now, p, c, call);
    FinishAppends(j.state, d, fault);
    SuccessIsCommitted(j.state, d, fault);
    var (after, response) := Finish(j.state, d, fault);
    CreateAppends(h, j.world, i, Made(response, render));
    var e := if d.Commit? then d.event else AuditEvent(None, None, None, UserLoggedIn, 0, 0);
    MadeKeepsRecorded(j, Take(h, j.world, Create(i, Made(response, render))), after, response.Ok?, call.scope, e);
  }

  lemma SuccessIsCommitted(st: State, d: Decision, fault: Option<nat>)
    requires !d.Reply? && (d.Clash? ==> !d.response.Ok?)
    ensures Finish(st, d, fault).1.Ok? ==> d.Commit?
  {
  }

  lemma SameCreations(j: Joint, world: World)
    requires Recorded(j) && world.created == j.world.created
    ensures Recorded(j.(world := world))
  {
  }

  lemma {:induction false} EveryCreationIsRecorded(h: Host, env: Env, render: Body -> Secrets.Value,
                                                   steps: seq<JointStep>)
    ensures Recorded(JointRun(h, env, render, steps))
  {
    if steps != [] {
      hide TakeJoint, Recorded;
      EveryCreationIsRecorded(h, env, render, steps[..|steps| - 1]);
      StepKeepsRecorded(h, env, render, JointRun(h, env, render, steps[..|steps| - 1]), steps[|steps| - 1]);
    }
  }

  /** The log positions of the creations made with the key. */
  function EventsWith(created: seq<Option<Scope>>, positions: seq<nat>, k: Scope): set<nat>
    requires |created| == |positions|
  {
    set m: nat | m < |created| && created[m] == Some(k) :: positions[m]
  }

  lemma {:induction false} AsManyEventsAsCreations(created: seq<Option<Scope>>, positions: seq<nat>, k: Scope)
    requires |created| == |positions| && forall m, n :: 0 <= m < n < |positions| ==> positions[m] < positions[n]
    ensures |EventsWith(created, positions, k)| == CreatedWith(created, k)
  {
    if created != [] {
      var n := |created| - 1;
      AsManyEventsAsCreations(created[..n], positions[..n], k);
      OneMore(created[..n], created[n], k);
      assert created == created[..n] + [created[n]];
      LastEvent(created, positions, k);
      hide EventsWith, CreatedWith;
    }
  }

  lemma LastEvent(created: seq<Option<Scope>>, positions: seq<nat>, k: Scope)
    requires created != [] && |created| == |positions|
    requires forall m, n :: 0 <= m < n < |positions| ==> positions[m] < positions[n]
    ensures var n := |created| - 1; var before := EventsWith(created[..n], positions[..n], k);
            && positions[n] !in before
            && EventsWith(created, positions, k) == if created[n] == Some(k) then before + {positions[n]} else before
  {
    var n := |created| - 1;
    var before, all := EventsWith(created[..n], positions[..n], k), EventsWith(created, positions, k);
    forall x | x in before ensures x in all && x != positions[n] {
      var m: nat :| m < n && created[..n][m] == Some(k) && positions[..n][m] == x;
      assert created[m] == Some(k) && positions[m] == x;
    }
    forall x | x in all ensures x in before || (created[n] == Some(k) && x == positions[n]) {
      var m: nat :| m <= n && created[m] == Some(k) && positions[m] == x;
      assert m < n ==> created[..n][m] == Some(k) && positions[..n][m] == x;
    }
  }

  /** With any other requests and calls in between and any failures: the creations made with a key are
      as many as the committed events of their own, each a creation in the audit log by the key's
      principal in the key's organisation; and there is at most one such event if and only if every
      creation with the key started from a world that was clear of it. */
  lemma CreationsAreEvents(h: Host, env: Env, render: Body -> Secrets.Value, steps: seq<JointStep>, k: Scope)
    ensures var j := JointRun(h, env, render, steps);
            && |j.positions| == |j.world.created|
            && var events := EventsWith(j.world.created, j.positions, k);
               && |events| == CreatedWith(j.world.created, k)
               && (forall x :: x in events ==> x < |j.state.db.log| && RecordsCreation(k, j.state.db.log[x]))
               && Tallied(j.world, k)
               && (|events| <= 1 <==> CreatesOnlyWhenClear(h, ProtocolSteps(h, env, render, steps), k))
  {
    hide JointRun, ProtocolSteps, Steps, CreatesOnlyWhenClear, CreatedWith, Tallied, RecordsCreation;
    EveryCreationIsRecorded(h, env, render, steps);
    JointRunsAreRuns(h, env, render, steps);
    var j, own := JointRun(h, env, render, steps), ProtocolSteps(h, env, render, steps);
    AsManyEventsAsCreations(j.world.created, j.positions, k);
    CountingLaw(h, own, k);
    OnceOnlyExactly(h, own, k);
  }
}
