/** The idempotency protocol of the three creation routes as a machine over interleaved steps: a
    call is admitted, looks its key up, creates its resource in one commit and stores its response
    snapshot in another. Any call may be overtaken, and fail, between any two steps. */
module Idempotency {
  import opened Domain
  import opened Text
  import opened Workflows
  import Json
  import JsonProofs
  import Secrets

  datatype PrincipalType = UserType | ApiKeyType

  /** The columns of the two partial unique indexes, one for records with an organisation and one for
      records without: together they make the whole tuple unique. */
  datatype Scope = Scope(kind: PrincipalType, principal: nat, org: Option<OrgId>, key: string, verb: string,
                         path: string)

  datatype Record = Record(hash: string, status: nat, body: Secrets.Value)

  type Records = map<Scope, Record>

  const CREATED: nat := 201

  // ---- What the service does ----

  datatype Started = NoKey | Proceed(scope: Scope) | Replay(record: Record) | Conflict

  /** `start_request`: no key, no record, a record of the same body, a record of another body. */
  function Start(records: Records, scope: Option<Scope>, hash: string): Started {
    if scope.None? then NoKey
    else if scope.value !in records then Proceed(scope.value)
    else if records[scope.value].hash != hash then Conflict
    else Replay(records[scope.value])
  }

  /** `store_response` raises: a secret in the snapshot, a failing flush or commit, a record that is
      there already. */
  predicate StoreFails(casing: Casing, records: Records, scope: Scope, snapshot: Secrets.Value, fault: Option<nat>) {
    Secrets.FindSecretField(casing, snapshot).Some? || FailsBy(fault, 1) || scope in records
  }

  datatype Route = OrganisationRoute | ProjectRoute | ApiKeyRoute

  /** What the route stores of its response: the API-key route takes the raw key out first. */
  function Snapshot(route: Route, response: Secrets.Value): Secrets.Value {
    if route.ApiKeyRoute? && response.Mapping? then Secrets.ReplayBody(response.entries) else response
  }

  // ---- The machine ----

  datatype Host = Host(casing: Casing, digest: string -> string)

  datatype Call = Call(route: Route, scope: Option<Scope>, body: Json.Json)

  datatype Phase =
    | Arrived
    | Admitted
    | Looked
    | Created(response: Secrets.Value)
    | Replied(response: Secrets.Value)
    | Lost(response: Secrets.Value)
    | Replayed(record: Record)
    | Conflicted
    | Refused

  datatype Entry = Entry(call: Call, phase: Phase)

  /** `created` lists the committed creations by the scope they were made with. */
  datatype World = World(records: Records, calls: seq<Entry>, created: seq<Option<Scope>>, replays: nat, conflicts: nat)

  const START := World(map[], [], [], 0, 0)

  datatype Step =
    | Arrive(call: Call)
    | Admit(i: nat, allowed: bool)
    | Look(i: nat)
    | Create(i: nat, result: Option<Secrets.Value>)
    | Store(i: nat, fault: Option<nat>)

  function Hash(h: Host, c: Call): string {
    Json.RequestHash(h.digest, c.body)
  }

  function Move(w: World, i: nat, phase: Phase): World
    requires i < |w.calls|
  {
    w.(calls := w.calls[i := Entry(w.calls[i].call, phase)])
  }

  function TakeLook(h: Host, w: World, i: nat): World
    requires i < |w.calls|
  {
    match Start(w.records, w.calls[i].call.scope, Hash(h, w.calls[i].call))
    case Replay(record) => Move(w, i, Replayed(record)).(replays := w.replays + 1)
    case Conflict => Move(w, i, Conflicted).(conflicts := w.conflicts + 1)
    case _ => Move(w, i, Looked)
  }

  function TakeCreate(w: World, i: nat, result: Option<Secrets.Value>): World
    requires i < |w.calls|
  {
    if result.None? then Move(w, i, Refused)
    else Move(w, i, Created(result.value)).(created := w.created + [w.calls[i].call.scope])
  }

  function TakeStore(h: Host, w: World, i: nat, fault: Option<nat>): World
    requires i < |w.calls| && w.calls[i].phase.Created?
  {
    var call, response := w.calls[i].call, w.calls[i].phase.response;
    if call.scope.None? then Move(w, i, Replied(response))
    else
      var scope, snapshot := call.scope.value, Snapshot(call.route, response);
      if StoreFails(h.casing, w.records, scope, snapshot, fault) then Move(w, i, Lost(response))
      else Move(w, i, Replied(response)).(records := w.records[scope := Record(Hash(h, call), CREATED, snapshot)])
  }

  /** The phase a step starts from; a step that does not fit its call does nothing. */
  predicate Enabled(w: World, s: Step) {
    match s
    case Arrive(_) => true
    case Admit(i, _) => i < |w.calls| && w.calls[i].phase.Arrived?
    case Look(i) => i < |w.calls| && w.calls[i].phase.Admitted?
    case Create(i, _) => i < |w.calls| && w.calls[i].phase.Looked?
    case Store(i, _) => i < |w.calls| && w.calls[i].phase.Created?
  }

  function Take(h: Host, w: World, s: Step): World {
    if !Enabled(w, s) then w
    else
      match s
      case Arrive(call) => w.(calls := w.calls + [Entry(call, Arrived)])
      case Admit(i, allowed) => Move(w, i, if allowed then Admitted else Refused)
      case Look(i) => TakeLook(h, w, i)
      case Create(i, result) => TakeCreate(w, i, result)
      case Store(i, fault) => TakeStore(h, w, i, fault)
  }

  function Steps(h: Host, w: World, steps: seq<Step>): World {
    if steps == [] then w else Take(h, Steps(h, w, steps[..|steps| - 1]), steps[|steps| - 1])
  }

  // ---- Who is where ----

  datatype Place =
    | BeforeLook
    | BetweenLookAndCreate
    | BetweenCommits
    | Answered
    | WithoutRecord
    | WithReplay
    | WithConflict
    | Nowhere

  function PlaceOf(p: Phase): Place {
    match p
    case Arrived => BeforeLook
    case Admitted => BeforeLook
    case Looked => BetweenLookAndCreate
    case Created(_) => BetweenCommits
    case Replied(_) => Answered
    case Lost(_) => WithoutRecord
    case Replayed(_) => WithReplay
    case Conflicted => WithConflict
    case Refused => Nowhere
  }

  function At(calls: seq<Entry>, k: Scope, place: Place): set<nat> {
    set i: nat | i < |calls| && calls[i].call.scope == Some(k) && PlaceOf(calls[i].phase) == place
  }

  lemma AtAfterMove(w: World, i: nat, phase: Phase, k: Scope, place: Place)
    requires i < |w.calls|
    ensures At(Move(w, i, phase).calls, k, place)
            == if w.calls[i].call.scope != Some(k) then At(w.calls, k, place)
               else if PlaceOf(phase) == place then At(w.calls, k, place) + {i}
               else At(w.calls, k, place) - {i}
  {
  }

  lemma AtAfterArrival(calls: seq<Entry>, call: Call, k: Scope, place: Place)
    requires place != BeforeLook
    ensures At(calls + [Entry(call, Arrived)], k, place) == At(calls, k, place)
  {
  }

  // ---- The counting law ----

  function CreatedWith(created: seq<Option<Scope>>, k: Scope): nat {
    multiset(created)[Some(k)]
  }

  /** Creations made with the key: those with a record, those whose record is still to come, and
      those that lost theirs. */
  predicate Tallied(w: World, k: Scope) {
    CreatedWith(w.created, k)
    == (if k in w.records then 1 else 0) + |At(w.calls, k, BetweenCommits)| + |At(w.calls, k, WithoutRecord)|
  }

  /** Neither before nor after is the call between its commits or without its record. */
  lemma MoveElsewhere(w: World, i: nat, phase: Phase, k: Scope, place: Place)
    requires i < |w.calls| && PlaceOf(w.calls[i].phase) != place && PlaceOf(phase) != place
    ensures At(Move(w, i, phase).calls, k, place) == At(w.calls, k, place)
  {
    AtAfterMove(w, i, phase, k, place);
    assert i !in At(w.calls, k, place);
  }

  lemma OneMore(created: seq<Option<Scope>>, scope: Option<Scope>, k: Scope)
    ensures CreatedWith(created + [scope], k) == CreatedWith(created, k) + if scope == Some(k) then 1 else 0
  {
  }

  /** A call of the key leaves one place for another. */
  lemma SizeAfterMove(w: World, i: nat, phase: Phase, k: Scope, place: Place)
    requires i < |w.calls| && w.calls[i].call.scope == Some(k)
    ensures var left, entered := PlaceOf(w.calls[i].phase) == place, PlaceOf(phase) == place;
            |At(Move(w, i, phase).calls, k, place)|
            == |At(w.calls, k, place)| + (if entered && !left then 1 else if left && !entered then -1 else 0)
  {
    AtAfterMove(w, i, phase, k, place);
    assert i in At(w.calls, k, place) <==> PlaceOf(w.calls[i].phase) == place;
    if PlaceOf(w.calls[i].phase) == place && PlaceOf(phase) == place {
      assert At(w.calls, k, place) + {i} == At(w.calls, k, place);
    }
  }

  lemma CreateKeepsTally(w: World, i: nat, result: Option<Secrets.Value>, k: Scope)
    requires Tallied(w, k) && i < |w.calls| && w.calls[i].phase.Looked?
    ensures Tallied(TakeCreate(w, i, result), k)
  {
    var phase := TakeCreate(w, i, result).calls[i].phase;
    if w.calls[i].call.scope == Some(k) {
      SizeAfterMove(w, i, phase, k, WithoutRecord);
      SizeAfterMove(w, i, phase, k, BetweenCommits);
    } else {
      AtAfterMove(w, i, phase, k, WithoutRecord);
      AtAfterMove(w, i, phase, k, BetweenCommits);
    }
    OneMore(w.created, w.calls[i].call.scope, k);
    hide At, CreatedWith;
  }

  /** Storing adds the record of the call's key or loses the response. */
  lemma StoreOutcome(h: Host, w: World, i: nat, fault: Option<nat>, k: Scope)
    requires i < |w.calls| && w.calls[i].phase.Created?
    ensures var v := TakeStore(h, w, i, fault); var phase := v.calls[i].phase;
            && v.created == w.created && v.calls == Move(w, i, phase).calls && (phase.Lost? || phase.Replied?)
            && if w.calls[i].call.scope == Some(k) && phase.Replied? then k !in w.records && k in v.records
               else k in v.records <==> k in w.records
  {
    hide Snapshot, Hash, Secrets.FindSecretField;
  }

  lemma StoreKeepsTally(h: Host, w: World, i: nat, fault: Option<nat>, k: Scope)
    requires Tallied(w, k) && i < |w.calls| && w.calls[i].phase.Created?
    ensures Tallied(TakeStore(h, w, i, fault), k)
  {
    var phase := TakeStore(h, w, i, fault).calls[i].phase;
    StoreOutcome(h, w, i, fault, k);
    if w.calls[i].call.scope == Some(k) {
      SizeAfterMove(w, i, phase, k, WithoutRecord);
      SizeAfterMove(w, i, phase, k, BetweenCommits);
    } else {
      AtAfterMove(w, i, phase, k, WithoutRecord);
      AtAfterMove(w, i, phase, k, BetweenCommits);
    }
    hide At, CreatedWith, TakeStore, Move;
  }

  lemma StepKeepsTally(h: Host, w: World, s: Step, k: Scope)
    requires Tallied(w, k)
    ensures Tallied(Take(h, w, s), k)
  {
    hide At, TakeCreate, TakeStore, Hash;
    if Enabled(w, s) {
      match s
      case Arrive(call) =>
        AtAfterArrival(w.calls, call, k, BetweenCommits);
        AtAfterArrival(w.calls, call, k, WithoutRecord);
      case Create(i, result) => CreateKeepsTally(w, i, result, k);
      case Store(i, fault) => StoreKeepsTally(h, w, i, fault, k);
      case _ =>
        var phase := Take(h, w, s).calls[s.i].phase;
        MoveElsewhere(w, s.i, phase, k, BetweenCommits);
        MoveElsewhere(w, s.i, phase, k, WithoutRecord);
    }
  }

  /** Under every interleaving and every failure. */
  lemma {:induction false} CountingLaw(h: Host, steps: seq<Step>, k: Scope)
    ensures Tallied(Steps(h, START, steps), k)
  {
    if steps == [] {
      assert At(START.calls, k, BetweenCommits) == {} && At(START.calls, k, WithoutRecord) == {};
    } else {
      CountingLaw(h, steps[..|steps| - 1], k);
      StepKeepsTally(h, Steps(h, START, steps[..|steps| - 1]), steps[|steps| - 1], k);
    }
  }

  // ---- Records never change, answers are final ----

  predicate Final(p: Phase) {
    p.Replied? || p.Lost? || p.Replayed? || p.Conflicted? || p.Refused?
  }

  /** Records stay as they are and answers are given once. */
  ghost predicate Extends(w: World, v: World) {
    && (forall k :: k in w.records ==> k in v.records && v.records[k] == w.records[k])
    && |w.calls| <= |v.calls|
    && (forall i :: 0 <= i < |w.calls| ==> v.calls[i].call == w.calls[i].call)
    && (forall i :: 0 <= i < |w.calls| && Final(w.calls[i].phase) ==> v.calls[i] == w.calls[i])
  }

  lemma StepExtends(h: Host, w: World, s: Step)
    ensures Extends(w, Take(h, w, s))
  {
    hide Hash, Snapshot, Secrets.FindSecretField;
  }

  lemma {:induction false} RecordsAndAnswersAreFinal(h: Host, w: World, steps: seq<Step>)
    ensures Extends(w, Steps(h, w, steps))
  {
    if steps != [] {
      hide Take;
      RecordsAndAnswersAreFinal(h, w, steps[..|steps| - 1]);
      StepExtends(h, Steps(h, w, steps[..|steps| - 1]), steps[|steps| - 1]);
    }
  }

  // ---- Answers agree ----

  /** What an answered call can expect of the records. */
  ghost predicate Backed(h: Host, records: Records, e: Entry) {
    match e.phase
    case Replied(response) =>
      e.call.scope.Some? ==>
        && e.call.scope.value in records
        && records[e.call.scope.value] == Record(Hash(h, e.call), CREATED, Snapshot(e.call.route, response))
    case Replayed(record) =>
      && e.call.scope.Some? && e.call.scope.value in records
      && records[e.call.scope.value] == record && record.hash == Hash(h, e.call)
    case _ => true
  }

  ghost predicate AllBacked(h: Host, w: World) {
    && (forall i :: 0 <= i < |w.calls| ==> Backed(h, w.records, w.calls[i]))
    && (forall k :: k in w.records ==> exists i :: IsAuthor(w, k, i))
  }

  /** Every record has its author, the call that created and was answered. */
  predicate IsAuthor(w: World, k: Scope, i: int) {
    0 <= i < |w.calls| && w.calls[i].call.scope == Some(k) && w.calls[i].phase.Replied?
  }

  lemma StepKeepsEachBacked(h: Host, w: World, s: Step)
    requires forall i :: 0 <= i < |w.calls| ==> Backed(h, w.records, w.calls[i])
    ensures var v := Take(h, w, s); forall i :: 0 <= i < |v.calls| ==> Backed(h, v.records, v.calls[i])
  {
    hide Hash, Snapshot, Secrets.FindSecretField;
  }

  lemma StepKeepsBacked(h: Host, w: World, s: Step)
    requires AllBacked(h, w)
    ensures AllBacked(h, Take(h, w, s))
  {
    hide Hash, Snapshot, StoreFails;
    StepKeepsEachBacked(h, w, s);
    hide Backed;
    var v := Take(h, w, s);
    forall k | k in v.records ensures exists i :: IsAuthor(v, k, i) {
      if k in w.records {
        var i :| IsAuthor(w, k, i);
        assert IsAuthor(v, k, i);
      } else {
        assert IsAuthor(v, k, s.i);
      }
    }
  }

  lemma {:induction false} AnswersAreBacked(h: Host, steps: seq<Step>)
    ensures AllBacked(h, Steps(h, START, steps))
  {
    if steps != [] {
      hide Take, AllBacked;
      AnswersAreBacked(h, steps[..|steps| - 1]);
      StepKeepsBacked(h, Steps(h, START, steps[..|steps| - 1]), steps[|steps| - 1]);
    }
  }

  predicate Succeeded(p: Phase) {
    p.Replied? || p.Replayed?
  }

  /** The answer as a client sees it, the once-only part of a first answer taken out. */
  function Answer(e: Entry): (nat, Secrets.Value)
    requires Succeeded(e.phase)
  {
    if e.phase.Replied? then (CREATED, Snapshot(e.call.route, e.phase.response))
    else (e.phase.record.status, e.phase.record.body)
  }

  /** All successful answers to one key agree, whatever overlapped or failed, and they answer equal
      bodies. */
  lemma AnswersAgree(h: Host, steps: seq<Step>, i: nat, j: nat)
    requires JsonProofs.Injective(h.digest)
    requires var w := Steps(h, START, steps);
             && i < |w.calls| && j < |w.calls|
             && w.calls[i].call.scope.Some? && w.calls[i].call.scope == w.calls[j].call.scope
             && Succeeded(w.calls[i].phase) && Succeeded(w.calls[j].phase)
             && JsonProofs.WellFormed(w.calls[i].call.body) && JsonProofs.WellFormed(w.calls[j].call.body)
    ensures var w := Steps(h, START, steps);
            && Answer(w.calls[i]) == Answer(w.calls[j])
            && JsonProofs.Same(w.calls[i].call.body, w.calls[j].call.body)
  {
    var w := Steps(h, START, steps);
    AnswersAreBacked(h, steps);
    assert Backed(h, w.records, w.calls[i]) && Backed(h, w.records, w.calls[j]);
    JsonProofs.HashDecidesEquality(h.digest, w.calls[i].call.body, w.calls[j].call.body);
  }

  /** Looking up a key that has a record: an equal body is answered from the record, any other body
      conflicts, and either way nothing is created or stored. */
  lemma SecondBodyDecides(h: Host, steps: seq<Step>, i: nat) returns (author: nat)
    requires JsonProofs.Injective(h.digest)
    requires var w := Steps(h, START, steps);
             && i < |w.calls| && w.calls[i].phase.Admitted?
             && w.calls[i].call.scope.Some? && w.calls[i].call.scope.value in w.records
             && forall j :: 0 <= j < |w.calls| ==> JsonProofs.WellFormed(w.calls[j].call.body)
    ensures var w := Steps(h, START, steps);
            var v := Take(h, w, Look(i));
            && IsAuthor(w, w.calls[i].call.scope.value, author)
            && v.records == w.records && v.created == w.created
            && v.calls[i].phase == if JsonProofs.Same(w.calls[author].call.body, w.calls[i].call.body)
                                   then Replayed(w.records[w.calls[i].call.scope.value]) else Conflicted
  {
    hide Secrets.FindSecretField, Snapshot, Json.RequestHash, Steps;
    var w := Steps(h, START, steps);
    AnswersAreBacked(h, steps);
    var k := w.calls[i].call.scope.value;
    var a :| IsAuthor(w, k, a);
    author := a;
    assert Backed(h, w.records, w.calls[author]);
    JsonProofs.HashDecidesEquality(h.digest, w.calls[author].call.body, w.calls[i].call.body);
  }

  // ---- Once only, exactly ----

  /** Nothing was created with the key yet: no record, no call between its commits, no lost response. */
  predicate Clear(w: World, k: Scope) {
    k !in w.records && At(w.calls, k, BetweenCommits) == {} && At(w.calls, k, WithoutRecord) == {}
  }

  /** The step commits a creation with the key. */
  predicate CreatesWith(w: World, s: Step, k: Scope) {
    s.Create? && Enabled(w, s) && w.calls[s.i].call.scope == Some(k) && s.result.Some?
  }

  /** Every creation with the key starts from a world that is clear of it. */
  ghost predicate CreatesOnlyWhenClear(h: Host, steps: seq<Step>, k: Scope) {
    forall n :: 0 <= n < |steps| && CreatesWith(Steps(h, START, steps[..n]), steps[n], k)
        ==> Clear(Steps(h, START, steps[..n]), k)
  }

  lemma ClearMeansNone(w: World, k: Scope)
    requires Tallied(w, k)
    ensures Clear(w, k) <==> CreatedWith(w.created, k) == 0
  {
    hide At, CreatedWith;
  }

  lemma StepCreates(h: Host, w: World, s: Step, k: Scope)
    ensures CreatedWith(Take(h, w, s).created, k) == CreatedWith(w.created, k) + if CreatesWith(w, s, k) then 1 else 0
  {
    hide CreatedWith, StoreFails, Hash, Snapshot;
    if Enabled(w, s) && s.Create? {
      OneMore(w.created, w.calls[s.i].call.scope, k);
    }
  }

  /** In any run, whatever overlaps, fails or is lost, at most one resource is created with the key if
      and only if every creation starts from a world that is clear of it. */
  lemma {:induction false} OnceOnlyExactly(h: Host, steps: seq<Step>, k: Scope)
    ensures CreatedWith(Steps(h, START, steps).created, k) <= 1 <==> CreatesOnlyWhenClear(h, steps, k)
  {
    if steps != [] {
      hide Take, Clear, CreatesWith, CreatedWith, Tallied;
      var n := |steps| - 1;
      var w := Steps(h, START, steps[..n]);
      OnceOnlyExactly(h, steps[..n], k);
      PrefixesCreateWhenClear(h, steps, k);
      CountingLaw(h, steps[..n], k);
      ClearMeansNone(w, k);
      StepCreates(h, w, steps[n], k);
      hide CreatesOnlyWhenClear;
    }
  }

  lemma PrefixesCreateWhenClear(h: Host, steps: seq<Step>, k: Scope)
    requires steps != []
    ensures var n := |steps| - 1; var w := Steps(h, START, steps[..n]);
            CreatesOnlyWhenClear(h, steps, k)
            <==> CreatesOnlyWhenClear(h, steps[..n], k) && (CreatesWith(w, steps[n], k) ==> Clear(w, k))
  {
    hide Steps, CreatesWith, Clear;
    var n := |steps| - 1;
    forall m | 0 <= m < n ensures steps[..n][..m] == steps[..m] && steps[..n][m] == steps[m] {
    }
  }

  // ---- Calls that do not overlap ----

  /** Calls with the key that are past their look-up and not yet answered. */
  function Busy(calls: seq<Entry>, k: Scope): set<nat> {
    At(calls, k, BetweenLookAndCreate) + At(calls, k, BetweenCommits)
  }

  /** No two calls with the key are ever between look-up and answer at the same time. */
  ghost predicate NoOverlap(h: Host, steps: seq<Step>, k: Scope) {
    forall n :: 0 <= n <= |steps| ==> |Busy(Steps(h, START, steps[..n]).calls, k)| <= 1
  }

  /** While a call with the key is busy there is no record, unless a response was lost. */
  predicate Undisputed(w: World, k: Scope) {
    At(w.calls, k, WithoutRecord) == {} && Busy(w.calls, k) != {} ==> k !in w.records
  }

  lemma NoLossBefore(h: Host, w: World, s: Step, k: Scope)
    requires At(Take(h, w, s).calls, k, WithoutRecord) == {}
    ensures At(w.calls, k, WithoutRecord) == {}
  {
    StepExtends(h, w, s);
    hide Take;
    assert At(w.calls, k, WithoutRecord) <= At(Take(h, w, s).calls, k, WithoutRecord);
  }

  lemma BusyAfterMove(w: World, i: nat, phase: Phase, k: Scope)
    requires i < |w.calls|
    ensures Busy(Move(w, i, phase).calls, k)
            == if w.calls[i].call.scope != Some(k) then Busy(w.calls, k)
               else if phase.Looked? || phase.Created? then Busy(w.calls, k) + {i}
               else Busy(w.calls, k) - {i}
  {
    AtAfterMove(w, i, phase, k, BetweenLookAndCreate);
    AtAfterMove(w, i, phase, k, BetweenCommits);
  }

  lemma OnlyMember(s: set<nat>, i: nat)
    requires i in s && |s| <= 1
    ensures s == {i}
  {
    assert |s - {i}| == |s| - 1;
    assert s == {i} + (s - {i});
  }

  lemma AloneInBusy(calls: seq<Entry>, k: Scope, i: nat)
    requires i < |calls| && calls[i].call.scope == Some(k) && (calls[i].phase.Looked? || calls[i].phase.Created?)
    requires |Busy(calls, k)| <= 1
    ensures Busy(calls, k) == {i}
  {
    assert i in Busy(calls, k);
    hide Busy;
    OnlyMember(Busy(calls, k), i);
  }

  lemma StoreKeepsUndisputed(h: Host, w: World, i: nat, fault: Option<nat>, k: Scope)
    requires i < |w.calls| && w.calls[i].phase.Created? && |Busy(w.calls, k)| <= 1
    requires Busy(w.calls, k) != {} ==> k !in w.records
    requires Busy(TakeStore(h, w, i, fault).calls, k) != {}
    ensures k !in TakeStore(h, w, i, fault).records
  {
    StoreOutcome(h, w, i, fault, k);
    BusyAfterMove(w, i, TakeStore(h, w, i, fault).calls[i].phase, k);
    if w.calls[i].call.scope == Some(k) {
      AloneInBusy(w.calls, k, i);
    }
    hide TakeStore, At, Busy, Move;
  }

  /** Only a look-up that finds no record makes a call busy. */
  lemma MoveKeepsUndisputed(h: Host, w: World, s: Step, k: Scope)
    requires Enabled(w, s) && (s.Admit? || s.Look? || s.Create?)
    requires Busy(w.calls, k) != {} ==> k !in w.records
    requires Busy(Take(h, w, s).calls, k) != {}
    ensures k !in Take(h, w, s).records
  {
    BusyAfterMove(w, s.i, Take(h, w, s).calls[s.i].phase, k);
    if s.Create? && w.calls[s.i].call.scope == Some(k) {
      assert s.i in At(w.calls, k, BetweenLookAndCreate);
    }
    hide At, Hash;
  }

  lemma StepKeepsUndisputed(h: Host, w: World, s: Step, k: Scope)
    requires Undisputed(w, k) && |Busy(w.calls, k)| <= 1
    ensures Undisputed(Take(h, w, s), k)
  {
    if Enabled(w, s) && At(Take(h, w, s).calls, k, WithoutRecord) == {} && Busy(Take(h, w, s).calls, k) != {} {
      NoLossBefore(h, w, s, k);
      match s
      case Arrive(call) =>
        AtAfterArrival(w.calls, call, k, BetweenLookAndCreate);
        AtAfterArrival(w.calls, call, k, BetweenCommits);
      case Store(i, fault) => StoreKeepsUndisputed(h, w, i, fault, k);
      case _ => MoveKeepsUndisputed(h, w, s, k);
    }
    hide At, Busy, TakeStore, TakeLook, TakeCreate;
  }

  lemma {:induction false} StaysUndisputed(h: Host, steps: seq<Step>, k: Scope)
    requires NoOverlap(h, steps, k)
    ensures Undisputed(Steps(h, START, steps), k)
  {
    if steps == [] {
      assert Busy(START.calls, k) == {};
    } else {
      hide Take, Busy, At, Undisputed;
      var n := |steps| - 1;
      assert |Busy(Steps(h, START, steps[..n]).calls, k)| <= 1;
      forall m | 0 <= m <= n ensures |Busy(Steps(h, START, steps[..n][..m]).calls, k)| <= 1 {
        assert steps[..n][..m] == steps[..m];
      }
      StaysUndisputed(h, steps[..n], k);
      StepKeepsUndisputed(h, Steps(h, START, steps[..n]), steps[n], k);
    }
  }

  lemma NoOverlapBefore(h: Host, steps: seq<Step>, k: Scope)
    requires NoOverlap(h, steps, k) && steps != []
    ensures NoOverlap(h, steps[..|steps| - 1], k)
  {
    hide Steps, Busy;
    var n := |steps| - 1;
    forall m | 0 <= m <= n ensures steps[..n][..m] == steps[..m] {
    }
  }

  /** A call that is about to create and is alone with its key finds it clear. */
  lemma AloneIsClear(w: World, s: Step, k: Scope)
    requires Undisputed(w, k) && |Busy(w.calls, k)| <= 1 && At(w.calls, k, WithoutRecord) == {} && CreatesWith(w, s, k)
    ensures Clear(w, k)
  {
    AloneInBusy(w.calls, k, s.i);
    assert s.i !in At(w.calls, k, BetweenCommits);
    assert At(w.calls, k, BetweenCommits) <= Busy(w.calls, k);
  }

  /** Without overlap on the key and without a lost response every creation finds the key clear. */
  lemma {:induction false} SerialCallsCreateWhenClear(h: Host, steps: seq<Step>, k: Scope)
    requires NoOverlap(h, steps, k) && At(Steps(h, START, steps).calls, k, WithoutRecord) == {}
    ensures CreatesOnlyWhenClear(h, steps, k)
  {
    if steps != [] {
      var n := |steps| - 1;
      var w := Steps(h, START, steps[..n]);
      assert |Busy(w.calls, k)| <= 1;
      NoOverlapBefore(h, steps, k);
      NoLossBefore(h, w, steps[n], k);
      SerialCallsCreateWhenClear(h, steps[..n], k);
      StaysUndisputed(h, steps[..n], k);
      PrefixesCreateWhenClear(h, steps, k);
      hide Take, Busy, At, Undisputed, NoOverlap, CreatesOnlyWhenClear, Clear, CreatesWith, Steps;
      if CreatesWith(w, steps[n], k) {
        AloneIsClear(w, steps[n], k);
      }
    }
  }

  /** Without overlap on the key and without a lost response, any number of calls creates at most one
      resource. */
  lemma OnceOnly(h: Host, steps: seq<Step>, k: Scope)
    requires NoOverlap(h, steps, k) && At(Steps(h, START, steps).calls, k, WithoutRecord) == {}
    ensures CreatedWith(Steps(h, START, steps).created, k) <= 1
  {
    SerialCallsCreateWhenClear(h, steps, k);
    OnceOnlyExactly(h, steps, k);
    hide CreatesOnlyWhenClear, CreatedWith, Steps, NoOverlap;
  }

  // ---- One call without interruption ----

  /** The steps of a call that nobody overtakes. */
  function Serving(n: nat, call: Call, allowed: bool, result: Option<Secrets.Value>, fault: Option<nat>): seq<Step> {
    [Arrive(call), Admit(n, allowed), Look(n), Create(n, result), Store(n, fault)]
  }

  /** What such a call ends with, and the records after it. */
  function Served(h: Host, records: Records, call: Call, allowed: bool, result: Option<Secrets.Value>,
                  fault: Option<nat>)
    : (Phase, Records)
  {
    if !allowed then (Refused, records)
    else
      match Start(records, call.scope, Hash(h, call))
      case Replay(record) => (Replayed(record), records)
      case Conflict => (Conflicted, records)
      case NoKey => (if result.None? then Refused else Replied(result.value), records)
      case Proceed(scope) =>
        if result.None? then (Refused, records)
        else
          var snapshot := Snapshot(call.route, result.value);
          if StoreFails(h.casing, records, scope, snapshot, fault) then (Lost(result.value), records)
          else (Replied(result.value), records[scope := Record(Hash(h, call), CREATED, snapshot)])
  }

  /** The call reaches its creation and the creation commits. */
  predicate Creates(h: Host, records: Records, call: Call, allowed: bool, result: Option<Secrets.Value>) {
    var started := Start(records, call.scope, Hash(h, call));
    allowed && result.Some? && (started.NoKey? || started.Proceed?)
  }

  lemma StepsThenOne(h: Host, w: World, steps: seq<Step>, s: Step)
    ensures Steps(h, w, steps + [s]) == Take(h, Steps(h, w, steps), s)
  {
    assert (steps + [s])[..|steps|] == steps;
  }

  lemma ServingInSteps(h: Host, w: World, call: Call, allowed: bool, result: Option<Secrets.Value>, fault: Option<nat>)
    ensures var n := |w.calls|;
            Steps(h, w, Serving(n, call, allowed, result, fault))
            == Take(h, Take(h, Take(h, Take(h, Take(h, w, Arrive(call)), Admit(n, allowed)), Look(n)),
                            Create(n, result)),
                    Store(n, fault))
  {
    hide Take;
    var n := |w.calls|;
    var a, b, c, d, e := Arrive(call), Admit(n, allowed), Look(n), Create(n, result), Store(n, fault);
    StepsThenOne(h, w, [], a);
    StepsThenOne(h, w, [a], b);
    StepsThenOne(h, w, [a, b], c);
    StepsThenOne(h, w, [a, b, c], d);
    StepsThenOne(h, w, [a, b, c, d], e);
    assert Steps(h, w, []) == w;
    hide Steps;
    assert [] + [a] == [a] && [a] + [b] == [a, b] && [a, b] + [c] == [a, b, c];
    assert [a, b, c] + [d] == [a, b, c, d] && [a, b, c, d] + [e] == [a, b, c, d, e];
  }

  /** A route that runs from start to end is one run of the machine. */
  lemma ServedIsARun(h: Host, w: World, call: Call, allowed: bool, result: Option<Secrets.Value>, fault: Option<nat>)
    ensures var v := Steps(h, w, Serving(|w.calls|, call, allowed, result, fault));
            && v.calls == w.calls + [Entry(call, Served(h, w.records, call, allowed, result, fault).0)]
            && v.records == Served(h, w.records, call, allowed, result, fault).1
            && v.created == w.created + if Creates(h, w.records, call, allowed, result) then [call.scope] else []
  {
    hide Hash, Snapshot, StoreFails, Steps, Serving;
    ServingInSteps(h, w, call, allowed, result, fault);
    var n := |w.calls|;
    var arrived := Take(h, w, Arrive(call));
    assert arrived == w.(calls := w.calls + [Entry(call, Arrived)]);
    var admitted := Take(h, arrived, Admit(n, allowed));
    assert admitted == w.(calls := w.calls + [Entry(call, if allowed then Admitted else Refused)]);
    if allowed {
      var started := Start(w.records, call.scope, Hash(h, call));
      var looked := Take(h, admitted, Look(n));
      assert looked.records == w.records && looked.created == w.created;
      assert looked.calls == w.calls + [Entry(call, if started.Replay? then Replayed(started.record)
                                                    else if started.Conflict? then Conflicted else Looked)];
      hide Start;
    }
  }

  /** A creation that fails leaves its key as usable as before: the next call with it creates. */
  lemma FailedCreateLeavesKeyReusable(h: Host, w: World, i: nat, k: Scope, retry: Call, response: Secrets.Value)
    requires i < |w.calls| && w.calls[i].phase.Looked? && w.calls[i].call.scope == Some(k) && k !in w.records
    requires retry.scope == Some(k) && Secrets.FindSecretField(h.casing, Snapshot(retry.route, response)).None?
    ensures var v := Take(h, w, Create(i, None));
            && v.records == w.records && v.created == w.created
            && var u := Steps(h, v, Serving(|v.calls|, retry, true, Some(response), None));
               && u.calls == v.calls + [Entry(retry, Replied(response))] && k in u.records
               && CreatedWith(u.created, k) == CreatedWith(w.created, k) + 1
  {
    var v := Take(h, w, Create(i, None));
    hide Snapshot, Hash, Secrets.FindSecretField;
    ServedIsARun(h, v, retry, true, Some(response), None);
    OneMore(w.created, Some(k), k);
    hide Steps, CreatedWith;
  }

  /** Seen from one call that nobody overtakes and whose creation would succeed: it leaves at most one
      resource if and only if there was at most one and the key has its record or is clear. */
  lemma OneCallCreatesOnceExactly(h: Host, steps: seq<Step>, k: Scope, call: Call, response: Secrets.Value,
                                  fault: Option<nat>)
    requires call.scope == Some(k)
    ensures var w := Steps(h, START, steps);
            var v := Steps(h, w, Serving(|w.calls|, call, true, Some(response), fault));
            CreatedWith(v.created, k) <= 1 <==> CreatedWith(w.created, k) <= 1 && (k in w.records || Clear(w, k))
  {
    var w := Steps(h, START, steps);
    CountingLaw(h, steps, k);
    ClearMeansNone(w, k);
    ServedIsARun(h, w, call, true, Some(response), fault);
    OneMore(w.created, Some(k), k);
    hide Steps, Serving, CreatedWith, Clear, Hash, Tallied;
    assert w.created + [] == w.created;
  }

  // ---- How a key comes to create twice ----

  /** A run one step longer: what it reaches follows from the step. */
  lemma OneStep(h: Host, steps: seq<Step>, s: Step) returns (longer: seq<Step>, w: World)
    ensures longer == steps + [s] && w == Steps(h, START, longer) == Take(h, Steps(h, START, steps), s)
  {
    StepsThenOne(h, START, steps, s);
    longer := steps + [s];
    w := Steps(h, START, longer);
  }

  lemma StepsOfNothing(h: Host)
    ensures Steps(h, START, []) == START
  {
  }

  lemma TwoInFlight(call: Call, k: Scope, response: Secrets.Value)
    ensures CreatedWith([Some(k), Some(k)], k) == 2
    ensures At([Entry(call, Created(response)), Entry(call, Created(response))], k, WithoutRecord) == {}
  {
  }

  /** Two overlapping calls with one key create two resources, though no response is lost. */
  lemma OverlapCreatesTwice(h: Host, call: Call, k: Scope, response: Secrets.Value) returns (steps: seq<Step>)
    requires call.scope == Some(k)
    ensures CreatedWith(Steps(h, START, steps).created, k) == 2
    ensures At(Steps(h, START, steps).calls, k, WithoutRecord) == {}
  {
    hide Hash, Steps, At, CreatedWith, TakeStore;
    var w;
    StepsOfNothing(h);
    steps, w := OneStep(h, [], Arrive(call));
    steps, w := OneStep(h, steps, Arrive(call));
    assert w == World(map[], [Entry(call, Arrived), Entry(call, Arrived)], [], 0, 0);
    steps, w := OneStep(h, steps, Admit(0, true));
    steps, w := OneStep(h, steps, Admit(1, true));
    assert w == World(map[], [Entry(call, Admitted), Entry(call, Admitted)], [], 0, 0);
    steps, w := OneStep(h, steps, Look(0));
    steps, w := OneStep(h, steps, Look(1));
    assert w == World(map[], [Entry(call, Looked), Entry(call, Looked)], [], 0, 0);
    steps, w := OneStep(h, steps, Create(0, Some(response)));
    steps, w := OneStep(h, steps, Create(1, Some(response)));
    assert w.created == [Some(k), Some(k)]
           && w.calls == [Entry(call, Created(response)), Entry(call, Created(response))];
    TwoInFlight(call, k, response);
  }

  /** A call whose response was lost and its repetition, one after the other, create two. */
  lemma LostResponseCreatesTwice(h: Host, call: Call, k: Scope, response: Secrets.Value)
    requires call.scope == Some(k)
    ensures var first := Serving(0, call, true, Some(response), Some(0));
            var w := Steps(h, START, first);
            var v := Steps(h, w, Serving(1, call, true, Some(response), None));
            w.calls == [Entry(call, Lost(response))] && CreatedWith(v.created, k) == 2
  {
    hide Hash, Steps, Snapshot, Secrets.FindSecretField;
    ServedIsARun(h, START, call, true, Some(response), Some(0));
    var w := Steps(h, START, Serving(0, call, true, Some(response), Some(0)));
    assert w.calls == [Entry(call, Lost(response))];
    ServedIsARun(h, w, call, true, Some(response), None);
    OneMore([], Some(k), k);
    OneMore([Some(k)], Some(k), k);
    assert w.created == [] + [Some(k)];
  }

  // ---- No route is ever refused its snapshot ----

  /** The responses of the three routes. */
  ghost predicate IsResponseOf(route: Route, response: Secrets.Value) {
    match route
    case OrganisationRoute => exists s :: IsFlat(Secrets.ORGANISATION_FIELDS, s, response)
    case ProjectRoute => exists s :: IsFlat(Secrets.PROJECT_FIELDS, s, response)
    case ApiKeyRoute => exists s, raw :: IsKeyResponse(s, raw, response)
  }

  predicate IsFlat(fields: seq<string>, scalars: seq<string>, response: Secrets.Value) {
    |scalars| == |fields| && response == Secrets.Fields(fields, scalars)
  }

  predicate IsKeyResponse(scalars: seq<string>, rawKey: string, response: Secrets.Value) {
    |scalars| == |Secrets.API_KEY_FIELDS| && response == Secrets.Mapping(Secrets.ApiKeyCreateEntries(scalars, rawKey))
  }

  /** What a route stores of its own response holds no secret field, so the response is lost exactly
      when a flush or the commit fails or another call's record is there first. */
  lemma OnlyFaultsAndClashesLose(h: Host, w: World, i: nat, fault: Option<nat>)
    requires KeepsPlain(h.casing)
    requires i < |w.calls| && w.calls[i].phase.Created? && w.calls[i].call.scope.Some?
    requires IsResponseOf(w.calls[i].call.route, w.calls[i].phase.response)
    ensures Take(h, w, Store(i, fault)).calls[i].phase.Lost?
            <==> FailsBy(fault, 1) || w.calls[i].call.scope.value in w.records
  {
    RouteSnapshotAccepted(h.casing, w.calls[i].call.route, w.calls[i].phase.response);
    hide Snapshot, Secrets.FindSecretField, Hash;
  }

  lemma RouteSnapshotAccepted(casing: Casing, route: Route, response: Secrets.Value)
    requires KeepsPlain(casing) && IsResponseOf(route, response)
    ensures Secrets.FindSecretField(casing, Snapshot(route, response)).None?
  {
    hide Secrets.FindSecretField, Secrets.ReplayBody, Secrets.Fields, Secrets.ApiKeyCreateEntries;
    var o, p, k := Blanks(5), Blanks(9), Blanks(9);
    match route
    case OrganisationRoute =>
      var s :| IsFlat(Secrets.ORGANISATION_FIELDS, s, response);
      Secrets.RouteSnapshotsAccepted(casing, s, p, k, "");
    case ProjectRoute =>
      var s :| IsFlat(Secrets.PROJECT_FIELDS, s, response);
      Secrets.RouteSnapshotsAccepted(casing, o, s, k, "");
    case ApiKeyRoute =>
      var s, raw :| IsKeyResponse(s, raw, response);
      Secrets.RouteSnapshotsAccepted(casing, o, p, s, raw);
  }

  function Blanks(n: nat): seq<string> {
    seq(n, _ => "")
  }

  // ---- The counters ----

  function With(calls: seq<Entry>, place: Place): set<nat> {
    set i: nat | i < |calls| && PlaceOf(calls[i].phase) == place
  }

  /** The replay counter counts the replayed calls and the conflict counter the conflicting ones. */
  predicate CountersMatch(w: World) {
    w.replays == |With(w.calls, WithReplay)| && w.conflicts == |With(w.calls, WithConflict)|
  }

  lemma WithAfterMove(w: World, i: nat, phase: Phase, place: Place)
    requires i < |w.calls| && PlaceOf(w.calls[i].phase) != place
    ensures i !in With(w.calls, place)
    ensures With(Move(w, i, phase).calls, place) == With(w.calls, place) + if PlaceOf(phase) == place then {i} else {}
  {
  }

  lemma CountAfterMove(w: World, i: nat, phase: Phase, place: Place)
    requires i < |w.calls| && PlaceOf(w.calls[i].phase) != place
    ensures |With(Move(w, i, phase).calls, place)| == |With(w.calls, place)| + if PlaceOf(phase) == place then 1 else 0
  {
    WithAfterMove(w, i, phase, place);
    hide With, Move;
    if PlaceOf(phase) != place {
      assert With(w.calls, place) + {} == With(w.calls, place);
    }
  }

  lemma WithAfterArrival(calls: seq<Entry>, call: Call, place: Place)
    requires place != BeforeLook
    ensures With(calls + [Entry(call, Arrived)], place) == With(calls, place)
  {
  }

  lemma StepKeepsCounters(h: Host, w: World, s: Step)
    requires CountersMatch(w)
    ensures CountersMatch(Take(h, w, s))
  {
    hide With, Hash, StoreFails, Snapshot;
    if Enabled(w, s) {
      if s.Arrive? {
        WithAfterArrival(w.calls, s.call, WithReplay);
        WithAfterArrival(w.calls, s.call, WithConflict);
      } else {
        CountAfterMove(w, s.i, Take(h, w, s).calls[s.i].phase, WithReplay);
        CountAfterMove(w, s.i, Take(h, w, s).calls[s.i].phase, WithConflict);
      }
    }
  }

  lemma {:induction false} CountersMatchAnswers(h: Host, steps: seq<Step>)
    ensures CountersMatch(Steps(h, START, steps))
  {
    if steps == [] {
      assert With(START.calls, WithReplay) == {} && With(START.calls, WithConflict) == {};
    } else {
      hide Take, CountersMatch;
      CountersMatchAnswers(h, steps[..|steps| - 1]);
      StepKeepsCounters(h, Steps(h, START, steps[..|steps| - 1]), steps[|steps| - 1]);
    }
  }
}
