/**
 Fault reports of the Kayan service: their status graph, their recorded history and their
 ratings, as a state machine with one step per service call, and what holds over whole
 runs of calls.
 */
module Faults {
  import opened Seqs
  import opened Wrappers

  import Assets

  // ---------- The status graph ----------

  datatype FaultStatus = Received | Assigned | OnTheWay | InProgress | Finished | Cancelled

  function Transitions(s: FaultStatus): seq<FaultStatus> {
    match s
    case Received => [Assigned, Cancelled]
    case Assigned => [OnTheWay, Cancelled]
    case OnTheWay => [InProgress, Cancelled]
    case InProgress => [Finished, Cancelled]
    case Finished => []
    case Cancelled => []
  }

  // Staying is always allowed, and is recorded like a change.
  predicate ValidTransition(current: FaultStatus, next: FaultStatus) {
    current == next || next in Transitions(current)
  }

  predicate Terminal(s: FaultStatus) {
    s == Finished || s == Cancelled
  }

  // ---------- Tables and calls ----------

  datatype Details = Details(title: string, description: string, severity: string, address: string)
  datatype Changes = Changes(title: Option<string>, description: Option<string>, severity: Option<string>, address: Option<string>)

  datatype Fault = Fault(userId: int, details: Details, status: FaultStatus, cancelledAt: bool)
  datatype HistoryRow = HistoryRow(faultId: int, status: FaultStatus, changedBy: int)
  datatype Rating = Rating(userId: int, faultId: int, value: int)

  // A rollback restores everything but the identity counter.
  datatype Db = Db(faults: map<int, Fault>, history: seq<HistoryRow>, ratings: seq<Rating>, nextFaultId: int)

  const EMPTY_DB := Db(map[], [], [], 1)

  datatype Error =
    | NotFound | Forbidden | ProcessingStarted | InvalidTransition | NotCompleted | RatingExists
    | BadImages(problem: Assets.Error)

  // `images` is the problem of the request's images, if they have one; module Assets says which.
  datatype Op =
    | CreateFault(user: int, details: Details, images: Option<Assets.Error>)
    | UpdateFault(user: int, faultId: int, changes: Changes, images: Option<Assets.Error>)
    | CancelFault(user: int, faultId: int)
    | AdminUpdateFaultStatus(admin: int, faultId: int, status: FaultStatus)
    | RateFault(user: int, faultId: int, value: int)

  datatype Outcome = Outcome(db: Db, result: Result<(), Error>)

  function Merge(d: Details, c: Changes): Details {
    Details(Coalesce(c.title, d.title), Coalesce(c.description, d.description),
            Coalesce(c.severity, d.severity), Coalesce(c.address, d.address))
  }

  predicate Owns(db: Db, user: int, faultId: int) {
    faultId in db.faults && db.faults[faultId].userId == user
  }

  predicate HasRated(db: Db, user: int, faultId: int) {
    exists r :: r in db.ratings && r.userId == user && r.faultId == faultId
  }

  // The status column and the history move together.
  function Recorded(db: Db, faultId: int, fault: Fault, changedBy: int): Db {
    db.(faults := db.faults[faultId := fault], history := db.history + [HistoryRow(faultId, fault.status, changedBy)])
  }

  function RateError(db: Db, user: int, faultId: int): Option<Error> {
    if faultId !in db.faults then Some(NotFound)
    else if db.faults[faultId].userId != user then Some(Forbidden)
    else if db.faults[faultId].status != Finished then Some(NotCompleted)
    else if HasRated(db, user, faultId) then Some(RatingExists)
    else None
  }

  function ExecCreate(db: Db, user: int, details: Details, images: Option<Assets.Error>): Outcome {
    var db' := db.(nextFaultId := db.nextFaultId + 1);
    if images.Some? then Outcome(db', Err(BadImages(images.value)))
    else Outcome(Recorded(db', db.nextFaultId, Fault(user, details, Received, false), user), Ok(()))
  }

  function ExecUpdate(db: Db, user: int, id: int, changes: Changes, images: Option<Assets.Error>): Outcome {
    if !Owns(db, user, id) then Outcome(db, Err(NotFound))
    else if db.faults[id].status != Received then Outcome(db, Err(ProcessingStarted))
    else if images.Some? then Outcome(db, Err(BadImages(images.value)))
    else Outcome(db.(faults := db.faults[id := db.faults[id].(details := Merge(db.faults[id].details, changes))]), Ok(()))
  }

  function ExecCancel(db: Db, user: int, id: int): Outcome {
    if !Owns(db, user, id) then Outcome(db, Err(NotFound))
    else if db.faults[id].status != Received then Outcome(db, Err(ProcessingStarted))
    else Outcome(Recorded(db, id, db.faults[id].(status := Cancelled, cancelledAt := true), user), Ok(()))
  }

  function ExecSetStatus(db: Db, admin: int, id: int, status: FaultStatus): Outcome {
    if id !in db.faults then Outcome(db, Err(NotFound))
    else if !ValidTransition(db.faults[id].status, status) then Outcome(db, Err(InvalidTransition))
    else Outcome(Recorded(db, id, db.faults[id].(status := status), admin), Ok(()))
  }

  function ExecRate(db: Db, user: int, id: int, value: int): Outcome {
    match RateError(db, user, id)
    case Some(e) => Outcome(db, Err(e))
    case None => Outcome(db.(ratings := db.ratings + [Rating(user, id, value)]), Ok(()))
  }

  function Exec(db: Db, op: Op): Outcome {
    match op
    case CreateFault(user, details, images) => ExecCreate(db, user, details, images)
    case UpdateFault(user, id, changes, images) => ExecUpdate(db, user, id, changes, images)
    case CancelFault(user, id) => ExecCancel(db, user, id)
    case AdminUpdateFaultStatus(admin, id, status) => ExecSetStatus(db, admin, id, status)
    case RateFault(user, id, value) => ExecRate(db, user, id, value)
  }

  function Next(): (Db, Op) -> Db {
    (db: Db, op: Op) => Exec(db, op).db
  }

  function Run(db: Db, ops: seq<Op>): Db {
    Fold(Next(), db, ops)
  }

  // ---------- Trails ----------

  // The statuses a fault went through, as recorded.
  function Trail(history: seq<HistoryRow>, faultId: int): seq<FaultStatus> {
    if history == [] then []
    else
      var n := |history| - 1;
      Trail(history[..n], faultId) + if history[n].faultId == faultId then [history[n].status] else []
  }

  // A path of the graph from `Received` that may stay where it is.
  predicate Stuttering(path: seq<FaultStatus>) {
    && path != []
    && path[0] == Received
    && forall i :: 0 < i < |path| ==> ValidTransition(path[i - 1], path[i])
  }

  // The path without its repetitions.
  function Squeezed(path: seq<FaultStatus>): (r: seq<FaultStatus>)
    ensures path != [] ==> r != [] && r[|r| - 1] == path[|path| - 1]
    ensures |r| <= |path|
  {
    if |path| <= 1 then path
    else
      var n := |path| - 1;
      Squeezed(path[..n]) + if path[n - 1] != path[n] then [path[n]] else []
  }

  // From reception step by step to the finish, or cancelled on the way.
  predicate Itinerary(stops: seq<FaultStatus>) {
    && stops != []
    && var n := |stops| - 1;
       || stops <= [Received, Assigned, OnTheWay, InProgress, Finished]
       || (n >= 1 && stops[n] == Cancelled && stops[..n] <= [Received, Assigned, OnTheWay, InProgress])
  }

  // From a stop of the route the graph leads to the next one, or off it.
  lemma NextOnRoute(n: nat, next: FaultStatus)
    requires 1 <= n <= 5
    ensures var route := [Received, Assigned, OnTheWay, InProgress, Finished];
      next != route[n - 1] ==> (ValidTransition(route[n - 1], next) <==> n < 5 && (next == route[n] || next == Cancelled))
  {
    assert n == 1 || n == 2 || n == 3 || n == 4 || n == 5;
  }

  lemma OnRouteOrOff(stops: seq<FaultStatus>, next: FaultStatus)
    requires stops != []
    ensures var route := [Received, Assigned, OnTheWay, InProgress, Finished];
      Itinerary(stops + [next]) <==> stops <= route && |stops| < 5 && (next == route[|stops|] || next == Cancelled)
  {
    var route := [Received, Assigned, OnTheWay, InProgress, Finished];
    assert route[..4] == [Received, Assigned, OnTheWay, InProgress];
    assert (stops + [next])[..|stops|] == stops;
    PrefixGrows(stops, next, route);
  }

  lemma OneMoreStop(stops: seq<FaultStatus>, next: FaultStatus)
    requires stops != [] && next != stops[|stops| - 1]
    ensures Itinerary(stops + [next]) <==> Itinerary(stops) && ValidTransition(stops[|stops| - 1], next)
  {
    var route := [Received, Assigned, OnTheWay, InProgress, Finished];
    var n := |stops|;
    OnRouteOrOff(stops, next);
    if stops <= route {
      assert stops[n - 1] == route[n - 1];
      NextOnRoute(n, next);
    } else {
      assert Itinerary(stops) ==> stops[n - 1] == Cancelled;
    }
  }

  lemma StutteringOneMore(path: seq<FaultStatus>, next: FaultStatus)
    requires path != []
    ensures Stuttering(path + [next]) <==> Stuttering(path) && ValidTransition(path[|path| - 1], next)
  {
    var n := |path|;
    assert forall i :: 0 <= i < n ==> (path + [next])[i] == path[i];
    assert (path + [next])[n] == next;
  }

  lemma SqueezedOneMore(path: seq<FaultStatus>, next: FaultStatus)
    requires path != []
    ensures Squeezed(path + [next]) == Squeezed(path) + if next == path[|path| - 1] then [] else [next]
  {
    assert (path + [next])[..|path|] == path;
  }

  lemma OneStop(stop: FaultStatus)
    ensures Itinerary([stop]) <==> stop == Received
    ensures Stuttering([stop]) <==> stop == Received
  {
    PrefixGrows([], stop, [Received, Assigned, OnTheWay, InProgress, Finished]);
    assert [stop] == [] + [stop];
  }

  lemma OneMoreOnPath(init: seq<FaultStatus>, next: FaultStatus)
    requires init != [] && (Stuttering(init) <==> Itinerary(Squeezed(init)))
    ensures Stuttering(init + [next]) <==> Itinerary(Squeezed(init + [next]))
  {
    StutteringOneMore(init, next);
    SqueezedOneMore(init, next);
    if next == init[|init| - 1] {
      assert Squeezed(init) + [] == Squeezed(init);
    } else {
      OneMoreStop(Squeezed(init), next);
    }
  }

  /** The graph allows exactly the itineraries, with repetitions. */
  lemma {:induction false} StutteringIff(path: seq<FaultStatus>)
    requires path != []
    ensures Stuttering(path) <==> Itinerary(Squeezed(path))
  {
    var n := |path| - 1;
    if n == 0 {
      OneStop(path[0]);
      assert path == [path[0]];
    } else {
      assert path == path[..n] + [path[n]];
      StutteringIff(path[..n]);
      OneMoreOnPath(path[..n], path[n]);
    }
  }

  function Changed(path: seq<FaultStatus>): nat {
    if |path| <= 1 then 0
    else
      var n := |path| - 1;
      Changed(path[..n]) + if path[n - 1] != path[n] then 1 else 0
  }

  function Rank(s: FaultStatus): nat {
    match s
    case Received => 0
    case Assigned => 1
    case OnTheWay => 2
    case InProgress => 3
    case Finished => 4
    case Cancelled => 4
  }

  /** However long its history, a fault changes its status at most four times. */
  lemma {:induction false} AtMostFourChanges(path: seq<FaultStatus>)
    requires Stuttering(path)
    ensures Changed(path) <= Rank(path[|path| - 1]) <= 4
  {
    if |path| > 1 {
      var n := |path| - 1;
      AtMostFourChanges(path[..n]);
      assert ValidTransition(path[n - 1], path[n]);
    }
  }

  // ---------- The invariant ----------

  predicate ValidFault(db: Db, id: int)
    requires id in db.faults
  {
    var fault, trail := db.faults[id], Trail(db.history, id);
    && id < db.nextFaultId
    && Stuttering(trail)
    && trail[|trail| - 1] == fault.status
    && (fault.cancelledAt ==> fault.status == Cancelled && HistoryRow(id, Cancelled, fault.userId) in db.history)
  }

  predicate ValidRating(db: Db, r: Rating) {
    Owns(db, r.userId, r.faultId) && db.faults[r.faultId].status == Finished
  }

  predicate Valid(db: Db) {
    && (forall id :: id in db.faults ==> ValidFault(db, id))
    && (forall i :: 0 <= i < |db.history| ==> db.history[i].faultId in db.faults)
    && (forall i :: 0 <= i < |db.ratings| ==> ValidRating(db, db.ratings[i]))
    && (forall i, j :: 0 <= i < j < |db.ratings| ==>
          db.ratings[i].userId != db.ratings[j].userId || db.ratings[i].faultId != db.ratings[j].faultId)
  }

  lemma {:induction false} NoTrail(history: seq<HistoryRow>, id: int)
    requires forall i :: 0 <= i < |history| ==> history[i].faultId != id
    ensures Trail(history, id) == []
  {
    if history != [] {
      NoTrail(history[..|history| - 1], id);
    }
  }

  lemma TrailAppend(history: seq<HistoryRow>, row: HistoryRow, id: int)
    ensures Trail(history + [row], id) == Trail(history, id) + if row.faultId == id then [row.status] else []
  {
    assert (history + [row])[..|history|] == history;
  }

  // One move of one fault along the graph, or its creation.
  predicate Moves(db: Db, id: int, fault: Fault, changedBy: int) {
    && id < db.nextFaultId
    && (id in db.faults ==> fault.userId == db.faults[id].userId && ValidTransition(db.faults[id].status, fault.status))
    && (id !in db.faults ==> fault.status == Received)
    && (fault.cancelledAt ==>
          fault.status == Cancelled && (changedBy == fault.userId || (id in db.faults && db.faults[id].cancelledAt)))
  }

  lemma MovedFaultIsValid(db: Db, id: int, fault: Fault, changedBy: int, k: int)
    requires Valid(db) && Moves(db, id, fault, changedBy) && (k in db.faults || k == id)
    ensures ValidFault(Recorded(db, id, fault, changedBy), k)
  {
    var row := HistoryRow(id, fault.status, changedBy);
    TrailAppend(db.history, row, k);
    assert row in db.history + [row];
    if k !in db.faults {
      NoTrail(db.history, k);
    } else {
      assert ValidFault(db, k);
    }
  }

  lemma RecordedKeepsValid(db: Db, id: int, fault: Fault, changedBy: int)
    requires Valid(db) && Moves(db, id, fault, changedBy)
    ensures Valid(Recorded(db, id, fault, changedBy))
  {
    var db' := Recorded(db, id, fault, changedBy);
    forall k | k in db'.faults ensures ValidFault(db', k) {
      MovedFaultIsValid(db, id, fault, changedBy, k);
    }
    forall i | 0 <= i < |db'.ratings| ensures ValidRating(db', db'.ratings[i]) {
      assert ValidRating(db, db.ratings[i]);
    }
  }

  // So does anything that leaves owners, statuses, cancellation dates, history and ratings alone.
  lemma UnmovedKeepsValid(db: Db, db': Db)
    requires Valid(db)
    requires db'.history == db.history && db'.ratings == db.ratings && db'.nextFaultId >= db.nextFaultId
    requires db'.faults.Keys == db.faults.Keys
    requires forall id :: id in db.faults ==> db'.faults[id] == db.faults[id].(details := db'.faults[id].details)
    ensures Valid(db')
  {
    forall k | k in db'.faults ensures ValidFault(db', k) {
      assert ValidFault(db, k);
    }
    forall i | 0 <= i < |db'.ratings| ensures ValidRating(db', db'.ratings[i]) {
      assert ValidRating(db, db.ratings[i]);
    }
  }

  lemma RatingKeepsValid(db: Db, r: Rating)
    requires Valid(db) && ValidRating(db, r) && !HasRated(db, r.userId, r.faultId)
    ensures Valid(db.(ratings := db.ratings + [r]))
  {
    var db' := db.(ratings := db.ratings + [r]);
    forall k | k in db'.faults ensures ValidFault(db', k) {
      assert ValidFault(db, k);
    }
    forall i | 0 <= i < |db.ratings| ensures ValidRating(db', db.ratings[i]) {
      assert ValidRating(db, db.ratings[i]);
    }
  }

  lemma NextIdIsFresh(db: Db)
    requires Valid(db)
    ensures db.nextFaultId !in db.faults
  {
    assert forall k :: k in db.faults ==> ValidFault(db, k) && k != db.nextFaultId;
  }

  lemma NextIdMayGrow(db: Db)
    requires Valid(db)
    ensures Valid(db.(nextFaultId := db.nextFaultId + 1))
  {
    UnmovedKeepsValid(db, db.(nextFaultId := db.nextFaultId + 1));
  }

  lemma CreatedKeepsValid(db: Db, id: int, user: int, details: Details)
    requires Valid(db) && id !in db.faults && id < db.nextFaultId
    ensures Valid(Recorded(db, id, Fault(user, details, Received, false), user))
  {
    RecordedKeepsValid(db, id, Fault(user, details, Received, false), user);
  }

  lemma CreateKeepsValid(db: Db, user: int, details: Details, images: Option<Assets.Error>)
    requires Valid(db)
    ensures Valid(ExecCreate(db, user, details, images).db)
  {
    NextIdIsFresh(db);
    NextIdMayGrow(db);
    if images.None? {
      CreatedKeepsValid(db.(nextFaultId := db.nextFaultId + 1), db.nextFaultId, user, details);
    }
  }

  lemma UpdateKeepsValid(db: Db, user: int, id: int, changes: Changes, images: Option<Assets.Error>)
    requires Valid(db)
    ensures Valid(ExecUpdate(db, user, id, changes, images).db)
  {
    UnmovedKeepsValid(db, ExecUpdate(db, user, id, changes, images).db);
  }

  lemma CancelKeepsValid(db: Db, user: int, id: int)
    requires Valid(db)
    ensures Valid(ExecCancel(db, user, id).db)
  {
    if Owns(db, user, id) && db.faults[id].status == Received {
      assert ValidFault(db, id);
      RecordedKeepsValid(db, id, db.faults[id].(status := Cancelled, cancelledAt := true), user);
    }
  }

  lemma SetStatusKeepsValid(db: Db, admin: int, id: int, status: FaultStatus)
    requires Valid(db)
    ensures Valid(ExecSetStatus(db, admin, id, status).db)
  {
    if id in db.faults && ValidTransition(db.faults[id].status, status) {
      assert ValidFault(db, id);
      RecordedKeepsValid(db, id, db.faults[id].(status := status), admin);
    }
  }

  lemma RateKeepsValid(db: Db, user: int, id: int, value: int)
    requires Valid(db)
    ensures Valid(ExecRate(db, user, id, value).db)
  {
    if RateError(db, user, id).None? {
      RatingKeepsValid(db, Rating(user, id, value));
    }
  }

  lemma ExecKeepsValid(db: Db, op: Op)
    requires Valid(db)
    ensures Valid(Exec(db, op).db)
  {
    match op
    case CreateFault(user, details, images) => CreateKeepsValid(db, user, details, images);
    case UpdateFault(user, id, changes, images) => UpdateKeepsValid(db, user, id, changes, images);
    case CancelFault(user, id) => CancelKeepsValid(db, user, id);
    case AdminUpdateFaultStatus(admin, id, status) => SetStatusKeepsValid(db, admin, id, status);
    case RateFault(user, id, value) => RateKeepsValid(db, user, id, value);
  }

  lemma {:induction false} RunKeepsValid(db: Db, ops: seq<Op>)
    requires Valid(db)
    ensures Valid(Run(db, ops))
  {
    if ops != [] {
      RunKeepsValid(db, ops[..|ops| - 1]);
      ExecKeepsValid(Run(db, ops[..|ops| - 1]), ops[|ops| - 1]);
    }
  }

  // ---------- What every run does ----------

  /**
   In every run, a fault's history is an itinerary with repetitions: received, assigned, on
   the way, in progress, finished, in this order and without a gap, unless it ends early or
   is cancelled on the way.  It ends at the fault's status and changes at most four times.
   */
  lemma HistoryIsPath(ops: seq<Op>, id: int)
    requires id in Run(EMPTY_DB, ops).faults
    ensures var db := Run(EMPTY_DB, ops);
      var trail := Trail(db.history, id);
      && Itinerary(Squeezed(trail))
      && trail[|trail| - 1] == db.faults[id].status
      && Changed(trail) <= 4
  {
    RunKeepsValid(EMPTY_DB, ops);
    var db := Run(EMPTY_DB, ops);
    assert ValidFault(db, id);
    AtMostFourChanges(Trail(db.history, id));
    StutteringIff(Trail(db.history, id));
  }

  lemma EndOfItinerary(stops: seq<FaultStatus>)
    requires Itinerary(stops)
    ensures stops[|stops| - 1] == Finished ==> stops == [Received, Assigned, OnTheWay, InProgress, Finished]
    ensures stops[|stops| - 1] == Cancelled ==> Finished !in stops
  {
    var n := |stops| - 1;
    var route := [Received, Assigned, OnTheWay, InProgress, Finished];
    if stops <= route {
      assert stops == route[..n + 1] && stops[n] == route[n];
    } else {
      var way := [Received, Assigned, OnTheWay, InProgress];
      assert forall i :: 0 <= i < n ==> stops[i] == stops[..n][i] == way[i];
    }
  }

  /** So a finished fault has been through all five, and a cancelled one was never finished. */
  lemma FinishedWentAllTheWay(ops: seq<Op>, id: int)
    requires id in Run(EMPTY_DB, ops).faults
    ensures var db := Run(EMPTY_DB, ops);
      var stops := Squeezed(Trail(db.history, id));
      && (db.faults[id].status == Finished ==> stops == [Received, Assigned, OnTheWay, InProgress, Finished])
      && (db.faults[id].status == Cancelled ==> Finished !in stops)
  {
    HistoryIsPath(ops, id);
    EndOfItinerary(Squeezed(Trail(Run(EMPTY_DB, ops).history, id)));
  }

  // Creates a fault and walks it along a path.
  function Walk(path: seq<FaultStatus>): seq<Op>
    requires path != []
  {
    if |path| == 1 then [CreateFault(1, Details("", "", "", ""), None)]
    else Walk(path[..|path| - 1]) + [AdminUpdateFaultStatus(2, 1, path[|path| - 1])]
  }

  // The fault is where the path has led so far.
  predicate WalkedTo(db: Db, path: seq<FaultStatus>)
    requires path != []
  {
    1 in db.faults && db.faults[1].status == path[|path| - 1] && Trail(db.history, 1) == path
  }

  lemma FirstStep(op: Op)
    requires op == CreateFault(1, Details("", "", "", ""), None)
    ensures WalkedTo(Exec(EMPTY_DB, op).db, [Received])
  {
    TrailAppend([], HistoryRow(1, Received, 1), 1);
    assert Exec(EMPTY_DB, op).db.history == [] + [HistoryRow(1, Received, 1)];
  }

  lemma NextStep(db: Db, init: seq<FaultStatus>, next: FaultStatus)
    requires init != [] && WalkedTo(db, init) && ValidTransition(init[|init| - 1], next)
    ensures WalkedTo(ExecSetStatus(db, 2, 1, next).db, init + [next])
  {
    TrailAppend(db.history, HistoryRow(1, next, 2), 1);
  }

  lemma StutteringSplit(path: seq<FaultStatus>)
    requires Stuttering(path) && |path| >= 2
    ensures var n := |path| - 1;
      path == path[..n] + [path[n]] && Stuttering(path[..n]) && ValidTransition(path[..n][n - 1], path[n])
  {
    assert ValidTransition(path[|path| - 2], path[|path| - 1]);
  }

  lemma {:induction false} StutteringWalked(path: seq<FaultStatus>)
    requires Stuttering(path)
    ensures WalkedTo(Run(EMPTY_DB, Walk(path)), path)
  {
    var n := |path| - 1;
    if n == 0 {
      var first := CreateFault(1, Details("", "", "", ""), None);
      assert Walk(path) == [first] && path == [Received];
      FoldOne(Next(), EMPTY_DB, first);
      FirstStep(first);
    } else {
      StutteringSplit(path);
      StutteringWalked(path[..n]);
      FoldOneMore(Next(), EMPTY_DB, Walk(path[..n]), AdminUpdateFaultStatus(2, 1, path[n]));
      NextStep(Run(EMPTY_DB, Walk(path[..n])), path[..n], path[n]);
    }
  }

  /** Conversely every such path is the history of a fault in some run. */
  lemma EveryPathHappens(path: seq<FaultStatus>)
    requires path != [] && Itinerary(Squeezed(path))
    ensures WalkedTo(Run(EMPTY_DB, Walk(path)), path)
  {
    StutteringIff(path);
    StutteringWalked(path);
  }

  // What no call undoes of a fault: its owner, its end, and its details once processing started.
  predicate Evolves(f: Fault, g: Fault) {
    && g.userId == f.userId
    && (Terminal(f.status) ==> g.status == f.status)
    && (f.status != Received ==> g.status != Received && g.details == f.details)
  }

  ghost predicate Extends(db: Db, later: Db) {
    && db.history <= later.history
    && db.ratings <= later.ratings
    && (forall id :: id in db.faults ==> id in later.faults && Evolves(db.faults[id], later.faults[id]))
  }

  lemma RecordedExtends(db: Db, id: int, fault: Fault, changedBy: int)
    requires id in db.faults ==> Evolves(db.faults[id], fault)
    ensures Extends(db, Recorded(db, id, fault, changedBy))
  {
  }

  lemma CreateExtends(db: Db, user: int, details: Details, images: Option<Assets.Error>)
    requires Valid(db)
    ensures Extends(db, ExecCreate(db, user, details, images).db)
  {
    NextIdIsFresh(db);
    RecordedExtends(db, db.nextFaultId, Fault(user, details, Received, false), user);
  }

  lemma CancelExtends(db: Db, user: int, id: int)
    ensures Extends(db, ExecCancel(db, user, id).db)
  {
    if Owns(db, user, id) && db.faults[id].status == Received {
      RecordedExtends(db, id, db.faults[id].(status := Cancelled, cancelledAt := true), user);
    }
  }

  lemma SetStatusExtends(db: Db, admin: int, id: int, status: FaultStatus)
    ensures Extends(db, ExecSetStatus(db, admin, id, status).db)
  {
    if id in db.faults && ValidTransition(db.faults[id].status, status) {
      RecordedExtends(db, id, db.faults[id].(status := status), admin);
    }
  }

  lemma UpdateExtends(db: Db, user: int, id: int, changes: Changes, images: Option<Assets.Error>)
    ensures Extends(db, ExecUpdate(db, user, id, changes, images).db)
  {
  }

  lemma ExecExtends(db: Db, op: Op)
    requires Valid(db)
    ensures Extends(db, Exec(db, op).db)
  {
    match op
    case CreateFault(user, details, images) => CreateExtends(db, user, details, images);
    case UpdateFault(user, id, changes, images) => UpdateExtends(db, user, id, changes, images);
    case CancelFault(user, id) => CancelExtends(db, user, id);
    case AdminUpdateFaultStatus(admin, id, status) => SetStatusExtends(db, admin, id, status);
    case RateFault(user, id, value) => assert Extends(db, ExecRate(db, user, id, value).db);
  }

  /**
   History and ratings are only ever appended to, owners stay, `Finished` and `Cancelled`
   are absorbing, and details freeze when processing starts.
   */
  lemma {:induction false} RunExtends(db: Db, ops: seq<Op>)
    requires Valid(db)
    ensures Extends(db, Run(db, ops))
  {
    if ops != [] {
      var n := |ops| - 1;
      RunExtends(db, ops[..n]);
      RunKeepsValid(db, ops[..n]);
      ExecExtends(Run(db, ops[..n]), ops[n]);
    }
  }

  lemma RatingsAreValid(db: Db, r: Rating, s: Rating)
    requires Valid(db) && r in db.ratings
    ensures ValidRating(db, r)
    ensures s in db.ratings && s.userId == r.userId && s.faultId == r.faultId ==> s == r
  {
  }

  /** Every rated fault was rated by its owner, at most once, and stays finished in every later state. */
  lemma RatedFaultsStayFinished(before: seq<Op>, after: seq<Op>, r: Rating, s: Rating)
    requires r in Run(EMPTY_DB, before).ratings
    ensures var db := Run(EMPTY_DB, before + after);
      && r in db.ratings && Owns(db, r.userId, r.faultId) && db.faults[r.faultId].status == Finished
      && (s in db.ratings && s.userId == r.userId && s.faultId == r.faultId ==> s == r)
  {
    var db, later := Run(EMPTY_DB, before), Run(EMPTY_DB, before + after);
    RunKeepsValid(EMPTY_DB, before);
    RunKeepsValid(EMPTY_DB, before + after);
    assert db.ratings <= later.ratings by {
      RunExtends(db, after);
      FoldSplit(Next(), EMPTY_DB, before, after);
    }
    RatingsAreValid(later, r, s);
  }

  /** A cancellation date is only ever there when the owner cancelled, and then the fault is cancelled for good. */
  lemma CancelledAtMeansOwnerCancelled(before: seq<Op>, after: seq<Op>, id: int)
    requires var db := Run(EMPTY_DB, before); id in db.faults && db.faults[id].cancelledAt
    ensures var db := Run(EMPTY_DB, before + after);
      && id in db.faults && db.faults[id].status == Cancelled
      && HistoryRow(id, Cancelled, db.faults[id].userId) in db.history
  {
    RunKeepsValid(EMPTY_DB, before);
    assert ValidFault(Run(EMPTY_DB, before), id);
    RunExtends(Run(EMPTY_DB, before), after);
    FoldSplit(Next(), EMPTY_DB, before, after);
  }

  // ---------- What each call promises its caller ----------

  /** A new fault is the user's, `Received`, with one history row; refused images leave no trace but the drawn id. */
  lemma CreateFaultDoes(db: Db, user: int, details: Details, images: Option<Assets.Error>)
    ensures var out := Exec(db, CreateFault(user, details, images));
      match images
      case Some(e) => out.result == Err(BadImages(e)) && out.db == db.(nextFaultId := db.nextFaultId + 1)
      case None =>
        && out.result == Ok(())
        && out.db == db.(faults := db.faults[db.nextFaultId := Fault(user, details, Received, false)],
                         history := db.history + [HistoryRow(db.nextFaultId, Received, user)],
                         nextFaultId := db.nextFaultId + 1)
  {
  }

  // Given fields are taken, the others stay.
  predicate IsMerged(before: Details, after: Details, c: Changes) {
    && (c.title.Some? ==> after.title == c.title.value) && (c.title.None? ==> after.title == before.title)
    && (c.description.Some? ==> after.description == c.description.value)
    && (c.description.None? ==> after.description == before.description)
    && (c.severity.Some? ==> after.severity == c.severity.value) && (c.severity.None? ==> after.severity == before.severity)
    && (c.address.Some? ==> after.address == c.address.value) && (c.address.None? ==> after.address == before.address)
  }

  /** The owner edits a fault while it is `Received`, field by field; nothing else changes, and nothing at all on an error. */
  lemma UpdateFaultDoes(db: Db, user: int, id: int, changes: Changes, images: Option<Assets.Error>)
    ensures var out := Exec(db, UpdateFault(user, id, changes, images));
      if id !in db.faults || db.faults[id].userId != user then out == Outcome(db, Err(NotFound))
      else if db.faults[id].status != Received then out == Outcome(db, Err(ProcessingStarted))
      else if images.Some? then out == Outcome(db, Err(BadImages(images.value)))
      else
        && out.result == Ok(()) && id in out.db.faults
        && IsMerged(db.faults[id].details, out.db.faults[id].details, changes)
        && out.db == db.(faults := db.faults[id := db.faults[id].(details := out.db.faults[id].details)])
  {
  }

  /** The owner cancels a fault while it is `Received`, which dates the cancellation and is recorded in their name. */
  lemma CancelFaultDoes(db: Db, user: int, id: int)
    ensures var out := Exec(db, CancelFault(user, id));
      if id !in db.faults || db.faults[id].userId != user then out == Outcome(db, Err(NotFound))
      else if db.faults[id].status != Received then out == Outcome(db, Err(ProcessingStarted))
      else
        && out.result == Ok(())
        && out.db == db.(faults := db.faults[id := Fault(user, db.faults[id].details, Cancelled, true)],
                         history := db.history + [HistoryRow(id, Cancelled, user)])
  {
  }

  // From each status to itself and to these, and no other.
  predicate MayFollow(current: FaultStatus, next: FaultStatus) {
    || next == current
    || (current == Received && next == Assigned) || (current == Assigned && next == OnTheWay)
    || (current == OnTheWay && next == InProgress) || (current == InProgress && next == Finished)
    || (next == Cancelled && current != Finished)
  }

  /** An administrator moves a fault one step on, cancels it before it is finished, or records its status again. */
  lemma SetFaultStatusDoes(db: Db, admin: int, id: int, status: FaultStatus)
    ensures var out := Exec(db, AdminUpdateFaultStatus(admin, id, status));
      if id !in db.faults then out == Outcome(db, Err(NotFound))
      else if !MayFollow(db.faults[id].status, status) then out == Outcome(db, Err(InvalidTransition))
      else
        var f := db.faults[id];
        && out.result == Ok(())
        && out.db == db.(faults := db.faults[id := Fault(f.userId, f.details, status, f.cancelledAt)],
                         history := db.history + [HistoryRow(id, status, admin)])
  {
  }

  /** The owner rates a finished fault once. */
  lemma RateFaultDoes(db: Db, user: int, id: int, value: int)
    ensures var out := Exec(db, RateFault(user, id, value));
      if id !in db.faults then out == Outcome(db, Err(NotFound))
      else if db.faults[id].userId != user then out == Outcome(db, Err(Forbidden))
      else if db.faults[id].status != Finished then out == Outcome(db, Err(NotCompleted))
      else if exists i :: 0 <= i < |db.ratings| && db.ratings[i].userId == user && db.ratings[i].faultId == id
      then out == Outcome(db, Err(RatingExists))
      else out == Outcome(db.(ratings := db.ratings + [Rating(user, id, value)]), Ok(()))
  {
  }

  // ---------- The service ----------

  class FaultService {
    const assets: Assets.AssetTable
    var faults: map<int, Fault>
    var history: seq<HistoryRow>
    var ratings: seq<Rating>
    var nextFaultId: int

    ghost function State(): Db
      reads this
    {
      Db(faults, history, ratings, nextFaultId)
    }

    constructor (assets: Assets.AssetTable)
      ensures this.assets == assets && State() == EMPTY_DB
    {
      this.assets := assets;
      faults, history, ratings, nextFaultId := map[], [], [], 1;
    }

    // The transaction is a snapshot that refused images restore.
    method CreateFault(user: int, details: Details, imageIds: seq<int>) returns (r: Result<(), Error>)
      modifies this, assets`rows, assets`nextId
      ensures var p := Assets.SyncFault(old(assets.rows), old(assets.nextId), assets.files, old(nextFaultId), imageIds);
        && Outcome(State(), r) == Exec(old(State()), Op.CreateFault(user, details, p.error))
        && assets.nextId == p.nextId
        && assets.rows == if p.error.None? then p.rows else old(assets.rows)
    {
      var faults0, assets0 := faults, assets.rows;
      var faultId := nextFaultId;
      nextFaultId := nextFaultId + 1;
      faults := faults[faultId := Fault(user, details, Received, false)];
      var problem := assets.SyncFaultAssets(faultId, imageIds);
      if problem.Some? {
        faults := faults0;
        assets.rows := assets0;
        return Err(BadImages(problem.value));
      }
      history := history + [HistoryRow(faultId, Received, user)];
      r := Ok(());
    }

    method UpdateFault(user: int, faultId: int, changes: Changes, imageIds: Option<seq<int>>) returns (r: Result<(), Error>)
      modifies `faults, assets`rows, assets`nextId
      ensures var allowed := Owns(old(State()), user, faultId) && old(faults)[faultId].status == Received;
        var p := if allowed && imageIds.Some?
                 then Assets.SyncFault(old(assets.rows), old(assets.nextId), assets.files, faultId, imageIds.value)
                 else Assets.Progress(old(assets.rows), old(assets.nextId), None);
        && Outcome(State(), r) == Exec(old(State()), Op.UpdateFault(user, faultId, changes, p.error))
        && assets.nextId == p.nextId
        && assets.rows == if p.error.None? then p.rows else old(assets.rows)
    {
      var faults0, assets0 := faults, assets.rows;
      if faultId !in faults || faults[faultId].userId != user {
        return Err(NotFound);
      }
      if faults[faultId].status != Received {
        return Err(ProcessingStarted);
      }
      faults := faults[faultId := faults[faultId].(details := Merge(faults[faultId].details, changes))];
      if imageIds.Some? {
        var problem := assets.SyncFaultAssets(faultId, imageIds.value);
        if problem.Some? {
          faults := faults0;
          assets.rows := assets0;
          return Err(BadImages(problem.value));
        }
      }
      r := Ok(());
    }

    method CancelFault(user: int, faultId: int) returns (r: Result<(), Error>)
      modifies `faults, `history
      ensures Outcome(State(), r) == Exec(old(State()), Op.CancelFault(user, faultId))
    {
      if faultId !in faults || faults[faultId].userId != user {
        return Err(NotFound);
      }
      if faults[faultId].status != Received {
        return Err(ProcessingStarted);
      }
      faults := faults[faultId := faults[faultId].(status := Cancelled, cancelledAt := true)];
      history := history + [HistoryRow(faultId, Cancelled, user)];
      r := Ok(());
    }

    method AdminUpdateFaultStatus(admin: int, faultId: int, status: FaultStatus) returns (r: Result<(), Error>)
      modifies `faults, `history
      ensures Outcome(State(), r) == Exec(old(State()), Op.AdminUpdateFaultStatus(admin, faultId, status))
    {
      if faultId !in faults {
        return Err(NotFound);
      }
      var current := faults[faultId].status;
      if current != status && status !in Transitions(current) {
        return Err(InvalidTransition);
      }
      faults := faults[faultId := faults[faultId].(status := status)];
      history := history + [HistoryRow(faultId, status, admin)];
      r := Ok(());
    }

    method CreateItemRating(user: int, faultId: int, value: int) returns (r: Result<(), Error>)
      modifies `ratings
      ensures Outcome(State(), r) == Exec(old(State()), RateFault(user, faultId, value))
    {
      if faultId !in faults {
        return Err(NotFound);
      }
      if faults[faultId].userId != user {
        return Err(Forbidden);
      }
      if faults[faultId].status != Finished {
        return Err(NotCompleted);
      }
      // The unique key refuses a second row.
      if exists k :: 0 <= k < |ratings| && ratings[k].userId == user && ratings[k].faultId == faultId {
        return Err(RatingExists);
      }
      ratings := ratings + [Rating(user, faultId, value)];
      r := Ok(());
    }
  }
}
