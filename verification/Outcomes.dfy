/** A second account of the lifecycle, arranged by table instead of by request: when a request is accepted, and what
    it does to every row of every table, in terms of the rows alone. It is written without the functions that the
    services are built from, and `AcceptedIff` and `TablesFollow` show that the services agree with it in every
    reachable state. */
module Outcomes {
  import opened Types
  import opened Lifecycle
  import opened LifecycleInvariants
  import opened LifecycleSteps
  import opened LifecycleRuns
  import opened ViabilityRuns
  import CreditService
  import RotationTheorems
  import Rotation

  // ---- Who may do what -------------------------------------------------------------------------------------

  predicate Hosts(s: State, user: UserId, room: RoomId) {
    room < |s.rooms| && s.rooms[room].host == user
  }

  /** The host of the room that the application is for. */
  predicate Curates(s: State, user: UserId, app: nat) {
    app < |s.apps| && Hosts(s, user, s.apps[app].room)
  }

  /** An approved planner to whom the room is assigned. */
  predicate Runs(s: State, planner: PlannerId, room: RoomId) {
    && room < |s.rooms| && s.rooms[room].planner == Some(planner)
    && planner in s.planners && s.planners[planner]
  }

  predicate HasGender(s: State, user: UserId, gender: Gender) {
    user in s.profiles && s.profiles[user].gender == gender
  }

  /** The confirmed applications of a gender to a room. */
  function Seats(s: State, room: RoomId, gender: Gender): set<nat> {
    set k: nat | k < |s.apps| && s.apps[k].room == room && s.apps[k].status == AppConfirmed
                 && HasGender(s, s.apps[k].user, gender)
  }

  /** Those of a gender who are checked in. */
  function Guests(s: State, room: RoomId, gender: Gender): set<UserId> {
    set k: nat | k < |s.checkins| && s.checkins[k].room == room && s.checkins[k].status == CheckedIn
                 && HasGender(s, s.checkins[k].user, gender) :: s.checkins[k].user
  }

  predicate Holds(s: State, k: nat, room: RoomId) {
    k < |s.apps| && s.apps[k].room == room && s.apps[k].status == AppConfirmed
  }

  /** A confirmed application to the room whose user has no check-in there yet. */
  predicate Newcomer(s: State, k: nat, room: RoomId) {
    Holds(s, k, room) && forall i :: 0 <= i < |s.checkins| && s.checkins[i].room == room ==>
      s.checkins[i].user != s.apps[k].user
  }

  /** The drawn codes of the newcomers are new and differ from each other. */
  ghost predicate FreshCodes(s: State, room: RoomId, draw: UserId -> string) {
    && (forall k: nat, l: nat :: Newcomer(s, k, room) && Newcomer(s, l, room) && k != l ==>
          draw(s.apps[k].user) != draw(s.apps[l].user))
    && (forall k: nat, i: nat :: Newcomer(s, k, room) && i < |s.checkins| ==>
          s.checkins[i].code != Some(draw(s.apps[k].user)))
  }

  function Sent<T>(field: Field<T>, prior: T): T {
    match field
    case Set(value) => value
    case _ => prior
  }

  // ---- When a request is accepted ---------------------------------------------------------------------------

  ghost predicate Acceptable(s: State, r: Request, now: Time) {
    match r
    case ToRegister(id, referrer) => id !in s.users && (referrer.Some? ==> referrer.value in s.users)
    case ToSetActive(actor, id, _) => id in s.users && id != actor
    case ToSaveProfile(user, _) => user in s.users
    case ToSetPlanner(_, _) => true
    case ToCreateRoom(user, body) =>
      && user in s.users && s.users[user].active && body.startsAt < body.endsAt
      && (body.deadline.Some? ==> body.deadline.value <= body.startsAt)
    case ToUpdateRoom(user, room, patch) =>
      && Hosts(s, user, room) && s.rooms[room].status in {Draft, Published}
      && !patch.startsAt.Null? && !patch.endsAt.Null? && !patch.maleCap.Null? && !patch.femaleCap.Null?
      && Sent(patch.startsAt, s.rooms[room].startsAt) < Sent(patch.endsAt, s.rooms[room].endsAt)
    case ToPublishRoom(user, room) => Hosts(s, user, room) && s.rooms[room].status == Draft
    case ToApply(user, room, _) =>
      && room < |s.rooms| && s.rooms[room].status in {Published, Viable, Assigned}
      && (s.rooms[room].deadline.Some? ==> now <= s.rooms[room].deadline.value)
      && user in s.profiles && s.profiles[user].complete
      && (forall k :: 0 <= k < |s.apps| && s.apps[k].room == room && s.apps[k].user == user ==>
            s.apps[k].status == AppCancelled)
    case ToCancel(user, app) =>
      app < |s.apps| && s.apps[app].user == user && s.apps[app].status in {Submitted, Waitlisted, Approved}
    case ToApprove(user, app, _) => Curates(s, user, app) && s.apps[app].status in {Submitted, Waitlisted}
    case ToReject(user, app, _) => Curates(s, user, app) && s.apps[app].status in {Submitted, Waitlisted, Approved}
    case ToWaitlist(user, app, _) => Curates(s, user, app) && s.apps[app].status == Submitted
    case ToMarkPaid(user, app) => Curates(s, user, app) && s.apps[app].status == Approved
    case ToListCredits(_) => true
    case ToAssignPlanner(room, planner) =>
      && room < |s.rooms| && s.rooms[room].status in {Viable, Assigned}
      && planner in s.planners && s.planners[planner]
    case ToConfirmRoom(planner, room) =>
      && Runs(s, planner, room) && s.rooms[room].status == Assigned
      && |Seats(s, room, Male)| + |Seats(s, room, Female)| > 0
      && |Seats(s, room, Male)| <= s.rooms[room].maleCap && |Seats(s, room, Female)| <= s.rooms[room].femaleCap
    case ToOpenCheckIn(planner, room, draw) =>
      && Runs(s, planner, room) && s.rooms[room].status == RoomStatus.Confirmed
      && (exists k: nat :: Holds(s, k, room)) && FreshCodes(s, room, draw)
    case ToConfirmCheckIn(planner, row) =>
      row < |s.checkins| && Runs(s, planner, s.checkins[row].room) && s.checkins[row].status in {Open, NoShow}
    case ToMarkNoShow(planner, row) =>
      row < |s.checkins| && Runs(s, planner, s.checkins[row].room) && s.checkins[row].status in {Open, CheckedIn}
    case ToStartSession(planner, room, _) =>
      && Runs(s, planner, room) && s.rooms[room].status == RoomStatus.Confirmed
      && |Guests(s, room, Male)| == |Guests(s, room, Female)| > 0
    case ToNextRound(planner, room) =>
      && Runs(s, planner, room) && s.rooms[room].status == InProgress
      && room in s.sessions && s.sessions[room].current < |s.sessions[room].rounds|
    case ToEndSession(planner, room) => Runs(s, planner, room) && s.rooms[room].status == InProgress
  }

  // ---- What a refused request is told ------------------------------------------------------------------------

  function HostReason(s: State, user: UserId, room: RoomId): Error {
    if room >= |s.rooms| then NotFound else if !Hosts(s, user, room) then Forbidden else InvalidState
  }

  function CuratorReason(s: State, user: UserId, app: nat): Error {
    if app >= |s.apps| then NotFound else if !Curates(s, user, app) then Forbidden else InvalidState
  }

  /** `other` is the reason when the planner may run the room. */
  function PlannerReason(s: State, planner: PlannerId, room: RoomId, other: Error): Error {
    if planner !in s.planners || !s.planners[planner] then Forbidden
    else if room >= |s.rooms| then NotFound
    else if !Runs(s, planner, room) then Forbidden
    else other
  }

  function CheckInReason(s: State, planner: PlannerId, row: nat): Error {
    if planner !in s.planners || !s.planners[planner] then Forbidden
    else if row >= |s.checkins| then NotFound
    else if !Runs(s, planner, s.checkins[row].room) then Forbidden
    else InvalidState
  }

  ghost function Reason(s: State, r: Request, now: Time): Error {
    match r
    case ToRegister(_, _) => Conflict
    case ToSetActive(_, id, _) => if id in s.users then Conflict else NotFound
    case ToSaveProfile(_, _) => Unauthorized
    case ToCreateRoom(user, _) =>
      if user !in s.users then Unauthorized else if !s.users[user].active then Forbidden else Validation
    case ToUpdateRoom(user, room, patch) =>
      if !Hosts(s, user, room) || s.rooms[room].status !in {Draft, Published} then HostReason(s, user, room)
      else if patch.startsAt.Null? || patch.endsAt.Null? then Internal
      else if Sent(patch.startsAt, s.rooms[room].startsAt) < Sent(patch.endsAt, s.rooms[room].endsAt) then Integrity
      else Validation
    case ToPublishRoom(user, room) => HostReason(s, user, room)
    case ToApply(user, room, _) =>
      if room >= |s.rooms| then NotFound
      else if s.rooms[room].status !in {Published, Viable, Assigned} then NotAccepting
      else if s.rooms[room].deadline.Some? && s.rooms[room].deadline.value < now then DeadlinePassed
      else if user !in s.profiles || !s.profiles[user].complete then ProfileIncomplete
      else Conflict
    case ToCancel(user, app) =>
      if app >= |s.apps| then NotFound else if s.apps[app].user != user then Forbidden else InvalidState
    case ToApprove(user, app, _) => CuratorReason(s, user, app)
    case ToReject(user, app, _) => CuratorReason(s, user, app)
    case ToWaitlist(user, app, _) => CuratorReason(s, user, app)
    case ToMarkPaid(user, app) => CuratorReason(s, user, app)
    case ToAssignPlanner(room, planner) =>
      if room >= |s.rooms| then NotFound
      else if s.rooms[room].status !in {Viable, Assigned} then InvalidState
      else if planner !in s.planners then NotFound
      else PlannerNotApproved
    case ToConfirmRoom(planner, room) =>
      PlannerReason(s, planner, room,
        if room >= |s.rooms| || s.rooms[room].status != Assigned then InvalidState
        else if Seats(s, room, Male) == {} && Seats(s, room, Female) == {} then NotReady
        else OverCapacity)
    case ToOpenCheckIn(planner, room, draw) =>
      PlannerReason(s, planner, room,
        if room >= |s.rooms| || s.rooms[room].status != RoomStatus.Confirmed then InvalidState
        else if exists k: nat :: Holds(s, k, room) then Integrity
        else NoParticipants)
    case ToConfirmCheckIn(planner, row) => CheckInReason(s, planner, row)
    case ToMarkNoShow(planner, row) => CheckInReason(s, planner, row)
    case ToStartSession(planner, room, _) =>
      PlannerReason(s, planner, room,
        if room >= |s.rooms| || s.rooms[room].status != RoomStatus.Confirmed then InvalidState
        else if Guests(s, room, Male) == {} || Guests(s, room, Female) == {} then NoParticipants
        else GenderImbalance)
    case ToNextRound(planner, room) =>
      PlannerReason(s, planner, room,
        if room >= |s.rooms| || s.rooms[room].status !in {InProgress, Completed} then NotFound
        else if s.rooms[room].status == Completed then InvalidState
        else LastRound)
    case ToEndSession(planner, room) =>
      PlannerReason(s, planner, room,
        if room >= |s.rooms| || s.rooms[room].status != Completed then NotFound else InvalidState)
    case _ => InvalidState
  }

  // ---- What an accepted request does to a row ---------------------------------------------------------------

  /** The room has half of each capacity confirmed once application `app` is confirmed too. */
  predicate Reaches(s: State, app: nat)
    requires app < |s.apps| && s.apps[app].room < |s.rooms|
  {
    var room := s.apps[app].room;
    var men := Seats(s, room, Male) + if HasGender(s, s.apps[app].user, Male) then {app} else {};
    var women := Seats(s, room, Female) + if HasGender(s, s.apps[app].user, Female) then {app} else {};
    (s.rooms[room].maleCap + 1) / 2 <= |men| && (s.rooms[room].femaleCap + 1) / 2 <= |women|
  }

  /** Room `k` after an accepted request. */
  function RoomAfter(s: State, r: Request, now: Time, k: nat): Room
    requires k < |s.rooms|
  {
    var row := s.rooms[k];
    match r
    case ToUpdateRoom(_, room, patch) =>
      if room != k then row
      else if patch.maleCap.Null? || patch.femaleCap.Null? then row
      else
        row.(startsAt := Sent(patch.startsAt, row.startsAt), endsAt := Sent(patch.endsAt, row.endsAt),
             maleCap := Sent(patch.maleCap, row.maleCap), femaleCap := Sent(patch.femaleCap, row.femaleCap),
             deadline := match patch.deadline case Unset => row.deadline case Null => None case Set(t) => Some(t))
    case ToPublishRoom(_, room) => if room == k then row.(status := Published) else row
    case ToMarkPaid(_, app) =>
      if app < |s.apps| && s.apps[app].room == k && row.status == Published && Reaches(s, app)
      then row.(status := Viable, viableAt := Some(now)) else row
    case ToAssignPlanner(room, planner) =>
      if room == k then row.(status := Assigned, planner := Some(planner)) else row
    case ToConfirmRoom(_, room) => if room == k then row.(status := RoomStatus.Confirmed) else row
    case ToStartSession(_, room, _) => if room == k then row.(status := InProgress) else row
    case ToEndSession(_, room) => if room == k then row.(status := Completed) else row
    case _ => row
  }

  function NewRooms(r: Request): seq<Room> {
    match r
    case ToCreateRoom(user, body) =>
      [Room(user, None, Draft, body.startsAt, body.endsAt, body.maleCap, body.femaleCap, body.deadline, None)]
    case _ => []
  }

  /** Application `k` after an accepted request. */
  function AppAfter(s: State, r: Request, now: Time, k: nat): Application
    requires k < |s.apps|
  {
    var row := s.apps[k];
    match r
    case ToApply(user, room, message) =>
      if row.room == room && row.user == user then row.(status := Submitted, message := message, cancelledAt := None)
      else row
    case ToCancel(_, app) => if app == k then row.(status := AppCancelled, cancelledAt := Some(now)) else row
    case ToApprove(_, app, note) =>
      if app == k then row.(status := Approved, approvedAt := Some(now), note := if note.Some? then note else row.note)
      else row
    case ToReject(_, app, note) =>
      if app == k then row.(status := Rejected, rejectedAt := Some(now), note := if note.Some? then note else row.note)
      else row
    case ToWaitlist(_, app, note) =>
      if app == k then row.(status := Waitlisted, note := if note.Some? then note else row.note) else row
    case ToMarkPaid(_, app) => if app == k then row.(status := AppConfirmed) else row
    case _ => row
  }

  function NewApps(s: State, r: Request): seq<Application> {
    match r
    case ToApply(user, room, message) =>
      if exists k :: 0 <= k < |s.apps| && s.apps[k].room == room && s.apps[k].user == user then []
      else [Application(room, user, Submitted, message, None, None, None, None)]
    case _ => []
  }

  /** Check-in `k` after an accepted request. */
  function CheckInAfter(s: State, r: Request, now: Time, k: nat): CheckIn
    requires k < |s.checkins|
  {
    var row := s.checkins[k];
    match r
    case ToConfirmCheckIn(_, i) => if i == k then row.(status := CheckedIn, checkedInAt := Some(now)) else row
    case ToMarkNoShow(_, i) => if i == k then row.(status := NoShow) else row
    case _ => row
  }

  /** The row of a newcomer: open, with the drawn code. */
  function NewRow(s: State, room: RoomId, draw: UserId -> string, k: nat): CheckIn
    requires k < |s.apps|
  {
    CheckIn(room, s.apps[k].user, k, Open, None, Some(draw(s.apps[k].user)))
  }

  /** One new row for every newcomer among the first `k` applications. */
  ghost function NewRows(s: State, room: RoomId, draw: UserId -> string, k: nat): seq<CheckIn>
    requires k <= |s.apps|
  {
    if k == 0 then []
    else
      NewRows(s, room, draw, k - 1) + if Newcomer(s, k - 1, room) then [NewRow(s, room, draw, k - 1)] else []
  }

  ghost function NewCheckIns(s: State, r: Request): seq<CheckIn> {
    match r
    case ToOpenCheckIn(_, room, draw) => NewRows(s, room, draw, |s.apps|)
    case _ => []
  }

  /** The three tables after a request. */
  ghost predicate Follows(s: State, r: Request, now: Time, s': State) {
    if Acceptable(s, r, now) then
      && s'.rooms == seq(|s.rooms|, k requires 0 <= k < |s.rooms| => RoomAfter(s, r, now, k)) + NewRooms(r)
      && s'.apps == seq(|s.apps|, k requires 0 <= k < |s.apps| => AppAfter(s, r, now, k)) + NewApps(s, r)
      && s'.checkins == seq(|s.checkins|, k requires 0 <= k < |s.checkins| => CheckInAfter(s, r, now, k))
                        + NewCheckIns(s, r)
    else s' == s
  }

  ghost predicate Agrees(s: State, r: Request, now: Time, s': State, error: Option<Error>) {
    error == (if Acceptable(s, r, now) then None else Some(Reason(s, r, now))) && Follows(s, r, now, s')
  }

  // ---- The two counts ----------------------------------------------------------------------------------------

  lemma SeatsAreCounted(s: State, room: RoomId, gender: Gender)
    ensures ConfirmedCount(s, room, gender) == |Seats(s, room, gender)|
  {
    CountIsSize(s.apps, ConfirmedOf(s.profiles, room, gender));
    assert Seats(s, room, gender) == Positions(s.apps, ConfirmedOf(s.profiles, room, gender));
  }

  lemma {:induction false} DistinctSize(s: seq<UserId>, all: set<UserId>)
    requires RotationTheorems.NoRepeats(s) && forall u :: u in s <==> u in all
    ensures |s| == |all|
  {
    if |s| == 0 {
      assert forall u :: u !in all;
    } else {
      var n := |s| - 1;
      assert s[n] in s && s == s[..n] + [s[n]];
      assert s[n] !in s[..n];
      forall u ensures u in s[..n] <==> u in all - {s[n]} {
        assert u in s <==> u in s[..n] || u == s[n];
      }
      DistinctSize(s[..n], all - {s[n]});
    }
  }

  lemma GuestsAreGrouped(s: State, room: RoomId, gender: Gender)
    requires UniqueRows(s.checkins)
    ensures |Group(s, room, gender)| == |Guests(s, room, gender)|
    ensures forall u :: u in Group(s, room, gender) <==> u in Guests(s, room, gender)
  {
    hide Group;
    GroupIs(s, room, gender);
    forall u ensures u in Group(s, room, gender) <==> u in Guests(s, room, gender) {
      if u in Guests(s, room, gender) {
        var k: nat :| k < |s.checkins| && s.checkins[k].room == room && s.checkins[k].status == CheckedIn
          && HasGender(s, s.checkins[k].user, gender) && s.checkins[k].user == u;
        assert Attends(s.checkins[k], s.profiles, room, gender);
      }
      if Attending(s.checkins, s.profiles, room, gender, u) {
        var i: nat :| i < |s.checkins| && s.checkins[i].user == u && Attends(s.checkins[i], s.profiles, room, gender);
        assert s.checkins[i].user in Guests(s, room, gender);
      }
    }
    DistinctSize(Group(s, room, gender), Guests(s, room, gender));
  }

  // ---- Request by request -------------------------------------------------------------------------------------

  /** A refusal. */
  lemma RefusalAgrees(s: State, r: Request, now: Time, error: Option<Error>)
    requires !Acceptable(s, r, now) && error == Some(Reason(s, r, now))
    ensures Agrees(s, r, now, s, error)
  {
  }

  /** An accepted request that touches none of the three tables. */
  lemma OtherTablesAgree(s: State, r: Request, now: Time, s': State)
    requires Acceptable(s, r, now) && s'.rooms == s.rooms && s'.apps == s.apps && s'.checkins == s.checkins
    requires r.ToRegister? || r.ToSetActive? || r.ToSaveProfile? || r.ToSetPlanner? || r.ToListCredits?
          || r.ToNextRound?
    ensures Agrees(s, r, now, s', None)
  {
    hide Acceptable;
  }

  lemma AccountAgrees(s: State, e: Event)
    requires e.request.ToRegister? || e.request.ToSetActive? || e.request.ToSaveProfile? || e.request.ToSetPlanner?
          || e.request.ToListCredits?
    ensures var (s', error) := Serve(s, e.request, e.now); Agrees(s, e.request, e.now, s', error)
  {
    hide Agrees, CreditService.ExpireAll;
    var (s', error) := Serve(s, e.request, e.now);
    if error == None {
      OtherTablesAgree(s, e.request, e.now, s');
    } else {
      RefusalAgrees(s, e.request, e.now, error);
    }
  }

  /** An accepted request that changes one room row. */
  lemma RoomRowAgrees(s: State, r: Request, now: Time, k: nat, s': State)
    requires Acceptable(s, r, now) && k < |s.rooms| && s'.rooms == s.rooms[k := RoomAfter(s, r, now, k)]
    requires s'.apps == s.apps && s'.checkins == s.checkins
    requires r.ToUpdateRoom? || r.ToPublishRoom? || r.ToAssignPlanner? || r.ToConfirmRoom? || r.ToStartSession?
          || r.ToEndSession?
    requires k == match r
                  case ToUpdateRoom(_, room, _) => room
                  case ToPublishRoom(_, room) => room
                  case ToAssignPlanner(room, _) => room
                  case ToConfirmRoom(_, room) => room
                  case ToStartSession(_, room, _) => room
                  case ToEndSession(_, room) => room
                  case _ => 0
    ensures Agrees(s, r, now, s', None)
  {
    hide Acceptable;
  }

  lemma CreateAgrees(s: State, user: UserId, body: RoomBody, now: Time)
    ensures var (s', error) := CreateRoom(s, user, body); Agrees(s, ToCreateRoom(user, body), now, s', error)
  {
  }

  lemma UpdateAgrees(s: State, user: UserId, room: RoomId, patch: RoomPatch, now: Time)
    requires Valid(s)
    ensures var (s', error) := UpdateRoom(s, user, room, patch);
      Agrees(s, ToUpdateRoom(user, room, patch), now, s', error)
  {
    hide Agrees, Valid;
    var (s', error) := UpdateRoom(s, user, room, patch);
    if room < |s.rooms| {
      RoomAt(s, room);
    }
    if error == None {
      RoomRowAgrees(s, ToUpdateRoom(user, room, patch), now, room, s');
    } else {
      RefusalAgrees(s, ToUpdateRoom(user, room, patch), now, error);
    }
  }

  lemma PublishAgrees(s: State, user: UserId, room: RoomId, now: Time)
    ensures var (s', error) := PublishRoom(s, user, room); Agrees(s, ToPublishRoom(user, room), now, s', error)
  {
    hide Agrees;
    var (s', error) := PublishRoom(s, user, room);
    if error == None {
      RoomRowAgrees(s, ToPublishRoom(user, room), now, room, s');
    } else {
      RefusalAgrees(s, ToPublishRoom(user, room), now, error);
    }
  }

  lemma AssignAgrees(s: State, room: RoomId, planner: PlannerId, now: Time)
    ensures var (s', error) := AssignPlanner(s, room, planner);
      Agrees(s, ToAssignPlanner(room, planner), now, s', error)
  {
    hide Agrees;
    var (s', error) := AssignPlanner(s, room, planner);
    if error == None {
      RoomRowAgrees(s, ToAssignPlanner(room, planner), now, room, s');
    } else {
      RefusalAgrees(s, ToAssignPlanner(room, planner), now, error);
    }
  }

  lemma ConfirmAgrees(s: State, planner: PlannerId, room: RoomId, now: Time)
    ensures var (s', error) := ConfirmRoom(s, planner, room); Agrees(s, ToConfirmRoom(planner, room), now, s', error)
  {
    hide Agrees, ConfirmedCount, Seats;
    var (s', error) := ConfirmRoom(s, planner, room);
    SeatsAreCounted(s, room, Male);
    SeatsAreCounted(s, room, Female);
    if error == None {
      RoomRowAgrees(s, ToConfirmRoom(planner, room), now, room, s');
    } else {
      RefusalAgrees(s, ToConfirmRoom(planner, room), now, error);
    }
  }

  lemma StartAgrees(s: State, planner: PlannerId, room: RoomId, minutes: int, now: Time)
    requires Valid(s)
    ensures var (s', error) := StartSession(s, planner, room, minutes, now);
      Agrees(s, ToStartSession(planner, room, minutes), now, s', error)
  {
    hide Agrees, Group, Guests, Valid, Rotation.Started;
    var r := ToStartSession(planner, room, minutes);
    var (s', error) := StartSession(s, planner, room, minutes, now);
    RowsAreUnique(s);
    GuestsAreGrouped(s, room, Male);
    GuestsAreGrouped(s, room, Female);
    if room < |s.rooms| {
      NoSessionYet(s, room);
    }
    if error == None {
      RoomRowAgrees(s, r, now, room, s');
    } else {
      RefusalAgrees(s, r, now, error);
    }
  }

  lemma RowsAreUnique(s: State)
    requires Valid(s)
    ensures UniqueRows(s.checkins)
  {
  }

  lemma NoSessionYet(s: State, room: RoomId)
    requires Valid(s) && room < |s.rooms|
    ensures room in s.sessions <==> s.rooms[room].status in {InProgress, Completed}
    ensures room in s.sessions ==>
      s.sessions[room].status == if s.rooms[room].status == InProgress then Rotation.Running else Rotation.Ended
  {
    hide RoomsOk, AppsOk, CheckInsOk, SeatsOk, BonusesOk, ReferralsOk, CreditsOk, EmittedOk;
    assert SessionMatches(s.rooms[room], s.sessions, room);
  }

  lemma EndAgrees(s: State, planner: PlannerId, room: RoomId, now: Time)
    requires Valid(s)
    ensures var (s', error) := EndSession(s, planner, room, now); Agrees(s, ToEndSession(planner, room), now, s', error)
  {
    hide Agrees, Valid;
    var (s', error) := EndSession(s, planner, room, now);
    if room < |s.rooms| {
      NoSessionYet(s, room);
    }
    if error == None {
      RoomRowAgrees(s, ToEndSession(planner, room), now, room, s');
    } else {
      RefusalAgrees(s, ToEndSession(planner, room), now, error);
    }
  }

  lemma NextAgrees(s: State, planner: PlannerId, room: RoomId, now: Time)
    requires Valid(s)
    ensures var (s', error) := NextRound(s, planner, room, now); Agrees(s, ToNextRound(planner, room), now, s', error)
  {
    hide Agrees, Valid;
    var (s', error) := NextRound(s, planner, room, now);
    if room < |s.rooms| {
      NoSessionYet(s, room);
    }
    if error == None {
      OtherTablesAgree(s, ToNextRound(planner, room), now, s');
    } else {
      RefusalAgrees(s, ToNextRound(planner, room), now, error);
    }
  }

  // ---- Applications -------------------------------------------------------------------------------------------

  lemma NoPaymentPending(s: State, app: nat)
    requires Valid(s) && app < |s.apps|
    ensures s.apps[app].status != PaymentPending && s.apps[app].status != Paid && s.apps[app].room < |s.rooms|
  {
    assert AppOk(s.rooms, s.profiles.Keys, s.apps[app]);
  }

  /** An accepted request that changes one application row. */
  lemma AppRowAgrees(s: State, r: Request, now: Time, k: nat, s': State)
    requires Acceptable(s, r, now) && k < |s.apps| && s'.apps == s.apps[k := AppAfter(s, r, now, k)]
    requires s'.rooms == s.rooms && s'.checkins == s.checkins
    requires r.ToCancel? || r.ToApprove? || r.ToReject? || r.ToWaitlist?
    requires k == match r
                  case ToCancel(_, app) => app
                  case ToApprove(_, app, _) => app
                  case ToReject(_, app, _) => app
                  case ToWaitlist(_, app, _) => app
                  case _ => 0
    ensures Agrees(s, r, now, s', None)
  {
    hide Acceptable;
  }

  lemma CancelAgrees(s: State, user: UserId, app: nat, now: Time)
    requires Valid(s)
    ensures var (s', error) := Cancel(s, user, app, now); Agrees(s, ToCancel(user, app), now, s', error)
  {
    hide Agrees, Valid;
    var (s', error) := Cancel(s, user, app, now);
    if app < |s.apps| {
      NoPaymentPending(s, app);
    }
    if error == None {
      AppRowAgrees(s, ToCancel(user, app), now, app, s');
    } else {
      RefusalAgrees(s, ToCancel(user, app), now, error);
    }
  }

  lemma ApproveAgrees(s: State, user: UserId, app: nat, note: Option<string>, now: Time)
    requires Valid(s)
    ensures var (s', error) := Approve(s, user, app, note, now); Agrees(s, ToApprove(user, app, note), now, s', error)
  {
    hide Agrees, Valid;
    var (s', error) := Approve(s, user, app, note, now);
    if app < |s.apps| {
      NoPaymentPending(s, app);
    }
    if error == None {
      AppRowAgrees(s, ToApprove(user, app, note), now, app, s');
    } else {
      RefusalAgrees(s, ToApprove(user, app, note), now, error);
    }
  }

  lemma RejectAgrees(s: State, user: UserId, app: nat, note: Option<string>, now: Time)
    requires Valid(s)
    ensures var (s', error) := Reject(s, user, app, note, now); Agrees(s, ToReject(user, app, note), now, s', error)
  {
    hide Agrees, Valid;
    var (s', error) := Reject(s, user, app, note, now);
    if app < |s.apps| {
      NoPaymentPending(s, app);
    }
    if error == None {
      AppRowAgrees(s, ToReject(user, app, note), now, app, s');
    } else {
      RefusalAgrees(s, ToReject(user, app, note), now, error);
    }
  }

  lemma WaitlistAgrees(s: State, user: UserId, app: nat, note: Option<string>, now: Time)
    requires Valid(s)
    ensures var (s', error) := Waitlist(s, user, app, note); Agrees(s, ToWaitlist(user, app, note), now, s', error)
  {
    hide Agrees, Valid;
    var (s', error) := Waitlist(s, user, app, note);
    if app < |s.apps| {
      NoPaymentPending(s, app);
    }
    if error == None {
      AppRowAgrees(s, ToWaitlist(user, app, note), now, app, s');
    } else {
      RefusalAgrees(s, ToWaitlist(user, app, note), now, error);
    }
  }

  /** The applications after an accepted one, with or without an earlier row. */
  lemma AppliedRows(s: State, user: UserId, room: RoomId, message: Option<string>, now: Time)
    requires Valid(s)
    ensures var r, k := ToApply(user, room, message), FindApp(s.apps, room, user);
      seq(|s.apps|, i requires 0 <= i < |s.apps| => AppAfter(s, r, now, i)) + NewApps(s, r)
      == if k == |s.apps| then s.apps + [Application(room, user, Submitted, message, None, None, None, None)]
         else s.apps[k := s.apps[k].(status := Submitted, message := message, cancelledAt := None)]
  {
    hide FindApp, Valid;
    OnlyOneApplication(s, room, user);
  }

  lemma NewAppAgrees(s: State, user: UserId, room: RoomId, message: Option<string>, now: Time, s': State)
    requires Valid(s) && Acceptable(s, ToApply(user, room, message), now)
    requires s'.rooms == s.rooms && s'.checkins == s.checkins
    requires var k := FindApp(s.apps, room, user);
      s'.apps == if k == |s.apps| then s.apps + [Application(room, user, Submitted, message, None, None, None, None)]
                 else s.apps[k := s.apps[k].(status := Submitted, message := message, cancelledAt := None)]
    ensures Agrees(s, ToApply(user, room, message), now, s', None)
  {
    hide Acceptable, FindApp, Valid, AppAfter, NewApps;
    AppliedRows(s, user, room, message, now);
  }

  lemma ApplyAgrees(s: State, user: UserId, room: RoomId, message: Option<string>, now: Time)
    requires Valid(s)
    ensures var (s', error) := Apply(s, user, room, message, now);
      Agrees(s, ToApply(user, room, message), now, s', error)
  {
    hide Agrees, FindApp, AppsOk, SessionsOk, CheckInsOk, SeatsOk, BonusesOk, ReferralsOk, CreditsOk, EmittedOk;
    var (s', error) := Apply(s, user, room, message, now);
    var k := FindApp(s.apps, room, user);
    if room < |s.rooms| {
      assert RoomOk(s.users.Keys, s.planners.Keys, s.rooms[room]);
    }
    OnlyOneApplication(s, room, user);
    if error == None {
      NewAppAgrees(s, user, room, message, now, s');
    } else {
      RefusalAgrees(s, ToApply(user, room, message), now, error);
    }
  }

  lemma OnlyOneApplication(s: State, room: RoomId, user: UserId)
    requires Valid(s)
    ensures forall j :: 0 <= j < |s.apps| && s.apps[j].room == room && s.apps[j].user == user ==>
      j == FindApp(s.apps, room, user)
  {
    hide FindApp;
  }

  lemma PaidAgrees(s: State, user: UserId, app: nat, now: Time)
    requires Valid(s)
    ensures var (s', error) := MarkPaid(s, user, app, now); Agrees(s, ToMarkPaid(user, app), now, s', error)
  {
    hide Agrees, Valid, PromoteIfViable, EmitReferral;
    var r := ToMarkPaid(user, app);
    var (s', error) := MarkPaid(s, user, app, now);
    if app < |s.apps| {
      NoPaymentPending(s, app);
    }
    if error == None {
      PromotionAgrees(s, user, app, now, s');
    } else {
      RefusalAgrees(s, r, now, error);
    }
  }

  /** The confirmed men and women once application `app` is confirmed too. */
  lemma OneMoreSeat(s: State, app: nat, gender: Gender)
    requires app < |s.apps|
    ensures var s1 := s.(apps := s.apps[app := s.apps[app].(status := AppConfirmed)]);
      Seats(s1, s.apps[app].room, gender)
      == Seats(s, s.apps[app].room, gender) + if HasGender(s, s.apps[app].user, gender) then {app} else {}
  {
  }

  lemma EmissionLeavesRows(s: State, user: UserId, now: Time)
    ensures var s' := EmitReferral(s, user, now);
      s'.rooms == s.rooms && s'.apps == s.apps && s'.checkins == s.checkins
  {
  }

  lemma PromotionLeavesRows(s: State, room: RoomId, now: Time)
    ensures var s' := PromoteIfViable(s, room, now); s'.apps == s.apps && s'.checkins == s.checkins
  {
    hide ConfirmedCount, Threshold;
  }

  lemma ReachesIff(s: State, app: nat)
    requires app < |s.apps| && s.apps[app].room < |s.rooms|
    ensures var room, s1 := s.apps[app].room, s.(apps := s.apps[app := s.apps[app].(status := AppConfirmed)]);
      Reaches(s, app) <==>
        && ConfirmedCount(s1, room, Male) >= Threshold(s.rooms[room].maleCap)
        && ConfirmedCount(s1, room, Female) >= Threshold(s.rooms[room].femaleCap)
  {
    hide ConfirmedCount, Seats, Threshold, HasGender;
    var room := s.apps[app].room;
    var s1 := s.(apps := s.apps[app := s.apps[app].(status := AppConfirmed)]);
    OneMoreSeat(s, app, Male);
    OneMoreSeat(s, app, Female);
    SeatsAreCounted(s1, room, Male);
    SeatsAreCounted(s1, room, Female);
    ThresholdIsHalf(s.rooms[room].maleCap);
    ThresholdIsHalf(s.rooms[room].femaleCap);
  }

  lemma PromotedRooms(s: State, user: UserId, app: nat, now: Time)
    requires app < |s.apps| && s.apps[app].room < |s.rooms| && s.rooms[s.apps[app].room].status != Recruiting
    ensures var s1 := s.(apps := s.apps[app := s.apps[app].(status := AppConfirmed)]);
      PromoteIfViable(s1, s.apps[app].room, now).rooms
      == s.rooms[s.apps[app].room := RoomAfter(s, ToMarkPaid(user, app), now, s.apps[app].room)]
  {
    hide ConfirmedCount, Reaches, Threshold, CreditService.IssueBonus;
    ReachesIff(s, app);
  }

  lemma PromotionAgrees(s: State, user: UserId, app: nat, now: Time, s': State)
    requires Valid(s) && Acceptable(s, ToMarkPaid(user, app), now) && s' == MarkPaid(s, user, app, now).0
    ensures Agrees(s, ToMarkPaid(user, app), now, s', None)
  {
    hide Valid, PromoteIfViable, EmitReferral, Agrees, RoomAfter;
    var room := s.apps[app].room;
    var s1 := s.(apps := s.apps[app := s.apps[app].(status := AppConfirmed)]);
    RoomAt(s, room);
    PromotedRooms(s, user, app, now);
    PromotionLeavesRows(s1, room, now);
    EmissionLeavesRows(PromoteIfViable(s1, room, now), s.apps[app].user, now);
    PaidRowsAgree(s, user, app, now, s');
  }

  lemma PaidRowsAgree(s: State, user: UserId, app: nat, now: Time, s': State)
    requires Acceptable(s, ToMarkPaid(user, app), now)
    requires s'.apps == s.apps[app := s.apps[app].(status := AppConfirmed)] && s'.checkins == s.checkins
    requires s'.rooms == s.rooms[s.apps[app].room := RoomAfter(s, ToMarkPaid(user, app), now, s.apps[app].room)]
    ensures Agrees(s, ToMarkPaid(user, app), now, s', None)
  {
    hide Reaches;
  }

  // ---- Check-ins ----------------------------------------------------------------------------------------------

  /** An accepted request that changes one check-in row. */
  lemma CheckInRowAgrees(s: State, r: Request, now: Time, k: nat, s': State)
    requires Acceptable(s, r, now) && k < |s.checkins| && s'.checkins == s.checkins[k := CheckInAfter(s, r, now, k)]
    requires s'.rooms == s.rooms && s'.apps == s.apps && (r.ToConfirmCheckIn? || r.ToMarkNoShow?) && r.row == k
    ensures Agrees(s, r, now, s', None)
  {
    hide Acceptable;
  }

  lemma CheckedInAgrees(s: State, planner: PlannerId, row: nat, now: Time)
    ensures var (s', error) := ConfirmCheckIn(s, planner, row, now);
      Agrees(s, ToConfirmCheckIn(planner, row), now, s', error)
  {
    hide Agrees;
    var (s', error) := ConfirmCheckIn(s, planner, row, now);
    if error == None {
      CheckInRowAgrees(s, ToConfirmCheckIn(planner, row), now, row, s');
    } else {
      RefusalAgrees(s, ToConfirmCheckIn(planner, row), now, error);
    }
  }

  lemma NoShowAgrees(s: State, planner: PlannerId, row: nat, now: Time)
    ensures var (s', error) := MarkNoShow(s, planner, row); Agrees(s, ToMarkNoShow(planner, row), now, s', error)
  {
    hide Agrees;
    var (s', error) := MarkNoShow(s, planner, row);
    if error == None {
      CheckInRowAgrees(s, ToMarkNoShow(planner, row), now, row, s');
    } else {
      RefusalAgrees(s, ToMarkNoShow(planner, row), now, error);
    }
  }

  /** Opening leaves existing rows alone and adds one for each newcomer. */
  lemma {:induction false} OpenedIs(s: State, room: RoomId, draw: UserId -> string, k: nat)
    requires CheckInsOk(s.apps, s.checkins) && k <= |s.apps|
    ensures OpenedUpTo(s.checkins, s.apps, room, draw, k) == s.checkins + NewRows(s, room, draw, k)
  {
    hide UniqueRows, FindCheckIn;
    if k > 0 {
      OpenedIs(s, room, draw, k - 1);
      var j := FindCheckIn(s.checkins, room, s.apps[k - 1].user);
      if j < |s.checkins| {
        assert CheckInOk(s.apps, s.checkins[j]);
      }
    }
  }

  /** The rows for newcomers, by the position of their application. */
  lemma {:induction false} NewRowIn(s: State, room: RoomId, draw: UserId -> string, n: nat, i: nat)
    requires n <= |s.apps| && i < |NewRows(s, room, draw, n)|
    ensures var row := NewRows(s, room, draw, n)[i];
      row.app < n && Newcomer(s, row.app, room) && row == NewRow(s, room, draw, row.app)
  {
    hide Newcomer;
    if i < |NewRows(s, room, draw, n - 1)| {
      NewRowIn(s, room, draw, n - 1, i);
    }
  }

  lemma {:induction false} NewRowsInOrder(s: State, room: RoomId, draw: UserId -> string, n: nat, i: nat, j: nat)
    requires n <= |s.apps| && i < j < |NewRows(s, room, draw, n)|
    ensures NewRows(s, room, draw, n)[i].app < NewRows(s, room, draw, n)[j].app
  {
    hide Newcomer;
    if j < |NewRows(s, room, draw, n - 1)| {
      NewRowsInOrder(s, room, draw, n - 1, i, j);
    } else {
      NewRowIn(s, room, draw, n - 1, i);
    }
  }

  lemma {:induction false} NewRowExists(s: State, room: RoomId, draw: UserId -> string, n: nat, k: nat)
    returns (i: nat)
    requires k < n <= |s.apps| && Newcomer(s, k, room)
    ensures var rows := NewRows(s, room, draw, n); i < |rows| && rows[i] == NewRow(s, room, draw, k)
  {
    hide Newcomer;
    if k == n - 1 {
      i := |NewRows(s, room, draw, n - 1)|;
    } else {
      i := NewRowExists(s, room, draw, n - 1, k);
    }
  }

  lemma FreshRowsAreUnique(s: State, room: RoomId, draw: UserId -> string)
    requires Valid(s) && FreshCodes(s, room, draw)
    ensures UniqueRows(s.checkins + NewRows(s, room, draw, |s.apps|))
  {
    hide RoomsOk, SessionsOk, SeatsOk, BonusesOk, ReferralsOk, CreditsOk, EmittedOk, NewRows;
    var n, added := |s.checkins|, NewRows(s, room, draw, |s.apps|);
    var rows := s.checkins + added;
    forall i, j | 0 <= i < j < |rows|
      ensures !(rows[i].room == rows[j].room && rows[i].user == rows[j].user)
      ensures !(rows[i].code.Some? && rows[i].code == rows[j].code)
    {
      if j >= n {
        NewRowIn(s, room, draw, |s.apps|, j - n);
        assert rows[j] == added[j - n];
        if i >= n {
          NewRowIn(s, room, draw, |s.apps|, i - n);
          NewRowsInOrder(s, room, draw, |s.apps|, i - n, j - n);
          assert rows[i] == added[i - n];
        }
      }
    }
  }

  /** Where the row of a newcomer ends up. */
  lemma RowOfNewcomer(s: State, room: RoomId, draw: UserId -> string, k: nat) returns (i: nat)
    requires Newcomer(s, k, room)
    ensures var rows := s.checkins + NewRows(s, room, draw, |s.apps|);
      |s.checkins| <= i < |rows| && rows[i].app == k && rows[i].code == Some(draw(s.apps[k].user))
  {
    hide NewRows;
    var added := NewRows(s, room, draw, |s.apps|);
    var j := NewRowExists(s, room, draw, |s.apps|, k);
    i := |s.checkins| + j;
    assert (s.checkins + added)[i] == added[j];
  }

  lemma UniqueRowsAreFresh(s: State, room: RoomId, draw: UserId -> string)
    requires UniqueRows(s.checkins + NewRows(s, room, draw, |s.apps|))
    ensures FreshCodes(s, room, draw)
  {
    hide NewRows, Newcomer;
    var rows := s.checkins + NewRows(s, room, draw, |s.apps|);
    NewcomersHold(s, room);
    forall k: nat, l: nat | Newcomer(s, k, room) && Newcomer(s, l, room) && k != l
      ensures draw(s.apps[k].user) != draw(s.apps[l].user)
    {
      var i := RowOfNewcomer(s, room, draw, k);
      var j := RowOfNewcomer(s, room, draw, l);
    }
    forall k: nat, i: nat | Newcomer(s, k, room) && i < |s.checkins|
      ensures s.checkins[i].code != Some(draw(s.apps[k].user))
    {
      var j := RowOfNewcomer(s, room, draw, k);
      assert rows[i] == s.checkins[i];
    }
  }

  lemma NewcomersHold(s: State, room: RoomId)
    ensures forall k: nat :: Newcomer(s, k, room) ==> k < |s.apps|
  {
  }

  /** The rows after an opening are unique exactly when the drawn codes are fresh. */
  lemma FreshMeansUnique(s: State, room: RoomId, draw: UserId -> string)
    requires Valid(s)
    ensures UniqueRows(s.checkins + NewRows(s, room, draw, |s.apps|)) <==> FreshCodes(s, room, draw)
  {
    hide Valid, UniqueRows, FreshCodes;
    if FreshCodes(s, room, draw) {
      FreshRowsAreUnique(s, room, draw);
    }
    if UniqueRows(s.checkins + NewRows(s, room, draw, |s.apps|)) {
      UniqueRowsAreFresh(s, room, draw);
    }
  }

  lemma SomeoneHolds(s: State, room: RoomId)
    ensures CountIf(s.apps, ConfirmedIn(room)) > 0 <==> exists k: nat :: Holds(s, k, room)
  {
    CountPositive(s.apps, ConfirmedIn(room));
    if k: nat :| Holds(s, k, room) {
      assert ConfirmedIn(room)(s.apps[k]);
    }
    if i :| 0 <= i < |s.apps| && ConfirmedIn(room)(s.apps[i]) {
      assert Holds(s, i, room);
    }
  }

  lemma OpenedRowsAgree(s: State, planner: PlannerId, room: RoomId, draw: UserId -> string, now: Time, s': State)
    requires Acceptable(s, ToOpenCheckIn(planner, room, draw), now) && s'.rooms == s.rooms && s'.apps == s.apps
    requires s'.checkins == s.checkins + NewRows(s, room, draw, |s.apps|)
    ensures Agrees(s, ToOpenCheckIn(planner, room, draw), now, s', None)
  {
    hide Acceptable, NewRows;
    var kept := seq(|s.checkins|, k requires 0 <= k < |s.checkins| =>
                                    CheckInAfter(s, ToOpenCheckIn(planner, room, draw), now, k));
    assert kept == s.checkins;
  }

  lemma CheckInsAreOk(s: State)
    requires Valid(s)
    ensures CheckInsOk(s.apps, s.checkins)
  {
  }

  lemma OpeningAgrees(s: State, planner: PlannerId, room: RoomId, draw: UserId -> string, now: Time)
    requires Valid(s)
    ensures var (s', error) := OpenCheckIn(s, planner, room, draw);
      Agrees(s, ToOpenCheckIn(planner, room, draw), now, s', error)
  {
    hide Agrees, Valid, UniqueRows, OpenedUpTo, CountIf, FreshCodes, NewRows, CheckInsOk, Holds;
    var (s', error) := OpenCheckIn(s, planner, room, draw);
    CheckInsAreOk(s);
    OpenedIs(s, room, draw, |s.apps|);
    FreshMeansUnique(s, room, draw);
    SomeoneHolds(s, room);
    if error == None {
      OpenedRowsAgree(s, planner, room, draw, now, s');
    } else {
      RefusalAgrees(s, ToOpenCheckIn(planner, room, draw), now, error);
    }
  }

  // ---- Every request ------------------------------------------------------------------------------------------

  lemma ServiceAgrees(s: State, e: Event)
    requires Valid(s)
    ensures var (s', error) := Serve(s, e.request, e.now); Agrees(s, e.request, e.now, s', error)
  {
    hide Valid, Agrees;
    match e.request
    case ToCreateRoom(user, body) => CreateAgrees(s, user, body, e.now);
    case ToUpdateRoom(user, room, patch) => UpdateAgrees(s, user, room, patch, e.now);
    case ToPublishRoom(user, room) => PublishAgrees(s, user, room, e.now);
    case ToApply(user, room, message) => ApplyAgrees(s, user, room, message, e.now);
    case ToCancel(user, app) => CancelAgrees(s, user, app, e.now);
    case ToApprove(user, app, note) => ApproveAgrees(s, user, app, note, e.now);
    case ToReject(user, app, note) => RejectAgrees(s, user, app, note, e.now);
    case ToWaitlist(user, app, note) => WaitlistAgrees(s, user, app, note, e.now);
    case ToMarkPaid(user, app) => PaidAgrees(s, user, app, e.now);
    case ToAssignPlanner(room, planner) => AssignAgrees(s, room, planner, e.now);
    case ToConfirmRoom(planner, room) => ConfirmAgrees(s, planner, room, e.now);
    case ToOpenCheckIn(planner, room, draw) => OpeningAgrees(s, planner, room, draw, e.now);
    case ToConfirmCheckIn(planner, row) => CheckedInAgrees(s, planner, row, e.now);
    case ToMarkNoShow(planner, row) => NoShowAgrees(s, planner, row, e.now);
    case ToStartSession(planner, room, minutes) => StartAgrees(s, planner, room, minutes, e.now);
    case ToNextRound(planner, room) => NextAgrees(s, planner, room, e.now);
    case ToEndSession(planner, room) => EndAgrees(s, planner, room, e.now);
    case _ => AccountAgrees(s, e);
  }

  /** In every reachable state a request of any kind is accepted if and only if this account says so, and is told what
      it says otherwise. */
  lemma {:induction false} AcceptedIff(run: seq<Event>, r: Request, now: Time)
    ensures Serve(Run(run), r, now).1
         == if Acceptable(Run(run), r, now) then None else Some(Reason(Run(run), r, now))
  {
    hide Run, Valid, Acceptable, Follows, Serve, Reason;
    ReachableIsValid(run);
    ServiceAgrees(Run(run), At(r, now));
  }

  /** And it changes every row of rooms, applications and check-ins, and adds rows, exactly as this account says; a
      refused request changes nothing at all. */
  lemma {:induction false} TablesFollow(run: seq<Event>, r: Request, now: Time)
    ensures Follows(Run(run), r, now, Run(run + [At(r, now)]))
  {
    hide Run, Valid, Acceptable, Follows, Serve, Reason;
    ReachableIsValid(run);
    ServiceAgrees(Run(run), At(r, now));
    RunNext(run, [At(r, now)]);
    assert [At(r, now)][..0] == [] && run + [] == run;
  }
}
