/** Rooms, applications, check-ins, credits and sessions as values, and what each request does to them.

    Rows are never deleted by the services, so a table is a list and a row's id is its position; tables
    keyed by a user, planner or room are maps. Each function gives the tables after a request and the
    error, if any; a refused request leaves every table as it was. */
module Lifecycle {
  import opened Types
  import opened CreditService
  import Rotation

  datatype AppStatus =
    | Submitted | Approved | Rejected | Waitlisted | PaymentPending | Paid | AppConfirmed | AppCancelled
  datatype CheckInStatus = NotOpen | Open | CheckedIn | NoShow

  /** The capacities that the room schemas accept. */
  type Capacity = c: int | 1 <= c <= 20 witness 1

  datatype User = User(active: bool, referrer: Option<UserId>, emitted: bool)
  datatype Profile = Profile(gender: Gender, complete: bool)
  datatype Room = Room(
    host: UserId, planner: Option<PlannerId>, status: RoomStatus, startsAt: Time, endsAt: Time,
    maleCap: Capacity, femaleCap: Capacity, deadline: Option<Time>, viableAt: Option<Time>)
  datatype Application = Application(
    room: RoomId, user: UserId, status: AppStatus, message: Option<string>, note: Option<string>,
    approvedAt: Option<Time>, rejectedAt: Option<Time>, cancelledAt: Option<Time>)
  datatype CheckIn = CheckIn(
    room: RoomId, user: UserId, app: nat, status: CheckInStatus, checkedInAt: Option<Time>, code: Option<string>)

  datatype State = State(
    users: map<UserId, User>,
    profiles: map<UserId, Profile>,
    planners: map<PlannerId, bool>,   // whether the planner is APPROVED
    rooms: seq<Room>,
    apps: seq<Application>,
    credits: seq<Credit>,
    checkins: seq<CheckIn>,
    sessions: map<RoomId, Rotation.Session>)

  const EMPTY := State(map[], map[], map[], [], [], [], [], map[])

  datatype Error =
    | Unauthorized | NotFound | Forbidden | InvalidState | Conflict | Validation | Integrity | Internal
    | NotAccepting | DeadlinePassed | ProfileIncomplete | NotReady | OverCapacity | PlannerNotApproved
    | NoParticipants | GenderImbalance | AlreadyStarted | LastRound

  // ---- Accounts and profiles ---------------------------------------------------------------------

  /** `register`, with the referral code resolved to the user who owns it. */
  function Register(s: State, id: UserId, referrer: Option<UserId>): (State, Option<Error>) {
    if id in s.users then (s, Some(Conflict))
    else if referrer.Some? && referrer.value !in s.users then (s, Some(Conflict))
    else (s.(users := s.users[id := User(true, referrer, false)]), None)
  }

  /** An administrator blocks or unblocks an account other than their own. */
  function SetActive(s: State, actor: UserId, id: UserId, active: bool): (State, Option<Error>) {
    if id !in s.users then (s, Some(NotFound))
    else if id == actor then (s, Some(Conflict))
    else (s.(users := s.users[id := s.users[id].(active := active)]), None)
  }

  function SaveProfile(s: State, user: UserId, profile: Profile): (State, Option<Error>) {
    if user !in s.users then (s, Some(Unauthorized))
    else (s.(profiles := s.profiles[user := profile]), None)
  }

  /** A planner row is created, approved or suspended. */
  function SetPlanner(s: State, planner: PlannerId, approved: bool): (State, Option<Error>) {
    (s.(planners := s.planners[planner := approved]), None)
  }

  // ---- Rooms ---------------------------------------------------------------------------------------

  datatype RoomBody = RoomBody(
    startsAt: Time, endsAt: Time, maleCap: Capacity, femaleCap: Capacity, deadline: Option<Time>)

  /** A field of an update: left out of the request, sent as null, or sent with a value. */
  datatype Field<T> = Unset | Null | Set(value: T)
  {
    function Over(prior: T): T {
      if Set? then value else prior
    }
  }

  datatype RoomPatch = RoomPatch(
    startsAt: Field<Time>, endsAt: Field<Time>, maleCap: Field<Capacity>, femaleCap: Field<Capacity>,
    deadline: Field<Time>)

  function CreateRoom(s: State, user: UserId, body: RoomBody): (State, Option<Error>) {
    if user !in s.users then (s, Some(Unauthorized))
    else if !s.users[user].active then (s, Some(Forbidden))
    else if body.endsAt <= body.startsAt then (s, Some(Validation))
    else if body.deadline.Some? && body.deadline.value > body.startsAt then (s, Some(Validation))
    else (s.(rooms := s.rooms + [Room(user, None, Draft, body.startsAt, body.endsAt, body.maleCap,
                                      body.femaleCap, body.deadline, None)]), None)
  }

  function HostRefusal(s: State, user: UserId, room: RoomId): Option<Error> {
    if room >= |s.rooms| then Some(NotFound)
    else if s.rooms[room].host != user then Some(Forbidden)
    else None
  }

  function Patched(room: Room, patch: RoomPatch): Room {
    room.(startsAt := patch.startsAt.Over(room.startsAt), endsAt := patch.endsAt.Over(room.endsAt),
          maleCap := patch.maleCap.Over(room.maleCap), femaleCap := patch.femaleCap.Over(room.femaleCap),
          deadline := match patch.deadline case Unset => room.deadline case Null => None case Set(t) => Some(t))
  }

  /** Comparing a null time fails before the flush, a null capacity at the flush. */
  function UpdateRoom(s: State, user: UserId, room: RoomId, patch: RoomPatch): (State, Option<Error>) {
    if HostRefusal(s, user, room).Some? then (s, HostRefusal(s, user, room))
    else if s.rooms[room].status !in {Draft, Published, Recruiting} then (s, Some(InvalidState))
    else if patch.startsAt.Null? || patch.endsAt.Null? then (s, Some(Internal))
    else
      var r := Patched(s.rooms[room], patch);
      if r.endsAt <= r.startsAt then (s, Some(Validation))
      else if patch.maleCap.Null? || patch.femaleCap.Null? then (s, Some(Integrity))
      else (s.(rooms := s.rooms[room := r]), None)
  }

  function PublishRoom(s: State, user: UserId, room: RoomId): (State, Option<Error>) {
    if HostRefusal(s, user, room).Some? then (s, HostRefusal(s, user, room))
    else if s.rooms[room].status != Draft then (s, Some(InvalidState))
    else (s.(rooms := s.rooms[room := s.rooms[room].(status := Published)]), None)
  }

  // ---- Applications ----------------------------------------------------------------------------------

  /** The position of the application of a user to a room, or `|apps|`. */
  function FindApp(apps: seq<Application>, room: RoomId, user: UserId): (k: nat)
    ensures k <= |apps|
    ensures k < |apps| ==> apps[k].room == room && apps[k].user == user
    ensures forall j :: 0 <= j < k ==> !(apps[j].room == room && apps[j].user == user)
  {
    FirstIndex(apps, (a: Application) => a.room == room && a.user == user)
  }

  function Apply(s: State, user: UserId, room: RoomId, message: Option<string>, now: Time): (State, Option<Error>) {
    if room >= |s.rooms| then (s, Some(NotFound))
    else if s.rooms[room].status !in {Published, Recruiting, Viable, Assigned} then (s, Some(NotAccepting))
    else if s.rooms[room].deadline.Some? && now > s.rooms[room].deadline.value then (s, Some(DeadlinePassed))
    else if user !in s.profiles || !s.profiles[user].complete then (s, Some(ProfileIncomplete))
    else
      var k := FindApp(s.apps, room, user);
      if k == |s.apps| then
        (s.(apps := s.apps + [Application(room, user, Submitted, message, None, None, None, None)]), None)
      else if s.apps[k].status != AppCancelled then (s, Some(Conflict))
      else (s.(apps := s.apps[k := s.apps[k].(status := Submitted, message := message, cancelledAt := None)]), None)
  }

  function Cancel(s: State, user: UserId, app: nat, now: Time): (State, Option<Error>) {
    if app >= |s.apps| then (s, Some(NotFound))
    else if s.apps[app].user != user then (s, Some(Forbidden))
    else if s.apps[app].status !in {Submitted, Waitlisted, Approved, PaymentPending} then (s, Some(InvalidState))
    else (s.(apps := s.apps[app := s.apps[app].(status := AppCancelled, cancelledAt := Some(now))]), None)
  }

  function CuratorRefusal(s: State, user: UserId, app: nat): Option<Error> {
    if app >= |s.apps| then Some(NotFound)
    else if s.apps[app].room >= |s.rooms| || s.rooms[s.apps[app].room].host != user then Some(Forbidden)
    else None
  }

  function Approve(s: State, user: UserId, app: nat, note: Option<string>, now: Time): (State, Option<Error>) {
    if CuratorRefusal(s, user, app).Some? then (s, CuratorRefusal(s, user, app))
    else if s.apps[app].status !in {Submitted, Waitlisted} then (s, Some(InvalidState))
    else (s.(apps := s.apps[app := s.apps[app].(status := Approved, approvedAt := Some(now),
                                                note := OrElse(note, s.apps[app].note))]), None)
  }

  function Reject(s: State, user: UserId, app: nat, note: Option<string>, now: Time): (State, Option<Error>) {
    if CuratorRefusal(s, user, app).Some? then (s, CuratorRefusal(s, user, app))
    else if s.apps[app].status !in {Submitted, Waitlisted, Approved, PaymentPending} then (s, Some(InvalidState))
    else (s.(apps := s.apps[app := s.apps[app].(status := Rejected, rejectedAt := Some(now),
                                                note := OrElse(note, s.apps[app].note))]), None)
  }

  function Waitlist(s: State, user: UserId, app: nat, note: Option<string>): (State, Option<Error>) {
    if CuratorRefusal(s, user, app).Some? then (s, CuratorRefusal(s, user, app))
    else if s.apps[app].status != Submitted then (s, Some(InvalidState))
    else (s.(apps := s.apps[app := s.apps[app].(status := Waitlisted, note := OrElse(note, s.apps[app].note))]), None)
  }

  // ---- Viability and referral rewards -----------------------------------------------------------

  /** `max(1, ceil(capacity * 0.5))`. */
  function Threshold(capacity: Capacity): int {
    var half := -((capacity as real * -0.5).Floor);
    if half > 1 then half else 1
  }

  function ConfirmedOf(profiles: map<UserId, Profile>, room: RoomId, gender: Gender): Application -> bool {
    (a: Application) =>
      a.room == room && a.status == AppConfirmed && a.user in profiles && profiles[a.user].gender == gender
  }

  function ConfirmedCount(s: State, room: RoomId, gender: Gender): nat {
    CountIf(s.apps, ConfirmedOf(s.profiles, room, gender))
  }

  function PromoteIfViable(s: State, room: RoomId, now: Time): State {
    if room >= |s.rooms| || s.rooms[room].status !in {Published, Recruiting} then s
    else if ConfirmedCount(s, room, Male) < Threshold(s.rooms[room].maleCap) then s
    else if ConfirmedCount(s, room, Female) < Threshold(s.rooms[room].femaleCap) then s
    else s.(rooms := s.rooms[room := s.rooms[room].(status := Viable, viableAt := Some(now))],
            credits := IssueBonus(s.credits, s.rooms[room].host, room, now))
  }

  function EmitReferral(s: State, user: UserId, now: Time): State {
    if user !in s.users || s.users[user].referrer == None || s.users[user].emitted then s
    else s.(users := s.users[user := s.users[user].(emitted := true)],
            credits := IssuePair(s.credits, s.users[user].referrer.value, user, now))
  }

  function MarkPaid(s: State, user: UserId, app: nat, now: Time): (State, Option<Error>) {
    if CuratorRefusal(s, user, app).Some? then (s, CuratorRefusal(s, user, app))
    else if s.apps[app].status !in {Approved, PaymentPending, Paid} then (s, Some(InvalidState))
    else
      var s1 := s.(apps := s.apps[app := s.apps[app].(status := AppConfirmed)]);
      (EmitReferral(PromoteIfViable(s1, s.apps[app].room, now), s.apps[app].user, now), None)
  }

  function ListCredits(s: State, user: UserId, now: Time): (State, Option<Error>) {
    (s.(credits := ExpireAll(s.credits, user, now)), None)
  }

  // ---- Assignment and confirmation ------------------------------------------------------------------

  function AssignPlanner(s: State, room: RoomId, planner: PlannerId): (State, Option<Error>) {
    if room >= |s.rooms| then (s, Some(NotFound))
    else if s.rooms[room].status !in {Viable, Assigned} then (s, Some(InvalidState))
    else if planner !in s.planners then (s, Some(NotFound))
    else if !s.planners[planner] then (s, Some(PlannerNotApproved))
    else (s.(rooms := s.rooms[room := s.rooms[room].(planner := Some(planner), status := Assigned)]), None)
  }

  /** The caller must be an approved planner and the room must be assigned to them. */
  function PlannerRefusal(s: State, planner: PlannerId, room: RoomId): Option<Error> {
    if planner !in s.planners || !s.planners[planner] then Some(Forbidden)
    else if room >= |s.rooms| then Some(NotFound)
    else if s.rooms[room].planner != Some(planner) then Some(Forbidden)
    else None
  }

  function ConfirmRoom(s: State, planner: PlannerId, room: RoomId): (State, Option<Error>) {
    if PlannerRefusal(s, planner, room).Some? then (s, PlannerRefusal(s, planner, room))
    else if s.rooms[room].status != Assigned then (s, Some(InvalidState))
    else
      var men, women := ConfirmedCount(s, room, Male), ConfirmedCount(s, room, Female);
      if men + women == 0 then (s, Some(NotReady))
      else if men > s.rooms[room].maleCap || women > s.rooms[room].femaleCap then (s, Some(OverCapacity))
      else (s.(rooms := s.rooms[room := s.rooms[room].(status := Confirmed)]), None)
  }

  // ---- Check-in ---------------------------------------------------------------------------------------

  function FindCheckIn(rows: seq<CheckIn>, room: RoomId, user: UserId): (k: nat)
    ensures k <= |rows|
    ensures k < |rows| ==> rows[k].room == room && rows[k].user == user
    ensures forall j :: 0 <= j < k ==> !(rows[j].room == room && rows[j].user == user)
  {
    FirstIndex(rows, (c: CheckIn) => c.room == room && c.user == user)
  }

  function ConfirmedIn(room: RoomId): Application -> bool {
    (a: Application) => a.room == room && a.status == AppConfirmed
  }

  function Reopened(row: CheckIn, code: string): CheckIn {
    row.(status := if row.status == NotOpen then Open else row.status,
         code := if row.code == None then Some(code) else row.code)
  }

  /** The rows after the first `k` applications have been looked at; `existing` are the rows that were
      there when the request began and `draw` gives the random code for each applicant. */
  function OpenedUpTo(existing: seq<CheckIn>, apps: seq<Application>, room: RoomId, draw: UserId -> string, k: nat)
    : (rows: seq<CheckIn>)
    requires k <= |apps|
    ensures |rows| >= |existing|
  {
    if k == 0 then existing
    else
      var rows, a := OpenedUpTo(existing, apps, room, draw, k - 1), apps[k - 1];
      if !ConfirmedIn(room)(a) then rows
      else
        var j := FindCheckIn(existing, room, a.user);
        if j == |existing| then rows + [CheckIn(room, a.user, k - 1, Open, None, Some(draw(a.user)))]
        else rows[j := Reopened(rows[j], draw(a.user))]
  }

  /** The check-in rows of the confirmed applicants of a room, in the order of their applications. */
  function RowsFor(rows: seq<CheckIn>, apps: seq<Application>, room: RoomId): seq<CheckIn> {
    if |apps| == 0 then []
    else
      var front, a := RowsFor(rows, apps[..|apps| - 1], room), apps[|apps| - 1];
      var j := FindCheckIn(rows, room, a.user);
      if ConfirmedIn(room)(a) && j < |rows| then front + [rows[j]] else front
  }

  /** The unique constraints on check-ins: one row per room and user, and distinct codes. */
  predicate UniqueRows(rows: seq<CheckIn>) {
    forall i, j :: 0 <= i < j < |rows| ==>
      !(rows[i].room == rows[j].room && rows[i].user == rows[j].user)
      && !(rows[i].code.Some? && rows[i].code == rows[j].code)
  }

  function OpenCheckIn(s: State, planner: PlannerId, room: RoomId, draw: UserId -> string): (State, Option<Error>) {
    if PlannerRefusal(s, planner, room).Some? then (s, PlannerRefusal(s, planner, room))
    else if s.rooms[room].status != Confirmed then (s, Some(InvalidState))
    else if CountIf(s.apps, ConfirmedIn(room)) == 0 then (s, Some(NoParticipants))
    else
      var rows := OpenedUpTo(s.checkins, s.apps, room, draw, |s.apps|);
      if UniqueRows(rows) then (s.(checkins := rows), None) else (s, Some(Integrity))
  }

  function CheckInRefusal(s: State, planner: PlannerId, row: nat): Option<Error> {
    if planner !in s.planners || !s.planners[planner] then Some(Forbidden)
    else if row >= |s.checkins| then Some(NotFound)
    else if s.checkins[row].room >= |s.rooms|
        || s.rooms[s.checkins[row].room].planner != Some(planner) then Some(Forbidden)
    else None
  }

  function ConfirmCheckIn(s: State, planner: PlannerId, row: nat, now: Time): (State, Option<Error>) {
    if CheckInRefusal(s, planner, row).Some? then (s, CheckInRefusal(s, planner, row))
    else if s.checkins[row].status !in {Open, NoShow} then (s, Some(InvalidState))
    else (s.(checkins := s.checkins[row := s.checkins[row].(status := CheckedIn, checkedInAt := Some(now))]), None)
  }

  function MarkNoShow(s: State, planner: PlannerId, row: nat): (State, Option<Error>) {
    if CheckInRefusal(s, planner, row).Some? then (s, CheckInRefusal(s, planner, row))
    else if s.checkins[row].status !in {Open, CheckedIn} then (s, Some(InvalidState))
    else (s.(checkins := s.checkins[row := s.checkins[row].(status := NoShow)]), None)
  }

  // ---- Rotation ---------------------------------------------------------------------------------------

  predicate Attends(row: CheckIn, profiles: map<UserId, Profile>, room: RoomId, gender: Gender) {
    row.room == room && row.status == CheckedIn && row.user in profiles && profiles[row.user].gender == gender
  }

  function Attendees(rows: seq<CheckIn>, profiles: map<UserId, Profile>, room: RoomId, gender: Gender): seq<UserId> {
    if |rows| == 0 then []
    else
      Attendees(rows[..|rows| - 1], profiles, room, gender)
      + if Attends(rows[|rows| - 1], profiles, room, gender) then [rows[|rows| - 1].user] else []
  }

  function Insert(x: UserId, s: seq<UserId>): seq<UserId> {
    if |s| == 0 || x <= s[0] then [x] + s else [s[0]] + Insert(x, s[1..])
  }

  /** The built-in `sorted` on ids. */
  function Sorted(s: seq<UserId>): seq<UserId> {
    if |s| == 0 then [] else Insert(s[0], Sorted(s[1..]))
  }

  function Group(s: State, room: RoomId, gender: Gender): seq<UserId> {
    Sorted(Attendees(s.checkins, s.profiles, room, gender))
  }

  function StartSession(s: State, planner: PlannerId, room: RoomId, minutes: int, now: Time): (State, Option<Error>) {
    if PlannerRefusal(s, planner, room).Some? then (s, PlannerRefusal(s, planner, room))
    else if s.rooms[room].status != Confirmed then (s, Some(InvalidState))
    else if room in s.sessions then (s, Some(AlreadyStarted))
    else
      var males, females := Group(s, room, Male), Group(s, room, Female);
      if males == [] || females == [] then (s, Some(NoParticipants))
      else if |males| != |females| then (s, Some(GenderImbalance))
      else (s.(sessions := s.sessions[room := Rotation.Started(males, females, now, minutes)],
               rooms := s.rooms[room := s.rooms[room].(status := InProgress)]), None)
  }

  function NextRound(s: State, planner: PlannerId, room: RoomId, now: Time): (State, Option<Error>) {
    if PlannerRefusal(s, planner, room).Some? then (s, PlannerRefusal(s, planner, room))
    else if room !in s.sessions then (s, Some(NotFound))
    else
      var (session, refusal) := Rotation.Advance(s.sessions[room], now);
      match refusal
      case Some(NotRunning) => (s, Some(InvalidState))
      case Some(_) => (s, Some(LastRound))
      case None => (s.(sessions := s.sessions[room := session]), None)
  }

  function EndSession(s: State, planner: PlannerId, room: RoomId, now: Time): (State, Option<Error>) {
    if PlannerRefusal(s, planner, room).Some? then (s, PlannerRefusal(s, planner, room))
    else if room !in s.sessions then (s, Some(NotFound))
    else
      var (session, refusal) := Rotation.Finish(s.sessions[room], now);
      if refusal.Some? then (s, Some(InvalidState))
      else (s.(sessions := s.sessions[room := session],
               rooms := s.rooms[room := s.rooms[room].(status := Completed)]), None)
  }

  /** `get_my_current_round`. */
  function MyCurrentRound(s: State, user: UserId, room: RoomId): Option<Rotation.View> {
    if room !in s.sessions then None else Some(Rotation.MyRound(s.sessions[room], user, s.profiles.Keys))
  }

  // ---- Requests -------------------------------------------------------------------------------------

  datatype Request =
    | ToRegister(id: UserId, referrer: Option<UserId>)
    | ToSetActive(actor: UserId, id: UserId, active: bool)
    | ToSaveProfile(user: UserId, profile: Profile)
    | ToSetPlanner(planner: PlannerId, approved: bool)
    | ToCreateRoom(user: UserId, body: RoomBody)
    | ToUpdateRoom(user: UserId, room: RoomId, patch: RoomPatch)
    | ToPublishRoom(user: UserId, room: RoomId)
    | ToApply(user: UserId, room: RoomId, message: Option<string>)
    | ToCancel(user: UserId, app: nat)
    | ToApprove(user: UserId, app: nat, note: Option<string>)
    | ToReject(user: UserId, app: nat, note: Option<string>)
    | ToWaitlist(user: UserId, app: nat, note: Option<string>)
    | ToMarkPaid(user: UserId, app: nat)
    | ToListCredits(user: UserId)
    | ToAssignPlanner(room: RoomId, planner: PlannerId)
    | ToConfirmRoom(planner: PlannerId, room: RoomId)
    | ToOpenCheckIn(planner: PlannerId, room: RoomId, draw: UserId -> string)
    | ToConfirmCheckIn(planner: PlannerId, row: nat)
    | ToMarkNoShow(planner: PlannerId, row: nat)
    | ToStartSession(planner: PlannerId, room: RoomId, minutes: int)
    | ToNextRound(planner: PlannerId, room: RoomId)
    | ToEndSession(planner: PlannerId, room: RoomId)

  function Serve(s: State, r: Request, now: Time): (State, Option<Error>) {
    match r
    case ToRegister(id, referrer) => Register(s, id, referrer)
    case ToSetActive(actor, id, active) => SetActive(s, actor, id, active)
    case ToSaveProfile(user, profile) => SaveProfile(s, user, profile)
    case ToSetPlanner(planner, approved) => SetPlanner(s, planner, approved)
    case ToCreateRoom(user, body) => CreateRoom(s, user, body)
    case ToUpdateRoom(user, room, patch) => UpdateRoom(s, user, room, patch)
    case ToPublishRoom(user, room) => PublishRoom(s, user, room)
    case ToApply(user, room, message) => Apply(s, user, room, message, now)
    case ToCancel(user, app) => Cancel(s, user, app, now)
    case ToApprove(user, app, note) => Approve(s, user, app, note, now)
    case ToReject(user, app, note) => Reject(s, user, app, note, now)
    case ToWaitlist(user, app, note) => Waitlist(s, user, app, note)
    case ToMarkPaid(user, app) => MarkPaid(s, user, app, now)
    case ToListCredits(user) => ListCredits(s, user, now)
    case ToAssignPlanner(room, planner) => AssignPlanner(s, room, planner)
    case ToConfirmRoom(planner, room) => ConfirmRoom(s, planner, room)
    case ToOpenCheckIn(planner, room, draw) => OpenCheckIn(s, planner, room, draw)
    case ToConfirmCheckIn(planner, row) => ConfirmCheckIn(s, planner, row, now)
    case ToMarkNoShow(planner, row) => MarkNoShow(s, planner, row)
    case ToStartSession(planner, room, minutes) => StartSession(s, planner, room, minutes, now)
    case ToNextRound(planner, room) => NextRound(s, planner, room, now)
    case ToEndSession(planner, room) => EndSession(s, planner, room, now)
  }

  /** A request together with the moment it is served. */
  datatype Event = At(request: Request, now: Time)

  function Step(s: State, e: Event): State {
    Serve(s, e.request, e.now).0
  }

  function Run(events: seq<Event>): State {
    if |events| == 0 then EMPTY else Step(Run(events[..|events| - 1]), events[|events| - 1])
  }

  function Rank(status: RoomStatus): nat {
    match status
    case Draft => 0
    case Published => 1
    case Recruiting => 1
    case Viable => 2
    case Assigned => 3
    case Confirmed => 4
    case InProgress => 5
    case Completed => 6
    case Cancelled => 7
  }
}
