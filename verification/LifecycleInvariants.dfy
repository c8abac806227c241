/** The invariant of the tables and the changes a request may make to them. */
module LifecycleInvariants {
  import opened Types
  import opened CreditService
  import opened Lifecycle
  import opened RotationTheorems
  import Rotation

  // ---- The invariant, one concern at a time ----------------------------------------------------

  /** RECRUITING and CANCELLED are never reached; a planner is set from ASSIGNED on and `viable_at`
      from VIABLE on. */
  predicate RoomOk(users: set<UserId>, planners: set<PlannerId>, r: Room) {
    && r.host in users && r.startsAt < r.endsAt
    && r.status != Recruiting && r.status != Cancelled
    && (r.planner.Some? <==> Rank(r.status) >= Rank(Assigned))
    && (r.planner.Some? ==> r.planner.value in planners)
    && (r.viableAt.Some? <==> Rank(r.status) >= Rank(Viable))
  }

  ghost predicate RoomsOk(users: set<UserId>, planners: set<PlannerId>, rooms: seq<Room>) {
    forall i :: 0 <= i < |rooms| ==> RoomOk(users, planners, rooms[i])
  }

  /** The stamps tell how the status was reached: only cancelled applications carry `cancelled_at`, and
      nobody is confirmed without having been approved. */
  predicate Stamped(a: Application) {
    && (a.cancelledAt.Some? <==> a.status == AppCancelled)
    && (a.status == Rejected ==> a.rejectedAt.Some?)
    && (a.status in {Approved, AppConfirmed} ==> a.approvedAt.Some?)
  }

  predicate AppOk(rooms: seq<Room>, profiles: set<UserId>, a: Application) {
    && a.room < |rooms| && Rank(rooms[a.room].status) >= Rank(Published)
    && a.user in profiles && a.status != PaymentPending && a.status != Paid && Stamped(a)
  }

  /** At most one application per room and user. */
  ghost predicate AppsOk(rooms: seq<Room>, profiles: set<UserId>, apps: seq<Application>) {
    && (forall i :: 0 <= i < |apps| ==> AppOk(rooms, profiles, apps[i]))
    && (forall i, j :: 0 <= i < j < |apps| ==> !(apps[i].room == apps[j].room && apps[i].user == apps[j].user))
  }

  /** A session exists and is RUNNING iff its room is IN_PROGRESS, and is COMPLETED iff the room is. */
  predicate SessionMatches(room: Room, sessions: map<RoomId, Rotation.Session>, id: RoomId) {
    && (room.status == InProgress <==> id in sessions && sessions[id].status == Rotation.Running)
    && (room.status == Completed <==> id in sessions && sessions[id].status == Rotation.Ended)
  }

  ghost predicate SessionsOk(rooms: seq<Room>, sessions: map<RoomId, Rotation.Session>) {
    && (forall id :: id in sessions ==> id < |rooms| && Sound(sessions[id]))
    && (forall id :: 0 <= id < |rooms| ==> SessionMatches(rooms[id], sessions, id))
  }

  /** A check-in belongs to the same user's CONFIRMED application to the same room. */
  predicate CheckInOk(apps: seq<Application>, c: CheckIn) {
    && c.app < |apps| && apps[c.app].room == c.room && apps[c.app].user == c.user
    && apps[c.app].status == AppConfirmed && c.status != NotOpen && c.code.Some?
  }

  ghost predicate CheckInsOk(apps: seq<Application>, rows: seq<CheckIn>) {
    UniqueRows(rows) && forall i :: 0 <= i < |rows| ==> CheckInOk(apps, rows[i])
  }

  predicate HasCheckIn(rows: seq<CheckIn>, room: RoomId, user: UserId) {
    exists i :: 0 <= i < |rows| && rows[i].room == room && rows[i].user == user
  }

  predicate Seated(sessions: map<RoomId, Rotation.Session>, room: RoomId, user: UserId) {
    room in sessions && |sessions[room].rounds| > 0
    && (user in Males(sessions[room]) || user in Females(sessions[room]))
  }

  /** Everyone seated has a check-in and a profile. */
  ghost predicate SeatsOk(rows: seq<CheckIn>, profiles: set<UserId>, sessions: map<RoomId, Rotation.Session>) {
    forall room, user :: Seated(sessions, room, user) ==> HasCheckIn(rows, room, user) && user in profiles
  }

  function BonusFor(room: RoomId): Credit -> bool {
    (c: Credit) => c.source == ViableHostBonus && c.sourceRoom == Some(room)
  }

  function BonusOf(user: UserId): Credit -> bool {
    (c: Credit) => c.source == ViableHostBonus && c.user == user
  }

  function ViableRoomOf(user: UserId): Room -> bool {
    (r: Room) => r.host == user && Rank(r.status) >= Rank(Viable)
  }

  /** One bonus per room at VIABLE or beyond, held by its host. */
  ghost predicate BonusesOk(rooms: seq<Room>, credits: seq<Credit>) {
    && (forall r :: 0 <= r < |rooms| ==>
          CountIf(credits, BonusFor(r)) == if Rank(rooms[r].status) >= Rank(Viable) then 1 else 0)
    && (forall i :: 0 <= i < |credits| && credits[i].source == ViableHostBonus ==>
          var r := credits[i].sourceRoom; r.Some? && r.value < |rooms| && rooms[r.value].host == credits[i].user)
    && (forall u :: CountIf(credits, BonusOf(u)) == CountIf(rooms, ViableRoomOf(u)))
  }

  predicate HasConfirmed(apps: seq<Application>, user: UserId) {
    exists i :: 0 <= i < |apps| && apps[i].user == user && apps[i].status == AppConfirmed
  }

  predicate EmittedRight(users: map<UserId, User>, apps: seq<Application>, f: UserId)
    requires f in users
  {
    users[f].emitted <==> users[f].referrer.Some? && HasConfirmed(apps, f)
  }

  /** The flag is set exactly on referred users with a CONFIRMED application. */
  ghost predicate EmittedOk(users: map<UserId, User>, apps: seq<Application>) {
    forall f :: f in users ==> EmittedRight(users, apps, f)
  }

  function EmittedBy(users: map<UserId, User>, r: UserId): set<UserId> {
    set f | f in users && users[f].referrer == Some(r) && users[f].emitted
  }

  /** A referrer holds one credit per rewarded friend, up to five; the two sides of a reward pair up. */
  ghost predicate ReferralsOk(users: map<UserId, User>, credits: seq<Credit>) {
    && (forall r :: CountIf(credits, IsReferrerCredit(r)) == Min(MAX_REFERRAL_BONUSES_PER_HOST, |EmittedBy(users, r)|))
    && (forall r, f :: CountIf(credits, IsReferrerPair(r, f)) == CountIf(credits, IsFriendPair(r, f)) <= 1)
    && (forall r, f :: CountIf(credits, IsReferrerPair(r, f)) > 0 ==> f in EmittedBy(users, r))
    && (forall i :: 0 <= i < |credits| && credits[i].source in {ReferralHost, ReferralFriend} ==>
          credits[i].sourceUser.Some?)
  }

  /** Credits are what their source promises, and only ever active or expired. */
  predicate Genuine(c: Credit) {
    && c.status in {ActiveCredit, Expired} && c.source != ManualGrant
    && (if c.source == ViableHostBonus then
          c.kind == Percent && c.amount == None && c.percent == Some(30) && c.cap == Some(10_000)
        else c.kind == FixedAmount && c.amount == Some(3_000) && c.percent == None && c.cap == None)
  }

  ghost predicate CreditsOk(credits: seq<Credit>) {
    forall c :: c in credits ==> Genuine(c)
  }

  /** Everything except what the referral flags say about applications. */
  ghost predicate Core(s: State) {
    && s.profiles.Keys <= s.users.Keys
    && RoomsOk(s.users.Keys, s.planners.Keys, s.rooms)
    && AppsOk(s.rooms, s.profiles.Keys, s.apps)
    && SessionsOk(s.rooms, s.sessions)
    && CheckInsOk(s.apps, s.checkins)
    && SeatsOk(s.checkins, s.profiles.Keys, s.sessions)
    && BonusesOk(s.rooms, s.credits)
    && ReferralsOk(s.users, s.credits)
    && CreditsOk(s.credits)
  }

  ghost predicate Valid(s: State) {
    Core(s) && EmittedOk(s.users, s.apps)
  }

  // ---- What a request can change ---------------------------------------------------------------

  /** Applications never move or disappear, and CONFIRMED and REJECTED are absorbing. */
  ghost predicate AppsGrow(apps: seq<Application>, apps': seq<Application>) {
    && |apps| <= |apps'|
    && (forall i :: 0 <= i < |apps| ==>
          apps'[i].room == apps[i].room && apps'[i].user == apps[i].user
          && (apps[i].status in {AppConfirmed, Rejected} ==> apps'[i].status == apps[i].status))
  }

  /** A room keeps its host, its rank never falls, the planner is frozen from CONFIRMED on and the
      capacities and `viable_at` from VIABLE on. */
  predicate RoomGrows(r: Room, r': Room) {
    && r'.host == r.host && Rank(r.status) <= Rank(r'.status)
    && (Rank(r.status) >= Rank(Confirmed) ==> r'.planner == r.planner)
    && (Rank(r.status) >= Rank(Viable) ==>
          r'.maleCap == r.maleCap && r'.femaleCap == r.femaleCap && r'.viableAt == r.viableAt)
  }

  ghost predicate RoomsGrow(rooms: seq<Room>, rooms': seq<Room>) {
    |rooms| <= |rooms'| && forall i :: 0 <= i < |rooms| ==> RoomGrows(rooms[i], rooms'[i])
  }

  ghost predicate UsersGrow(users: map<UserId, User>, users': map<UserId, User>) {
    && users.Keys <= users'.Keys
    && (forall u :: u in users ==>
          users'[u].referrer == users[u].referrer && (users[u].emitted ==> users'[u].emitted))
  }

  ghost predicate CheckInsGrow(rows: seq<CheckIn>, rows': seq<CheckIn>) {
    && |rows| <= |rows'|
    && (forall i :: 0 <= i < |rows| ==>
          rows'[i].room == rows[i].room && rows'[i].user == rows[i].user && rows'[i].app == rows[i].app
          && rows'[i].code == rows[i].code)
  }

  /** A session keeps its groups, its start and its duration, and moves forward one round at a time. */
  predicate SessionGrows(s: Rotation.Session, s': Rotation.Session) {
    && 0 < |s.rounds| == |s'.rounds| && Males(s') == Males(s) && Females(s') == Females(s)
    && s'.minutes == s.minutes && s'.startedAt == s.startedAt
    && s.current <= s'.current <= s.current + 1
    && (s.status == Rotation.Ended ==> s' == s)
  }

  ghost predicate SessionsGrow(sessions: map<RoomId, Rotation.Session>, sessions': map<RoomId, Rotation.Session>) {
    && (forall id :: id in sessions ==> id in sessions' && SessionGrows(sessions[id], sessions'[id]))
    && (forall id :: id in sessions' && id !in sessions ==>
          sessions'[id].current == 1 && sessions'[id].status == Rotation.Running)
  }

  /** A credit keeps everything but its status, and EXPIRED is absorbing. */
  predicate CreditGrows(c: Credit, c': Credit) {
    c' == c.(status := c'.status) && (c.status == Expired ==> c'.status == Expired)
  }

  ghost predicate CreditsGrow(credits: seq<Credit>, credits': seq<Credit>) {
    && |credits| <= |credits'|
    && (forall i :: 0 <= i < |credits| ==> CreditGrows(credits[i], credits'[i]))
  }

  ghost predicate Grows(s: State, s': State) {
    && AppsGrow(s.apps, s'.apps)
    && RoomsGrow(s.rooms, s'.rooms)
    && UsersGrow(s.users, s'.users)
    && s.profiles.Keys <= s'.profiles.Keys && s.planners.Keys <= s'.planners.Keys
    && CheckInsGrow(s.checkins, s'.checkins)
    && SessionsGrow(s.sessions, s'.sessions)
    && CreditsGrow(s.credits, s'.credits)
  }

  lemma GrowsReflexive(s: State)
    requires SessionsOk(s.rooms, s.sessions)
    ensures Grows(s, s)
  {
  }

  lemma RoomAt(s: State, k: nat)
    requires Valid(s) && k < |s.rooms|
    ensures RoomOk(s.users.Keys, s.planners.Keys, s.rooms[k])
  {
  }

  lemma AppAt(s: State, k: nat)
    requires Valid(s) && k < |s.apps|
    ensures Stamped(s.apps[k])
  {
    assert AppOk(s.rooms, s.profiles.Keys, s.apps[k]);
  }

  // ---- Single-row changes ------------------------------------------------------------------------

  /** The tables that refer to rooms survive the change of one row that does not concern a session. */
  lemma RoomTablesKeep(s: State, k: nat, r': Room)
    requires RoomsOk(s.users.Keys, s.planners.Keys, s.rooms) && AppsOk(s.rooms, s.profiles.Keys, s.apps)
    requires SessionsOk(s.rooms, s.sessions)
    requires k < |s.rooms| && RoomOk(s.users.Keys, s.planners.Keys, r') && RoomGrows(s.rooms[k], r')
    requires Rank(r'.status) < Rank(InProgress)
    ensures var rooms' := s.rooms[k := r'];
      && RoomsOk(s.users.Keys, s.planners.Keys, rooms') && AppsOk(rooms', s.profiles.Keys, s.apps)
      && SessionsOk(rooms', s.sessions) && RoomsGrow(s.rooms, rooms')
  {
    hide Sound;
    assert SessionMatches(s.rooms[k], s.sessions, k);
  }

  lemma SameViableRooms(rooms: seq<Room>, credits: seq<Credit>, k: nat, r': Room)
    requires BonusesOk(rooms, credits) && k < |rooms| && r'.host == rooms[k].host
    requires Rank(rooms[k].status) >= Rank(Viable) <==> Rank(r'.status) >= Rank(Viable)
    ensures BonusesOk(rooms[k := r'], credits)
  {
    forall u ensures CountIf(rooms[k := r'], ViableRoomOf(u)) == CountIf(rooms, ViableRoomOf(u)) {
      CountUpdate(rooms, k, r', ViableRoomOf(u));
    }
  }

  /** Changing a room row that neither crosses VIABLE nor concerns a session. */
  lemma RoomRowKeeps(s: State, k: nat, r': Room)
    requires Valid(s) && k < |s.rooms| && RoomOk(s.users.Keys, s.planners.Keys, r')
    requires RoomGrows(s.rooms[k], r')
    requires Rank(s.rooms[k].status) >= Rank(Viable) <==> Rank(r'.status) >= Rank(Viable)
    requires Rank(r'.status) < Rank(InProgress)
    ensures var s' := s.(rooms := s.rooms[k := r']); Valid(s') && Grows(s, s')
  {
    hide RoomsOk, AppsOk, SessionsOk, CheckInsOk, SeatsOk, BonusesOk, ReferralsOk, CreditsOk, EmittedOk, AppsGrow,
         RoomsGrow, UsersGrow, CheckInsGrow, SessionsGrow, CreditsGrow, RoomOk;
    GrowsReflexive(s);
    RoomTablesKeep(s, k, r');
    SameViableRooms(s.rooms, s.credits, k, r');
  }

  /** Changing an application that is not settled to another status short of payment. */
  lemma AppRowKeeps(s: State, k: nat, a': Application)
    requires Valid(s) && k < |s.apps| && s.apps[k].status !in {AppConfirmed, Rejected}
    requires a'.room == s.apps[k].room && a'.user == s.apps[k].user && Stamped(a')
    requires a'.status in {Submitted, Approved, Rejected, Waitlisted, AppCancelled}
    ensures var s' := s.(apps := s.apps[k := a']); Valid(s') && Grows(s, s')
  {
    hide RoomsOk, SessionsOk, SeatsOk, BonusesOk, ReferralsOk, CreditsOk, RoomsGrow, UsersGrow, CheckInsGrow,
         SessionsGrow, CreditsGrow;
    GrowsReflexive(s);
    var apps' := s.apps[k := a'];
    forall f ensures HasConfirmed(apps', f) <==> HasConfirmed(s.apps, f) {
      if i :| 0 <= i < |apps'| && apps'[i].user == f && apps'[i].status == AppConfirmed {
        assert s.apps[i] == apps'[i];
      }
      if i :| 0 <= i < |s.apps| && s.apps[i].user == f && s.apps[i].status == AppConfirmed {
        assert s.apps[i] == apps'[i];
      }
    }
    assert forall f :: f in s.users ==> EmittedRight(s.users, s.apps, f);
    assert EmittedOk(s.users, apps');
  }

  /** Changing the status of a check-in row that is already open. */
  lemma CheckInRowKeeps(s: State, k: nat, c': CheckIn)
    requires Valid(s) && k < |s.checkins| && c'.status != NotOpen
    requires c' == s.checkins[k].(status := c'.status, checkedInAt := c'.checkedInAt)
    ensures var s' := s.(checkins := s.checkins[k := c']); Valid(s') && Grows(s, s')
  {
    hide RoomsOk, AppsOk, SessionsOk, BonusesOk, ReferralsOk, CreditsOk, EmittedOk, RoomsGrow, UsersGrow, AppsGrow,
         SessionsGrow, CreditsGrow;
    GrowsReflexive(s);
    var rows' := s.checkins[k := c'];
    forall room, user | HasCheckIn(s.checkins, room, user) ensures HasCheckIn(rows', room, user) {
      var i :| 0 <= i < |s.checkins| && s.checkins[i].room == room && s.checkins[i].user == user;
      assert rows'[i].room == room && rows'[i].user == user;
    }
  }
}
