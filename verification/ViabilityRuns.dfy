/** Rooms that became viable stay viable, except when a confirmed participant changes gender. */
module ViabilityRuns {
  import opened Types
  import opened CreditService
  import opened Lifecycle
  import opened LifecycleInvariants
  import opened LifecycleSteps
  import opened LifecycleRuns
  import Rotation

  /** `max(1, ceil(capacity * 0.5))` is half the capacity, rounded up. */
  lemma ThresholdIsHalf(capacity: Capacity)
    ensures Threshold(capacity) == (capacity + 1) / 2
  {
    var x := capacity as real * -0.5;
    var half := (capacity + 1) / 2;
    assert -half as real <= x < (-half + 1) as real;
  }

  function CapacityOf(r: Room, gender: Gender): Capacity
    requires gender != Other
  {
    if gender == Male then r.maleCap else r.femaleCap
  }

  predicate Met(s: State, room: RoomId, gender: Gender)
    requires room < |s.rooms| && gender != Other
  {
    ConfirmedCount(s, room, gender) >= Threshold(CapacityOf(s.rooms[room], gender))
  }

  predicate StillViable(s: State, room: RoomId)
    requires room < |s.rooms|
  {
    Rank(s.rooms[room].status) >= Rank(Viable) ==> Met(s, room, Male) && Met(s, room, Female)
  }

  /** Every room at VIABLE or beyond has at least half of each capacity confirmed. */
  ghost predicate AllViable(s: State) {
    forall room :: 0 <= room < |s.rooms| ==> StillViable(s, room)
  }

  // ---- Requests other than payments and profile updates ------------------------------------------

  predicate ConfirmsNobody(apps: seq<Application>, apps': seq<Application>) {
    forall i :: 0 <= i < |apps'| && apps'[i].status == AppConfirmed ==> i < |apps| && apps[i].status == AppConfirmed
  }

  /** Room `k` does not reach VIABLE, reaches CONFIRMED only through its confirmation and changes its dates only
      through an update; a new room is a DRAFT whose deadline is not after its start. */
  predicate RoomStays(rooms: seq<Room>, r: Request, k: nat, room': Room) {
    if k < |rooms| then
      && (Rank(room'.status) >= Rank(Viable) ==> Rank(rooms[k].status) >= Rank(Viable))
      && (!r.ToConfirmRoom? && Rank(room'.status) >= Rank(Confirmed) ==> Rank(rooms[k].status) >= Rank(Confirmed))
      && (!r.ToUpdateRoom? ==> room'.startsAt == rooms[k].startsAt && room'.deadline == rooms[k].deadline)
    else
      && r.ToCreateRoom? && room'.status == Draft
      && (room'.deadline.Some? ==> room'.deadline.value <= room'.startsAt)
  }

  /** The request changes no profile, confirms nobody, leaves the rooms alone in the sense above, and touches credits
      only to list them, accounts only to register or block, and planners only to set their status. */
  ghost predicate Quiet(s: State, r: Request, s': State) {
    && s'.profiles == s.profiles && ConfirmsNobody(s.apps, s'.apps) && |s.rooms| <= |s'.rooms|
    && (forall k :: 0 <= k < |s'.rooms| ==> RoomStays(s.rooms, r, k, s'.rooms[k]))
    && (r.ToListCredits? || s'.credits == s.credits)
    && (r.ToRegister? || r.ToSetActive? || s'.users == s.users)
    && (r.ToSetPlanner? || s'.planners == s.planners)
  }

  predicate ChecksIn(r: Request) {
    r.ToOpenCheckIn? || r.ToConfirmCheckIn? || r.ToMarkNoShow?
  }

  lemma CheckInsAreQuiet(s: State, r: Request, checkins': seq<CheckIn>)
    ensures Quiet(s, r, s.(checkins := checkins'))
  {
  }

  lemma CheckInIsQuiet(s: State, e: Event)
    requires ChecksIn(e.request)
    ensures Quiet(s, e.request, Step(s, e))
  {
    hide Quiet, OpenedUpTo, UniqueRows, CountIf, PlannerRefusal, CheckInRefusal;
    var s' := Step(s, e);
    assert s' == s.(checkins := s'.checkins);
    CheckInsAreQuiet(s, e.request, s'.checkins);
  }

  predicate Rotates(r: Request) {
    r.ToStartSession? || r.ToNextRound? || r.ToEndSession?
  }

  lemma StartIsQuiet(s: State, planner: PlannerId, room: RoomId, minutes: int, now: Time)
    ensures Quiet(s, ToStartSession(planner, room, minutes), StartSession(s, planner, room, minutes, now).0)
  {
    hide Group, Rotation.Started;
  }

  lemma NextIsQuiet(s: State, planner: PlannerId, room: RoomId, now: Time)
    ensures Quiet(s, ToNextRound(planner, room), NextRound(s, planner, room, now).0)
  {
    hide Rotation.Advance;
  }

  lemma EndIsQuiet(s: State, planner: PlannerId, room: RoomId, now: Time)
    requires Valid(s)
    ensures Quiet(s, ToEndSession(planner, room), EndSession(s, planner, room, now).0)
  {
    hide Valid;
    if room in s.sessions {
      EndableRoom(s, room);
    }
  }

  lemma RotationIsQuiet(s: State, e: Event)
    requires Valid(s) && Rotates(e.request)
    ensures Quiet(s, e.request, Step(s, e))
  {
    hide Valid, Quiet;
    match e.request
    case ToStartSession(planner, room, minutes) => StartIsQuiet(s, planner, room, minutes, e.now);
    case ToNextRound(planner, room) => NextIsQuiet(s, planner, room, e.now);
    case ToEndSession(planner, room) => EndIsQuiet(s, planner, room, e.now);
  }

  predicate EditsRooms(r: Request) {
    r.ToCreateRoom? || r.ToUpdateRoom? || r.ToPublishRoom? || r.ToAssignPlanner? || r.ToConfirmRoom?
  }

  /** A changed room row. */
  lemma RowIsQuiet(s: State, r: Request, k: nat, room': Room)
    requires k < |s.rooms| && RoomStays(s.rooms, r, k, room')
    ensures Quiet(s, r, s.(rooms := s.rooms[k := room']))
  {
  }

  lemma SameIsQuiet(s: State, r: Request)
    ensures Quiet(s, r, s)
  {
  }

  lemma CreateIsQuiet(s: State, user: UserId, body: RoomBody)
    ensures Quiet(s, ToCreateRoom(user, body), CreateRoom(s, user, body).0)
  {
  }

  lemma UpdateIsQuiet(s: State, user: UserId, room: RoomId, patch: RoomPatch)
    ensures Quiet(s, ToUpdateRoom(user, room, patch), UpdateRoom(s, user, room, patch).0)
  {
    hide Quiet;
    var (s', e) := UpdateRoom(s, user, room, patch);
    SameIsQuiet(s, ToUpdateRoom(user, room, patch));
    if e.None? {
      RowIsQuiet(s, ToUpdateRoom(user, room, patch), room, s'.rooms[room]);
    }
  }

  lemma PublishIsQuiet(s: State, user: UserId, room: RoomId)
    ensures Quiet(s, ToPublishRoom(user, room), PublishRoom(s, user, room).0)
  {
    hide Quiet;
    var (s', e) := PublishRoom(s, user, room);
    SameIsQuiet(s, ToPublishRoom(user, room));
    if e.None? {
      RowIsQuiet(s, ToPublishRoom(user, room), room, s'.rooms[room]);
    }
  }

  lemma AssignIsQuiet(s: State, room: RoomId, planner: PlannerId)
    ensures Quiet(s, ToAssignPlanner(room, planner), AssignPlanner(s, room, planner).0)
  {
    hide Quiet;
    var (s', e) := AssignPlanner(s, room, planner);
    SameIsQuiet(s, ToAssignPlanner(room, planner));
    if e.None? {
      RowIsQuiet(s, ToAssignPlanner(room, planner), room, s'.rooms[room]);
    }
  }

  lemma ConfirmIsQuiet(s: State, planner: PlannerId, room: RoomId)
    ensures Quiet(s, ToConfirmRoom(planner, room), ConfirmRoom(s, planner, room).0)
  {
    hide Quiet, ConfirmedCount;
    var (s', e) := ConfirmRoom(s, planner, room);
    SameIsQuiet(s, ToConfirmRoom(planner, room));
    if e.None? {
      RowIsQuiet(s, ToConfirmRoom(planner, room), room, s'.rooms[room]);
    }
  }

  lemma EditIsQuiet(s: State, e: Event)
    requires EditsRooms(e.request)
    ensures Quiet(s, e.request, Step(s, e))
  {
    hide Quiet;
    match e.request
    case ToCreateRoom(user, body) => CreateIsQuiet(s, user, body);
    case ToUpdateRoom(user, room, patch) => UpdateIsQuiet(s, user, room, patch);
    case ToPublishRoom(user, room) => PublishIsQuiet(s, user, room);
    case ToAssignPlanner(room, planner) => AssignIsQuiet(s, room, planner);
    case ToConfirmRoom(planner, room) => ConfirmIsQuiet(s, planner, room);
  }

  predicate Applicants(r: Request) {
    r.ToApply? || r.ToCancel? || r.ToApprove? || r.ToReject? || r.ToWaitlist?
  }

  /** A changed application row that is not confirmed. */
  lemma AppRowIsQuiet(s: State, r: Request, k: nat, a': Application)
    requires k < |s.apps| && a'.status != AppConfirmed
    ensures Quiet(s, r, s.(apps := s.apps[k := a']))
  {
  }

  lemma ApplyIsQuiet(s: State, user: UserId, room: RoomId, message: Option<string>, now: Time)
    ensures Quiet(s, ToApply(user, room, message), Apply(s, user, room, message, now).0)
  {
    hide FindApp, Rank;
  }

  lemma CancelIsQuiet(s: State, user: UserId, app: nat, now: Time)
    ensures Quiet(s, ToCancel(user, app), Cancel(s, user, app, now).0)
  {
    hide Quiet;
    var (s', e) := Cancel(s, user, app, now);
    SameIsQuiet(s, ToCancel(user, app));
    if e.None? {
      AppRowIsQuiet(s, ToCancel(user, app), app, s'.apps[app]);
    }
  }

  lemma ApproveIsQuiet(s: State, user: UserId, app: nat, note: Option<string>, now: Time)
    ensures Quiet(s, ToApprove(user, app, note), Approve(s, user, app, note, now).0)
  {
    hide Quiet;
    var (s', e) := Approve(s, user, app, note, now);
    SameIsQuiet(s, ToApprove(user, app, note));
    if e.None? {
      AppRowIsQuiet(s, ToApprove(user, app, note), app, s'.apps[app]);
    }
  }

  lemma RejectIsQuiet(s: State, user: UserId, app: nat, note: Option<string>, now: Time)
    ensures Quiet(s, ToReject(user, app, note), Reject(s, user, app, note, now).0)
  {
    hide Quiet;
    var (s', e) := Reject(s, user, app, note, now);
    SameIsQuiet(s, ToReject(user, app, note));
    if e.None? {
      AppRowIsQuiet(s, ToReject(user, app, note), app, s'.apps[app]);
    }
  }

  lemma WaitlistIsQuiet(s: State, user: UserId, app: nat, note: Option<string>)
    ensures Quiet(s, ToWaitlist(user, app, note), Waitlist(s, user, app, note).0)
  {
    hide Quiet;
    var (s', e) := Waitlist(s, user, app, note);
    SameIsQuiet(s, ToWaitlist(user, app, note));
    if e.None? {
      AppRowIsQuiet(s, ToWaitlist(user, app, note), app, s'.apps[app]);
    }
  }

  lemma ApplicationIsQuiet(s: State, e: Event)
    requires Applicants(e.request)
    ensures Quiet(s, e.request, Step(s, e))
  {
    hide Quiet;
    match e.request
    case ToApply(user, room, message) => ApplyIsQuiet(s, user, room, message, e.now);
    case ToCancel(user, app) => CancelIsQuiet(s, user, app, e.now);
    case ToApprove(user, app, note) => ApproveIsQuiet(s, user, app, note, e.now);
    case ToReject(user, app, note) => RejectIsQuiet(s, user, app, note, e.now);
    case ToWaitlist(user, app, note) => WaitlistIsQuiet(s, user, app, note);
  }

  lemma AccountIsQuiet(s: State, e: Event)
    requires e.request.ToRegister? || e.request.ToSetActive? || e.request.ToSetPlanner? || e.request.ToListCredits?
    ensures Quiet(s, e.request, Step(s, e))
  {
    hide ExpireAll, Rank;
  }

  /** Only a payment takes a room to VIABLE or confirms somebody, and only a profile update touches a profile. */
  lemma OthersAreQuiet(s: State, e: Event)
    requires Valid(s) && !e.request.ToMarkPaid? && !e.request.ToSaveProfile?
    ensures Quiet(s, e.request, Step(s, e))
  {
    hide Valid, Step, Quiet;
    if ChecksIn(e.request) {
      CheckInIsQuiet(s, e);
    } else if Rotates(e.request) {
      RotationIsQuiet(s, e);
    } else if EditsRooms(e.request) {
      EditIsQuiet(s, e);
    } else if Applicants(e.request) {
      ApplicationIsQuiet(s, e);
    } else {
      AccountIsQuiet(s, e);
    }
  }

  lemma EndableRoom(s: State, room: RoomId)
    requires Valid(s) && room in s.sessions
    ensures room < |s.rooms| && (s.sessions[room].status != Rotation.Ended ==> s.rooms[room].status == InProgress)
  {
    RunningRoom(s, room);
  }

  lemma CountsGrow(s: State, s': State, room: RoomId, gender: Gender)
    requires AppsGrow(s.apps, s'.apps) && s'.profiles == s.profiles
    ensures ConfirmedCount(s, room, gender) <= ConfirmedCount(s', room, gender)
  {
    CountMonotone(s.apps, s'.apps, ConfirmedOf(s.profiles, room, gender), ConfirmedOf(s'.profiles, room, gender));
  }

  /** A room that was viable stays so while profiles do not change: counts only grow and its capacities
      are frozen. */
  lemma OldViable(s: State, s': State, room: RoomId)
    requires Grows(s, s') && s'.profiles == s.profiles && room < |s.rooms| && StillViable(s, room)
    requires Rank(s.rooms[room].status) >= Rank(Viable)
    ensures room < |s'.rooms| && StillViable(s', room)
  {
    hide ConfirmedCount, Threshold, UsersGrow, CheckInsGrow, SessionsGrow, CreditsGrow;
    assert RoomGrows(s.rooms[room], s'.rooms[room]);
    CountsGrow(s, s', room, Male);
    CountsGrow(s, s', room, Female);
  }

  /** What a payment does to rooms and counts. */
  lemma PaymentPromotes(s: State, user: UserId, app: nat, now: Time, room: RoomId)
    requires MarkPaid(s, user, app, now).1 == None && room < |s.rooms|
    requires Rank(s.rooms[room].status) < Rank(Viable)
    ensures var s' := MarkPaid(s, user, app, now).0;
      s'.profiles == s.profiles && |s'.rooms| == |s.rooms| && StillViable(s', room)
  {
    hide Threshold, IssueBonus, IssuePair, CountIf;
    var s1 := s.(apps := s.apps[app := s.apps[app].(status := AppConfirmed)]);
    var s' := MarkPaid(s, user, app, now).0;
    assert s'.apps == s1.apps && s'.profiles == s1.profiles;
    assert ConfirmedCount(s', room, Male) == ConfirmedCount(s1, room, Male);
    assert ConfirmedCount(s', room, Female) == ConfirmedCount(s1, room, Female);
  }

  lemma PaymentKeepsViable(s: State, user: UserId, app: nat, now: Time)
    requires Valid(s) && AllViable(s)
    ensures AllViable(MarkPaid(s, user, app, now).0)
  {
    hide Valid, Grows, StillViable, EmitReferral, PromoteIfViable;
    var (s', e) := MarkPaid(s, user, app, now);
    MarkPaidKeeps(s, user, app, now);
    PaymentShape(s, user, app, now);
    if e.None? {
      forall room | 0 <= room < |s'.rooms| ensures StillViable(s', room) {
        assert StillViable(s, room);
        if Rank(s.rooms[room].status) < Rank(Viable) {
          PaymentPromotes(s, user, app, now, room);
        } else {
          OldViable(s, s', room);
        }
      }
    }
  }

  lemma PaymentShape(s: State, user: UserId, app: nat, now: Time)
    ensures var s' := MarkPaid(s, user, app, now).0; s'.profiles == s.profiles && |s'.rooms| == |s.rooms|
  {
  }

  lemma OthersKeepViable(s: State, e: Event)
    requires Valid(s) && AllViable(s) && !e.request.ToMarkPaid? && !e.request.ToSaveProfile?
    ensures AllViable(Step(s, e))
  {
    hide Valid, Grows, Step, Met;
    var s' := Step(s, e);
    StepKeeps(s, e);
    OthersAreQuiet(s, e);
    forall room | 0 <= room < |s'.rooms| ensures StillViable(s', room) {
      assert RoomStays(s.rooms, e.request, room, s'.rooms[room]);
      if Rank(s'.rooms[room].status) >= Rank(Viable) {
        assert StillViable(s, room);
        OldViable(s, s', room);
      }
    }
  }

  // ---- Profile updates ------------------------------------------------------------------------------

  predicate Participates(s: State, room: RoomId, user: UserId) {
    exists k :: 0 <= k < |s.apps| && s.apps[k].room == room && s.apps[k].user == user && s.apps[k].status
        == AppConfirmed
  }

  /** The profile takes a confirmed participant of the room out of `gender`. */
  predicate Leaves(s: State, user: UserId, profile: Profile, room: RoomId, gender: Gender) {
    && Participates(s, room, user) && user in s.profiles
    && s.profiles[user].gender == gender && profile.gender != gender
  }

  /** The profile brings a confirmed participant of the room into `gender`. */
  predicate Joins(s: State, user: UserId, profile: Profile, room: RoomId, gender: Gender) {
    && Participates(s, room, user) && user in s.profiles
    && s.profiles[user].gender != gender && profile.gender == gender
  }

  lemma {:induction false} CountDiffersAt<T>(s: seq<T>, k: nat, f: T -> bool, g: T -> bool)
    requires k < |s| && forall i :: 0 <= i < |s| && i != k ==> (f(s[i]) <==> g(s[i]))
    ensures CountIf(s, g) + (if f(s[k]) then 1 else 0) == CountIf(s, f) + if g(s[k]) then 1 else 0
  {
    var n := |s| - 1;
    if k == n {
      CountSame(s[..n], s[..n], f, g);
    } else {
      CountDiffersAt(s[..n], k, f, g);
    }
  }

  lemma ProfileShiftsCount(s: State, user: UserId, profile: Profile, room: RoomId, gender: Gender)
    requires AppsOk(s.rooms, s.profiles.Keys, s.apps) && user in s.users
    ensures ConfirmedCount(SaveProfile(s, user, profile).0, room, gender)
         == ConfirmedCount(s, room, gender) + (if Joins(s, user, profile, room, gender) then 1 else 0)
                                            - (if Leaves(s, user, profile, room, gender) then 1 else 0)
  {
    var s' := SaveProfile(s, user, profile).0;
    var f, g := ConfirmedOf(s.profiles, room, gender), ConfirmedOf(s'.profiles, room, gender);
    if k :| 0 <= k < |s.apps| && s.apps[k].room == room && s.apps[k].user == user && s.apps[k].status == AppConfirmed {
      assert AppOk(s.rooms, s.profiles.Keys, s.apps[k]);
      CountDiffersAt(s.apps, k, f, g);
    } else {
      CountSame(s.apps, s.apps, f, g);
    }
  }

  /** The gender has just as many confirmed participants as viability asks for. */
  predicate NoneToSpare(s: State, room: RoomId, gender: Gender)
    requires room < |s.rooms| && gender != Other
  {
    ConfirmedCount(s, room, gender) == Threshold(CapacityOf(s.rooms[room], gender))
  }

  /** The profile to be saved takes a confirmed participant of a viable room out of a gender with none to spare. */
  predicate Undercuts(s: State, r: Request) {
    && r.ToSaveProfile?
    && exists room :: 0 <= room < |s.rooms| && Rank(s.rooms[room].status) >= Rank(Viable)
        && (|| (Leaves(s, r.user, r.profile, room, Male) && NoneToSpare(s, room, Male))
            || (Leaves(s, r.user, r.profile, room, Female) && NoneToSpare(s, room, Female)))
  }

  /** Saving a profile leaves a room viable unless it undercuts it. */
  lemma RoomKeepsViableIff(s: State, user: UserId, profile: Profile, room: RoomId)
    requires Valid(s) && room < |s.rooms| && StillViable(s, room) && user in s.users
    ensures var s' := SaveProfile(s, user, profile).0;
      StillViable(s', room) <==> (Rank(s.rooms[room].status) >= Rank(Viable) ==>
        && !(Leaves(s, user, profile, room, Male) && NoneToSpare(s, room, Male))
        && !(Leaves(s, user, profile, room, Female) && NoneToSpare(s, room, Female)))
  {
    hide RoomsOk, SessionsOk, CheckInsOk, SeatsOk, BonusesOk, ReferralsOk, CreditsOk, EmittedOk, AppsOk,
         ConfirmedCount, Threshold, Participates;
    ProfileShiftsCount(s, user, profile, room, Male);
    ProfileShiftsCount(s, user, profile, room, Female);
  }

  lemma ProfileKeepsViableIff(s: State, user: UserId, profile: Profile)
    requires Valid(s) && AllViable(s)
    ensures AllViable(SaveProfile(s, user, profile).0) <==> !Undercuts(s, ToSaveProfile(user, profile))
  {
    hide RoomsOk, SessionsOk, CheckInsOk, SeatsOk, BonusesOk, ReferralsOk, CreditsOk, EmittedOk, AppsOk,
         StillViable, NoneToSpare, Participates;
    var s' := SaveProfile(s, user, profile).0;
    if user in s.users {
      forall room | 0 <= room < |s.rooms|
        ensures StillViable(s', room) <==> (Rank(s.rooms[room].status) >= Rank(Viable) ==>
          && !(Leaves(s, user, profile, room, Male) && NoneToSpare(s, room, Male))
          && !(Leaves(s, user, profile, room, Female) && NoneToSpare(s, room, Female)))
      {
        assert StillViable(s, room);
        RoomKeepsViableIff(s, user, profile, room);
      }
    }
  }

  // ---- Runs -----------------------------------------------------------------------------------------

  /** Over every run: rooms at VIABLE or beyond keep half of each capacity confirmed at every moment, if and
      only if no confirmed participant leaves a gender that has none to spare. */
  lemma {:induction false} ViableThroughoutIff(run: seq<Event>)
    ensures Always(run, AllViable) <==> Never(run, Undercuts)
  {
    hide Valid, AllViable, Undercuts, Step;
    NothingToMeet();
    forall s, e | Valid(s) && AllViable(s) ensures AllViable(Step(s, e)) <==> !Undercuts(s, e.request) {
      StepKeepsViableIff(s, e);
    }
    AlwaysIffNever(run, AllViable, Undercuts);
  }

  lemma NothingToMeet()
    ensures AllViable(EMPTY)
  {
  }

  lemma StepKeepsViableIff(s: State, e: Event)
    requires Valid(s) && AllViable(s)
    ensures AllViable(Step(s, e)) <==> !Undercuts(s, e.request)
  {
    hide Valid, AllViable;
    match e.request
    case ToSaveProfile(user, profile) => ProfileKeepsViableIff(s, user, profile);
    case ToMarkPaid(user, app) => PaymentKeepsViable(s, user, app, e.now);
    case _ => OthersKeepViable(s, e);
  }

  predicate FixesGender(r: Request, gender: map<UserId, Gender>) {
    r.ToSaveProfile? ==> r.user in gender && gender[r.user] == r.profile.gender
  }

  predicate FollowsGender(profiles: map<UserId, Profile>, gender: map<UserId, Gender>) {
    forall u :: u in profiles ==> u in gender && profiles[u].gender == gender[u]
  }

  lemma StepFollowsGender(s: State, e: Event, gender: map<UserId, Gender>)
    requires Valid(s) && FollowsGender(s.profiles, gender) && FixesGender(e.request, gender)
    ensures FollowsGender(Step(s, e).profiles, gender)
  {
    hide Valid, MarkPaid;
    if e.request.ToMarkPaid? {
      PaymentShape(s, e.request.user, e.request.app, e.now);
    } else if !e.request.ToSaveProfile? {
      OthersAreQuiet(s, e);
    }
  }

  /** In particular, when everyone's gender is fixed, viable rooms keep half of each capacity confirmed forever. */
  lemma {:induction false} ViableWhenGendersAreFixed(run: seq<Event>, gender: map<UserId, Gender>)
    requires forall e :: e in run ==> FixesGender(e.request, gender)
    ensures AllViable(Run(run)) && FollowsGender(Run(run).profiles, gender)
  {
    hide Valid, AllViable, Step;
    if |run| == 0 {
      NothingToMeet();
    } else {
      var before, e := Run(run[..|run| - 1]), run[|run| - 1];
      ReachableIsValid(run[..|run| - 1]);
      ViableWhenGendersAreFixed(run[..|run| - 1], gender);
      assert e in run;
      StepKeepsViableIff(before, e);
      NoUndercut(before, e.request, gender);
      StepFollowsGender(before, e, gender);
    }
  }

  lemma NoUndercut(s: State, r: Request, gender: map<UserId, Gender>)
    requires FollowsGender(s.profiles, gender) && FixesGender(r, gender)
    ensures !Undercuts(s, r)
  {
  }
}
