/** Concrete runs from empty tables in which a property that one might expect fails: the exact conditions under
    which the properties hold are violated by requests that the code accepts. */
module Counterexamples {
  import opened Types
  import opened CreditService
  import opened Lifecycle
  import opened LifecycleRuns
  import opened ViabilityRuns
  import opened CapacityRuns
  import opened RosterRuns
  import opened RotationRuns
  import Rotation

  const HOST: UserId := 0
  const ADAM: UserId := 1
  const EVE: UserId := 2
  const ABEL: UserId := 3
  const PLANNER: PlannerId := 9
  const START: Time := 7 * DAY

  // ---- One more request, at time 0 -------------------------------------------------------------------

  lemma Served(run: seq<Event>, r: Request) returns (run': seq<Event>)
    ensures run' == run + [At(r, 0)] && Run(run') == Serve(Run(run), r, 0).0
  {
    run' := run + [At(r, 0)];
    assert run'[..|run|] == run;
  }

  // ---- The story, state by state ----------------------------------------------------------------------

  /** A host and three applicants: two men and a woman. */
  function People(): State {
    var user := User(true, None, false);
    EMPTY.(users := map[HOST := user, ADAM := user, EVE := user, ABEL := user],
           profiles := map[ADAM := Profile(Male, true), EVE := Profile(Female, true), ABEL := Profile(Male, true)])
  }

  lemma PeopleRegister() returns (run: seq<Event>)
    ensures Run(run) == People()
  {
    run := [];
    assert Run(run) == EMPTY;
    hide Run;
    run := Served(run, ToRegister(HOST, None));
    run := Served(run, ToRegister(ADAM, None));
    run := Served(run, ToRegister(EVE, None));
    run := Served(run, ToRegister(ABEL, None));
    assert Run(run).users == People().users;
    run := Served(run, ToSaveProfile(ADAM, Profile(Male, true)));
    run := Served(run, ToSaveProfile(EVE, Profile(Female, true)));
    run := Served(run, ToSaveProfile(ABEL, Profile(Male, true)));
    assert Run(run).profiles == People().profiles;
  }

  /** The room has one seat for women and one or two for men: either way a man and a woman make it viable. */
  type Seats = c: Capacity | c <= 2 witness 1

  function TheRoom(seats: Seats, status: RoomStatus): Room {
    Room(HOST, None, status, START, START + HOUR, seats, 1, None, None)
  }

  lemma RoomOpens(seats: Seats) returns (run: seq<Event>)
    ensures Run(run) == People().(rooms := [TheRoom(seats, Published)])
  {
    hide Run;
    run := PeopleRegister();
    run := Served(run, ToCreateRoom(HOST, RoomBody(START, START + HOUR, seats, 1, None)));
    assert Run(run).rooms == [TheRoom(seats, Draft)];
    run := Served(run, ToPublishRoom(HOST, 0));
  }

  function App(user: UserId, status: AppStatus): Application {
    Application(0, user, status, None, None, if status == Submitted then None else Some(0), None, None)
  }

  function Applied(adam: AppStatus, eve: AppStatus, abel: AppStatus): seq<Application> {
    [App(ADAM, adam), App(EVE, eve), App(ABEL, abel)]
  }

  lemma EveryoneApplies(seats: Seats) returns (run: seq<Event>)
    ensures Run(run) == People().(rooms := [TheRoom(seats, Published)],
                                  apps := Applied(Submitted, Submitted, Submitted))
  {
    hide Run, FindApp;
    run := RoomOpens(seats);
    run := Served(run, ToApply(ADAM, 0, None));
    assert Run(run).apps == [App(ADAM, Submitted)];
    run := Served(run, ToApply(EVE, 0, None));
    assert Run(run).apps == [App(ADAM, Submitted), App(EVE, Submitted)];
    run := Served(run, ToApply(ABEL, 0, None));
  }

  lemma EveryoneIsApproved(seats: Seats) returns (run: seq<Event>)
    ensures Run(run) == People().(rooms := [TheRoom(seats, Published)], apps := Applied(Approved, Approved, Approved))
  {
    hide Run;
    run := EveryoneApplies(seats);
    run := Served(run, ToApprove(HOST, 0, None));
    assert Run(run).apps == Applied(Approved, Submitted, Submitted);
    run := Served(run, ToApprove(HOST, 1, None));
    assert Run(run).apps == Applied(Approved, Approved, Submitted);
    run := Served(run, ToApprove(HOST, 2, None));
  }

  lemma CountThree<T>(a: T, b: T, c: T, f: T -> bool)
    ensures CountIf([a, b, c], f) == (if f(a) then 1 else 0) + (if f(b) then 1 else 0) + (if f(c) then 1 else 0)
  {
    CountAppend([], a, f);
    CountAppend([a], b, f);
    CountAppend([a, b], c, f);
    assert [] + [a] == [a] && [a] + [b] == [a, b] && [a, b] + [c] == [a, b, c];
  }

  lemma Confirmed(s: State, gender: Gender)
    requires |s.apps| == 3
    ensures var f := ConfirmedOf(s.profiles, 0, gender);
      ConfirmedCount(s, 0, gender)
      == (if f(s.apps[0]) then 1 else 0) + (if f(s.apps[1]) then 1 else 0) + (if f(s.apps[2]) then 1 else 0)
  {
    assert s.apps == [s.apps[0], s.apps[1], s.apps[2]];
    CountThree(s.apps[0], s.apps[1], s.apps[2], ConfirmedOf(s.profiles, 0, gender));
  }

  /** Adam has paid, which is not enough for the room to become viable. */
  lemma AdamPays(seats: Seats) returns (run: seq<Event>)
    ensures Run(run) == People().(rooms := [TheRoom(seats, Published)],
                                  apps := Applied(AppConfirmed, Approved, Approved))
  {
    hide Run, CountIf, Threshold, IssueBonus, IssuePair;
    run := EveryoneIsApproved(seats);
    var s := Run(run).(apps := Applied(AppConfirmed, Approved, Approved));
    assert s.apps == Run(run).apps[0 := Run(run).apps[0].(status := AppConfirmed)];
    ThresholdIsHalf(1);
    ThresholdIsHalf(seats);
    Confirmed(s, Female);
    run := Served(run, ToMarkPaid(HOST, 0));
  }

  /** Adam and Eve have paid: the room is viable. */
  function Couple(room: Room): State {
    People().(rooms := [room], apps := Applied(AppConfirmed, AppConfirmed, Approved),
              credits := [HostBonus(HOST, 0, 0)])
  }

  lemma EvePays(seats: Seats) returns (run: seq<Event>)
    ensures Run(run) == Couple(TheRoom(seats, Viable).(viableAt := Some(0)))
  {
    hide Run, CountIf, Threshold, IssuePair;
    run := AdamPays(seats);
    var s := Run(run).(apps := Applied(AppConfirmed, AppConfirmed, Approved));
    assert s.apps == Run(run).apps[1 := Run(run).apps[1].(status := AppConfirmed)];
    ThresholdIsHalf(1);
    ThresholdIsHalf(seats);
    Confirmed(s, Male);
    Confirmed(s, Female);
    CountPositive(s.credits, IsBonus(HOST, 0));
    run := Served(run, ToMarkPaid(HOST, 1));
  }

  /** Adam saves another gender, and the viable room has nobody left where it needs one. */
  lemma {:induction false} ViabilityIsLost() returns (run: seq<Event>)
    ensures !AllViable(Run(run))
  {
    hide Run, CountIf, Threshold;
    run := EvePays(1);
    run := Served(run, ToSaveProfile(ADAM, Profile(Female, true)));
    Confirmed(Run(run), Male);
    ThresholdIsHalf(1);
    assert !StillViable(Run(run), 0);
  }

  /** A host moves the deadline of a new room behind its start. */
  lemma {:induction false} DeadlineAfterStart() returns (run: seq<Event>)
    ensures !AllDated(Run(run))
  {
    hide Run;
    run := RoomOpens(1);
    run := Served(run, ToUpdateRoom(HOST, 0, RoomPatch(Unset, Unset, Unset, Unset, Set(START + DAY))));
    assert !Dated(Run(run).rooms[0]);
  }

  function Planned(seats: Seats, status: RoomStatus): Room {
    TheRoom(seats, status).(viableAt := Some(0), planner := Some(PLANNER))
  }

  function Ready(seats: Seats, status: RoomStatus): State {
    Couple(Planned(seats, status)).(planners := map[PLANNER := true])
  }

  lemma PlannerIsAssigned(seats: Seats) returns (run: seq<Event>)
    ensures Run(run) == Ready(seats, Assigned)
  {
    hide Run, CountIf;
    run := EvePays(seats);
    run := Served(run, ToSetPlanner(PLANNER, true));
    run := Served(run, ToAssignPlanner(0, PLANNER));
    assert Run(run).rooms == [Planned(seats, Assigned)];
  }

  lemma PlannerConfirms(seats: Seats) returns (run: seq<Event>)
    ensures Run(run) == Ready(seats, RoomStatus.Confirmed)
  {
    hide Run, CountIf;
    run := PlannerIsAssigned(seats);
    Confirmed(Run(run), Male);
    Confirmed(Run(run), Female);
    run := Served(run, ToConfirmRoom(PLANNER, 0));
  }

  /** Abel pays after the room has been confirmed. */
  lemma AbelPays(seats: Seats) returns (run: seq<Event>, all: seq<Event>)
    ensures Run(run) == Ready(seats, RoomStatus.Confirmed) && all == run + [At(ToMarkPaid(HOST, 2), 0)]
    ensures Run(all) == Run(run).(apps := Applied(AppConfirmed, AppConfirmed, AppConfirmed))
  {
    hide Run, CountIf, Threshold, IssueBonus, IssuePair;
    run := PlannerConfirms(seats);
    assert Run(run).apps[2 := Run(run).apps[2].(status := AppConfirmed)]
        == Applied(AppConfirmed, AppConfirmed, AppConfirmed);
    all := Served(run, ToMarkPaid(HOST, 2));
  }

  /** With one seat for men, two are confirmed for it. */
  lemma {:induction false} PaymentOverfills() returns (run: seq<Event>)
    ensures !AllFit(Run(run))
  {
    hide Run, CountIf;
    var before;
    before, run := AbelPays(1);
    Confirmed(Run(run), Male);
    assert !Fits(Run(run), 0, Male);
  }

  /** With two, Abel's payment fits, and the roster of the confirmed room still grows. */
  lemma {:induction false} RosterGrows() returns (run: seq<Event>, more: seq<Event>)
    ensures var s, s' := Run(run), Run(run + more);
      && |s.rooms| == 1 && s.rooms[0].status == RoomStatus.Confirmed && s'.rooms == s.rooms
      && Roster(s, 0) == {0, 1} && Roster(s', 0) == {0, 1, 2}
      && ConfirmedCount(s', 0, Male) == s'.rooms[0].maleCap
  {
    hide Run, CountIf;
    var all;
    run, all := AbelPays(2);
    more := [At(ToMarkPaid(HOST, 2), 0)];
    Confirmed(Run(all), Male);
  }

  /** Adam saves another gender after the room has been confirmed: two women are confirmed for one seat. */
  lemma {:induction false} ProfileOverfills() returns (run: seq<Event>)
    ensures !AllFit(Run(run))
  {
    hide Run, CountIf;
    run := PlannerConfirms(1);
    run := Served(run, ToSaveProfile(ADAM, Profile(Female, true)));
    Confirmed(Run(run), Female);
    assert !Fits(Run(run), 0, Female);
  }

  function Row(user: UserId, app: nat, code: string, status: CheckInStatus): CheckIn {
    CheckIn(0, user, app, status, if status == CheckedIn then Some(0) else None, Some(code))
  }

  /** The codes drawn for the two participants. */
  function Draw(user: UserId): string {
    if user == ADAM then "A" else "E"
  }

  lemma RowsOpen(apps: seq<Application>)
    requires apps == Applied(AppConfirmed, AppConfirmed, Approved)
    ensures OpenedUpTo([], apps, 0, Draw, 3) == [Row(ADAM, 0, "A", Open), Row(EVE, 1, "E", Open)]
  {
    assert OpenedUpTo([], apps, 0, Draw, 0) == [];
    assert OpenedUpTo([], apps, 0, Draw, 1) == [Row(ADAM, 0, "A", Open)];
    assert OpenedUpTo([], apps, 0, Draw, 2) == [Row(ADAM, 0, "A", Open), Row(EVE, 1, "E", Open)];
  }

  lemma DoorsOpen(seats: Seats) returns (run: seq<Event>)
    ensures Run(run) == Ready(seats, RoomStatus.Confirmed).(
      checkins := [Row(ADAM, 0, "A", Open), Row(EVE, 1, "E", Open)])
  {
    hide Run, CountIf, OpenedUpTo;
    run := PlannerConfirms(seats);
    CountPositive(Run(run).apps, ConfirmedIn(0));
    assert ConfirmedIn(0)(Run(run).apps[0]);
    RowsOpen(Run(run).apps);
    run := Served(run, ToOpenCheckIn(PLANNER, 0, Draw));
  }

  lemma CoupleChecksIn(seats: Seats) returns (run: seq<Event>)
    ensures Run(run) == Ready(seats, RoomStatus.Confirmed).(
      checkins := [Row(ADAM, 0, "A", CheckedIn), Row(EVE, 1, "E", CheckedIn)])
  {
    hide Run, CountIf;
    run := DoorsOpen(seats);
    run := Served(run, ToConfirmCheckIn(PLANNER, 0));
    assert Run(run).checkins == [Row(ADAM, 0, "A", CheckedIn), Row(EVE, 1, "E", Open)];
    run := Served(run, ToConfirmCheckIn(PLANNER, 1));
    assert Run(run).checkins == [Row(ADAM, 0, "A", CheckedIn), Row(EVE, 1, "E", CheckedIn)];
  }

  lemma SortedOne(u: UserId)
    ensures Sorted([u]) == [u]
  {
    assert [u][1..] == [];
  }

  lemma GroupsOfTwo(s: State)
    requires s.checkins == [Row(ADAM, 0, "A", CheckedIn), Row(EVE, 1, "E", CheckedIn)]
    requires s.profiles == People().profiles
    ensures Group(s, 0, Male) == [ADAM] && Group(s, 0, Female) == [EVE]
  {
    var rows := s.checkins;
    assert rows[..1] == [rows[0]] && rows[..1][..0] == [];
    assert Attendees(rows[..1], s.profiles, 0, Male) == [ADAM] && Attendees(rows[..1], s.profiles, 0, Female) == [];
    assert Attendees(rows, s.profiles, 0, Male) == [ADAM] && Attendees(rows, s.profiles, 0, Female) == [EVE];
    SortedOne(ADAM);
    SortedOne(EVE);
  }

  /** A session is started with rounds of minus one minute: its first round ends a minute before it starts. */
  lemma {:induction false} RoundRunsBackwards() returns (run: seq<Event>)
    ensures var s := Run(run);
      && 0 in s.sessions && !RanForwards(s.sessions[0]) && |s.sessions[0].rounds| == 1
      && s.sessions[0].rounds[0].endsAt == Some(s.sessions[0].rounds[0].startsAt - MINUTE)
  {
    hide Run, Group;
    run := CoupleChecksIn(1);
    GroupsOfTwo(Run(run));
    run := Served(run, ToStartSession(PLANNER, 0, -1));
    assert Run(run).sessions[0] == Rotation.Started([ADAM], [EVE], 0, -1);
    var first := Run(run).sessions[0].rounds[0];
    assert first == Rotation.RoundAt([ADAM], [EVE], 0, 0, -1);
  }
}
