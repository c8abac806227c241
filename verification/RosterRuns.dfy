/** Who is confirmed for a room: the roster never shrinks, and only a payment makes it grow, in any room status. */
module RosterRuns {
  import opened Types
  import opened CreditService
  import opened Lifecycle
  import opened LifecycleInvariants
  import opened LifecycleSteps
  import opened LifecycleRuns
  import opened ViabilityRuns

  /** The CONFIRMED applications to a room. */
  function Roster(s: State, room: RoomId): set<nat> {
    set k: nat | k < |s.apps| && s.apps[k].room == room && s.apps[k].status == AppConfirmed
  }

  /** The host marks an approved application to the room as paid. */
  function PaysInto(room: RoomId): (State, Request) -> bool {
    (s: State, r: Request) =>
      r.ToMarkPaid? && CuratorRefusal(s, r.user, r.app).None? && s.apps[r.app].status == Approved
      && s.apps[r.app].room == room
  }

  lemma PaymentRoster(s: State, user: UserId, app: nat, now: Time, room: RoomId)
    requires Valid(s)
    ensures Roster(MarkPaid(s, user, app, now).0, room)
         == Roster(s, room) + if PaysInto(room)(s, ToMarkPaid(user, app)) then {app} else {}
  {
    hide Valid, ConfirmedCount, Threshold, IssueBonus, IssuePair;
    if MarkPaid(s, user, app, now).1.None? {
      ApprovedToPay(s, app);
    }
  }

  lemma QuietRoster(s: State, s': State, room: RoomId)
    requires AppsGrow(s.apps, s'.apps) && ConfirmsNobody(s.apps, s'.apps)
    ensures Roster(s', room) == Roster(s, room)
  {
  }

  /** Every request keeps the roster, and only an accepted payment for the room adds to it. */
  lemma RosterStep(s: State, e: Event, room: RoomId)
    requires Valid(s)
    ensures Roster(s, room) <= Roster(Step(s, e), room)
    ensures Roster(Step(s, e), room) == Roster(s, room) <==> !PaysInto(room)(s, e.request)
  {
    hide Valid, Roster, AppsGrow, ConfirmsNobody, RoomsGrow, UsersGrow, CheckInsGrow, SessionsGrow, CreditsGrow;
    match e.request
    case ToMarkPaid(user, app) =>
      PaymentRoster(s, user, app, e.now, room);
      NotYetConfirmed(s, user, app, room);
    case ToSaveProfile(user, profile) => SameRoster(s, Step(s, e), room);
    case _ =>
      StepKeeps(s, e);
      OthersAreQuiet(s, e);
      QuietRoster(s, Step(s, e), room);
  }

  lemma NotYetConfirmed(s: State, user: UserId, app: nat, room: RoomId)
    ensures PaysInto(room)(s, ToMarkPaid(user, app)) ==> app !in Roster(s, room)
  {
  }

  lemma SameRoster(s: State, s': State, room: RoomId)
    requires s'.apps == s.apps
    ensures Roster(s', room) == Roster(s, room)
  {
  }

  /** Whatever follows a run, the roster of a room keeps everyone on it, and it stays exactly as it is if and only if
      no payment for the room is accepted. */
  lemma {:induction false} RosterLocksIff(run: seq<Event>, more: seq<Event>, room: RoomId)
    ensures Roster(Run(run), room) <= Roster(Run(run + more), room)
    ensures Roster(Run(run + more), room) == Roster(Run(run), room) <==> NeverAfter(run, more, PaysInto(room))
  {
    hide Valid, Roster, Run, Step, PaysInto;
    if |more| == 0 {
      assert run + more == run;
    } else {
      var n := |more| - 1;
      RosterLocksIff(run, more[..n], room);
      ReachableIsValid(run + more[..n]);
      RunNext(run, more);
      RosterStep(Run(run + more[..n]), more[n], room);
    }
  }

  /** In particular after a planner has confirmed the room: the roster is locked exactly as long as nobody pays. */
  lemma {:induction false} ConfirmationLocksIff(run: seq<Event>, planner: PlannerId, room: RoomId, now: Time,
      more: seq<Event>)
    requires ConfirmRoom(Run(run), planner, room).1 == None
    ensures var confirmed := run + [At(ToConfirmRoom(planner, room), now)];
      && room < |Run(confirmed).rooms| && Run(confirmed).rooms[room].status == Confirmed
      && Roster(Run(run), room) <= Roster(Run(confirmed + more), room)
      && (Roster(Run(confirmed + more), room) == Roster(Run(run), room) <==>
            NeverAfter(confirmed, more, PaysInto(room)))
  {
    hide Roster, Run, PaysInto, ConfirmedCount;
    var e := At(ToConfirmRoom(planner, room), now);
    RunNext(run, [e]);
    assert [e][..0] == [] && run + [] == run;
    ServeConfirmation(Run(run), planner, room, now);
    SameRoster(Run(run), Run(run + [e]), room);
    RosterLocksIff(run + [e], more, room);
  }

  lemma ServeConfirmation(s: State, planner: PlannerId, room: RoomId, now: Time)
    ensures Step(s, At(ToConfirmRoom(planner, room), now)) == ConfirmRoom(s, planner, room).0
  {
    hide ConfirmRoom;
  }
}
