/** Sessions across whole runs: how often they advance, when rounds are played, and who meets whom. */
module RotationRuns {
  import opened Types
  import opened Lifecycle
  import opened RotationTheorems
  import opened LifecycleInvariants
  import opened LifecycleSteps
  import opened LifecycleRuns
  import Rotation

  // ---- What one request does to one session ------------------------------------------------------

  /** A session is created by a start, moved by a next round, closed by an end, and otherwise left alone. */
  predicate SessionStep(s: State, e: Event, room: RoomId) {
    var (s', error) := Serve(s, e.request, e.now);
    if room in s.sessions then
      && room in s'.sessions
      && (match e.request
          case ToNextRound(_, r) =>
            if r == room && error == None then s'.sessions[room] == Rotation.Advance(s.sessions[room], e.now).0
              && Rotation.Advance(s.sessions[room], e.now).1 == None
            else s'.sessions[room] == s.sessions[room]
          case ToEndSession(_, r) =>
            if r == room && error == None then s'.sessions[room] == Rotation.Finish(s.sessions[room], e.now).0
            else s'.sessions[room] == s.sessions[room]
          case _ => s'.sessions[room] == s.sessions[room])
    else
      && (e.request.ToNextRound? && e.request.room == room ==> error.Some?)
      && (room in s'.sessions ==>
            && e.request.ToStartSession? && e.request.room == room && error == None
            && |Group(s, room, Male)| == |Group(s, room, Female)|
            && s'.sessions[room] == Rotation.Started(Group(s, room, Male), Group(s, room, Female), e.now,
                e.request.minutes))
  }

  lemma EventStepsSession(s: State, e: Event, room: RoomId)
    requires e.request.ToStartSession? || e.request.ToNextRound? || e.request.ToEndSession?
    ensures SessionStep(s, e, room)
  {
    hide Group, Rotation.Started, Rotation.Advance, Rotation.Finish, PlannerRefusal;
  }

  lemma PaymentLeavesSessions(s: State, user: UserId, app: nat, now: Time)
    ensures MarkPaid(s, user, app, now).0.sessions == s.sessions
  {
  }

  lemma OtherLeavesSessions(s: State, e: Event)
    requires !(e.request.ToStartSession? || e.request.ToNextRound? || e.request.ToEndSession?)
    ensures Step(s, e).sessions == s.sessions
  {
    hide MarkPaid, StartSession, NextRound, EndSession, FindApp, ConfirmedCount, CountIf, OpenedUpTo, UniqueRows;
    if e.request.ToMarkPaid? {
      PaymentLeavesSessions(s, e.request.user, e.request.app, e.now);
    }
  }

  lemma StepsSession(s: State, e: Event, room: RoomId)
    ensures SessionStep(s, e, room)
  {
    hide Rotation.Started, Rotation.Advance, Rotation.Finish, Group;
    if e.request.ToStartSession? || e.request.ToNextRound? || e.request.ToEndSession? {
      EventStepsSession(s, e, room);
    } else {
      OtherLeavesSessions(s, e);
    }
  }

  // ---- Counting advances ---------------------------------------------------------------------------

  /** The successful `next_round` requests on a room. */
  function Advances(run: seq<Event>, room: RoomId): nat {
    if |run| == 0 then 0
    else
      var before, e := run[..|run| - 1], run[|run| - 1];
      Advances(before, room)
      + if e.request.ToNextRound? && e.request.room == room && Serve(Run(before), e.request, e.now).1
          == None then 1 else 0
  }

  lemma SessionAt(s: State, room: RoomId)
    requires Valid(s) && room in s.sessions
    ensures Sound(s.sessions[room]) && 1 <= s.sessions[room].current <= |s.sessions[room].rounds|
  {
  }

  /** The current round is one more than the number of advances, so there are at most n - 1 of them. */
  lemma {:induction false} CurrentCountsAdvances(run: seq<Event>, room: RoomId)
    ensures var sessions := Run(run).sessions;
      if room in sessions then
        sessions[room].current == 1 + Advances(run, room) && Advances(run, room) <= |sessions[room].rounds| - 1
      else Advances(run, room) == 0
  {
    hide Valid, Serve, Sound, Group, Rotation.Started;
    if |run| > 0 {
      var before, e := run[..|run| - 1], run[|run| - 1];
      CurrentCountsAdvances(before, room);
      StepsSession(Run(before), e, room);
      if room in Run(run).sessions {
        ReachableIsValid(run);
        SessionAt(Run(run), room);
        if room !in Run(before).sessions {
          StartsAtOne(Group(Run(before), room, Male), Group(Run(before), room, Female), e.now, e.request.minutes);
        }
      }
    }
  }

  lemma StartsAtOne(males: seq<UserId>, females: seq<UserId>, now: Time, minutes: int)
    requires |males| == |females|
    ensures Rotation.Started(males, females, now, minutes).current == 1
  {
  }

  /** Exactly n - 1 advances can succeed: while the room is in progress its planner's request succeeds if and
      only if fewer have, and is told so otherwise. */
  lemma {:induction false} AdvanceSucceedsIff(run: seq<Event>, planner: PlannerId, room: RoomId, now: Time)
    requires var s := Run(run); PlannerRefusal(s, planner, room) == None && s.rooms[room].status == InProgress
    ensures var s := Run(run);
      && room in s.sessions
      && NextRound(s, planner, room, now).1
         == (if Advances(run, room) < |s.sessions[room].rounds| - 1 then None else Some(LastRound))
  {
    hide Run, Advances, Sound;
    var s := Run(run);
    ReachableIsValid(run);
    SessionFollowsRoom(run, room);
    CurrentCountsAdvances(run, room);
  }

  // ---- Timing ----------------------------------------------------------------------------------------

  /** The time of the last event never decreases. */
  predicate Nondecreasing(run: seq<Event>) {
    |run| > 1 ==> Nondecreasing(run[..|run| - 1]) && run[|run| - 2].now <= run[|run| - 1].now
  }

  /** Under a nondecreasing clock every round left behind ran forwards and ended before the next began; the
      current one is scheduled for the configured duration. */
  lemma {:induction false} RoundsAreTimely(run: seq<Event>, room: RoomId)
    requires Nondecreasing(run) && room in Run(run).sessions
    ensures |run| > 0 && Timely(Run(run).sessions[room], run[|run| - 1].now)
  {
    hide Valid, Serve, Sound, Group, Timely, Rotation.Started, Rotation.Advance, Rotation.Finish;
    var n := |run| - 1;
    var before, e := Run(run[..n]), run[n];
    ReachableIsValid(run[..n]);
    ReachableIsValid(run);
    StepsSession(before, e, room);
    if room in before.sessions {
      RoundsAreTimely(run[..n], room);
      SessionAt(before, room);
      var session, clock := before.sessions[room], run[n - 1].now;
      AdvanceIsTimely(session, clock, e.now);
      FinishIsTimely(session, clock, e.now);
      TimelyLater(session, clock, e.now);
    } else {
      var males, females := Group(before, room, Male), Group(before, room, Female);
      SessionAt(Run(run), room);
      StartedRounds(males, females, e.now, e.request.minutes);
      StartedIsTimely(males, females, e.now, e.request.minutes);
    }
  }

  lemma StartedRounds(males: seq<UserId>, females: seq<UserId>, now: Time, minutes: int)
    requires |males| == |females|
    ensures |Rotation.Started(males, females, now, minutes).rounds| == |males|
  {
  }

  lemma TimelyLater(session: Rotation.Session, clock: Time, now: Time)
    requires Timely(session, clock) && clock <= now
    ensures Timely(session, now)
  {
  }

  /** Every round played so far has an end that is not before its start. */
  predicate RanForwards(session: Rotation.Session) {
    && 1 <= session.current <= |session.rounds|
    && forall k :: 0 <= k < session.current ==>
         session.rounds[k].endsAt.Some? && session.rounds[k].startsAt <= session.rounds[k].endsAt.value
  }

  /** The last played round keeps its scheduled end, also when the session is ended. */
  lemma {:induction false} StoredDurationDecides(run: seq<Event>, room: RoomId)
    requires Nondecreasing(run) && room in Run(run).sessions
    ensures RanForwards(Run(run).sessions[room]) <==> Run(run).sessions[room].minutes >= 0
  {
    hide Run, Nondecreasing;
    RoundsAreTimely(run, room);
    var session := Run(run).sessions[room];
    var last := session.current - 1;
    forall k | 0 <= k < session.current
      ensures session.rounds[k].endsAt.Some?
      ensures k < last ==> session.rounds[k].startsAt <= session.rounds[k].endsAt.value
    {
      assert k < last ==> RanBefore(session.rounds[k], session.rounds[k + 1]);
    }
    assert session.rounds[last].endsAt == Some(session.rounds[last].startsAt + session.minutes * MINUTE);
    if session.minutes < 0 {
      assert session.rounds[last].startsAt > session.rounds[last].endsAt.value;
    }
  }

  /** Whatever happens after a start, the rounds that were played all ran forwards if and only if the duration it
      asked for is not negative, which the request does not check. */
  lemma {:induction false} PlayedRoundsRunForwardsIff(run: seq<Event>, planner: PlannerId, room: RoomId, minutes: int,
      now: Time, more: seq<Event>)
    requires Nondecreasing(run + [At(ToStartSession(planner, room, minutes), now)] + more)
    requires StartSession(Run(run), planner, room, minutes, now).1 == None
    ensures var s := Run(run + [At(ToStartSession(planner, room, minutes), now)] + more);
      && room in s.sessions && s.sessions[room].minutes == minutes && s.sessions[room].startedAt == now
      && (RanForwards(s.sessions[room]) <==> minutes >= 0)
  {
    hide Valid, Males, Females, RanForwards, Nondecreasing, Serve;
    var s, start := Run(run), run + [At(ToStartSession(planner, room, minutes), now)];
    ReachableIsValid(run);
    assert start[..|run|] == run;
    ServeStart(s, planner, room, minutes, now);
    StartedGroups(s, planner, room, minutes, now);
    RunsOnlyMoveForward(start, more);
    assert SessionLater(Run(start).sessions[room], Run(start + more).sessions[room]);
    StoredDurationDecides(start + more, room);
  }

  // ---- Who meets whom ----------------------------------------------------------------------------------

  predicate RoundChanged(before: State, after: State, room: RoomId) {
    room in after.sessions
    && (room in before.sessions ==> before.sessions[room].current != after.sessions[room].current)
  }

  /** What `get_my_current_round` shows a user each time the room enters a round. */
  function Reports(run: seq<Event>, room: RoomId, user: UserId): seq<Option<UserId>> {
    if |run| == 0 then []
    else
      var front := run[..|run| - 1];
      if RoundChanged(Run(front), Run(run), room) then
        Reports(front, room, user) + [MyCurrentRound(Run(run), user, room).value.opponent]
      else Reports(front, room, user)
  }

  /** The scheduled opponents of a session's participant. */
  function Scheduled(session: Rotation.Session, user: UserId): seq<UserId>
    requires |session.rounds| > 0 && |Males(session)| == |Females(session)|
    requires user in Males(session) || user in Females(session)
  {
    Opponents(Males(session), Females(session), user)
  }

  lemma ScheduledSize(session: Rotation.Session, user: UserId)
    requires Sound(session) && (user in Males(session) || user in Females(session))
    ensures |session.rounds| > 0 && |Males(session)| == |Females(session)|
    ensures |Scheduled(session, user)| == |session.rounds| && 1 <= session.current <= |session.rounds|
  {
  }

  /** In any reachable state, a participant is shown the scheduled opponent of the current round. */
  lemma ShownIsScheduled(s: State, room: RoomId, user: UserId)
    requires Valid(s) && Seated(s.sessions, room, user)
    ensures var session := s.sessions[room];
      && Sound(session) && |Scheduled(session, user)| == |session.rounds| && 1 <= session.current <= |session.rounds|
      && MyCurrentRound(s, user, room).value.opponent == Some(Scheduled(session, user)[session.current - 1])
  {
    hide Valid, Balanced, Rotation.MyRound, Opponents, Males, Females;
    var session := s.sessions[room];
    SessionAt(s, room);
    ScheduledSize(session, user);
    EveryoneKnown(s, room);
    ShownOpponent(session, user, s.profiles.Keys);
  }

  /** The reports so far are the schedule up to the current round. */
  ghost predicate ReportsFollow(run: seq<Event>, room: RoomId, user: UserId)
    requires room in Run(run).sessions && |Run(run).sessions[room].rounds| > 0
    requires |Males(Run(run).sessions[room])| == |Females(Run(run).sessions[room])|
    requires user in Males(Run(run).sessions[room]) || user in Females(Run(run).sessions[room])
  {
    var session, reports := Run(run).sessions[room], Reports(run, room, user);
    && |reports| == session.current <= |Scheduled(session, user)|
    && forall k :: 0 <= k < |reports| ==> reports[k] == Some(Scheduled(session, user)[k])
  }

  lemma NoSessionNoReports(run: seq<Event>, room: RoomId, user: UserId)
    requires room !in Run(run).sessions
    ensures Reports(run, room, user) == []
  {
    hide Valid, Serve;
    if |run| > 0 {
      var front := run[..|run| - 1];
      StepsSession(Run(front), run[|run| - 1], room);
      NoSessionNoReports(front, room, user);
    }
  }

  lemma {:induction false} ReportsAreScheduled(run: seq<Event>, room: RoomId, user: UserId)
    requires Seated(Run(run).sessions, room, user)
    ensures Sound(Run(run).sessions[room]) && |Males(Run(run).sessions[room])| == |Females(Run(run).sessions[room])|
    ensures ReportsFollow(run, room, user)
  {
    hide Valid, Sound, Males, Females, Scheduled, MyCurrentRound, Step;
    var n := |run| - 1;
    var before, after := Run(run[..n]), Run(run);
    ReachableIsValid(run[..n]);
    ReachableIsValid(run);
    SessionAt(after, room);
    ScheduledSize(after.sessions[room], user);
    ShownIsScheduled(after, room, user);
    StepKeeps(before, run[n]);
    SessionMoves(before, after, room);
    if room in before.sessions {
      ReportsAreScheduled(run[..n], room, user);
      SameSchedule(before.sessions[room], after.sessions[room], user);
    } else {
      NoSessionNoReports(run[..n], room, user);
    }
  }

  lemma SessionMoves(before: State, after: State, room: RoomId)
    requires Valid(before) && Grows(before, after) && room in after.sessions
    ensures room in before.sessions ==>
      && SessionGrows(before.sessions[room], after.sessions[room])
      && Males(before.sessions[room]) == Males(after.sessions[room])
      && Females(before.sessions[room]) == Females(after.sessions[room])
    ensures room !in before.sessions ==> after.sessions[room].current == 1
  {
  }

  lemma SameSchedule(a: Rotation.Session, b: Rotation.Session, user: UserId)
    requires |a.rounds| > 0 && |b.rounds| > 0 && Males(a) == Males(b) && Females(a) == Females(b)
    requires |Males(a)| == |Females(a)| && (user in Males(a) || user in Females(a))
    ensures Scheduled(a, user) == Scheduled(b, user)
  {
  }

  function Opposite(gender: Gender): Gender {
    match gender case Male => Female case Female => Male case Other => Other
  }

  lemma StartedGroups(s: State, planner: PlannerId, room: RoomId, minutes: int, now: Time)
    requires Valid(s) && StartSession(s, planner, room, minutes, now).1 == None
    ensures var s' := StartSession(s, planner, room, minutes, now).0;
      && room in s'.sessions && |s'.sessions[room].rounds| > 0
      && Males(s'.sessions[room]) == Group(s, room, Male) && Females(s'.sessions[room]) == Group(s, room, Female)
      && s'.sessions[room].minutes == minutes && s'.sessions[room].startedAt == now
      && Balanced(Group(s, room, Male), Group(s, room, Female))
  {
    hide RoomsOk, AppsOk, SessionsOk, SeatsOk, BonusesOk, ReferralsOk, CreditsOk, EmittedOk, Group, Balanced, Males,
         Females;
    GroupsAreDisjoint(s, room);
    StartedIsSound(Group(s, room, Male), Group(s, room, Female), now, minutes);
  }

  /** End to end. A session is started with the checked-in men and women of a room, anything at all happens, and
      the last round is reached: then what each participant was shown, round by round, lists everyone who was
      checked in with the other gender at the start, each exactly once. */
  lemma {:induction false} EveryoneMeetsEveryoneOnce(run: seq<Event>, planner: PlannerId, room: RoomId,
      minutes: int, now: Time,
                                  more: seq<Event>, gender: Gender, user: UserId) returns (met: seq<UserId>)
    requires StartSession(Run(run), planner, room, minutes, now).1 == None
    requires gender != Other && Attending(Run(run).checkins, Run(run).profiles, room, gender, user)
    requires var all := run + [At(ToStartSession(planner, room, minutes), now)] + more;
      room in Run(all).sessions && Run(all).sessions[room].current == |Run(all).sessions[room].rounds|
    ensures var reports := Reports(run + [At(ToStartSession(planner, room, minutes), now)] + more, room, user);
      |reports| == |met| && forall k :: 0 <= k < |met| ==> reports[k] == Some(met[k])
    ensures ListsOnce(met, Group(Run(run), room, Opposite(gender)))
    ensures forall v :: v in met <==> Attending(Run(run).checkins, Run(run).profiles, room, Opposite(gender), v)
  {
    hide Valid, Sound, Reports, Scheduled, Group, Males, Females, Balanced, ListsOnce, Serve, Opponents, Attending;
    var s, start := Run(run), run + [At(ToStartSession(planner, room, minutes), now)];
    var all := start + more;
    ReachableIsValid(run);
    assert start[..|run|] == run;
    ServeStart(s, planner, room, minutes, now);
    StartedGroups(s, planner, room, minutes, now);
    RunsOnlyMoveForward(start, more);
    var session := Run(all).sessions[room];
    assert SessionLater(Run(start).sessions[room], session);
    var males, females := Group(s, room, Male), Group(s, room, Female);
    GroupMembers(s, room, gender, user);
    assert Seated(Run(all).sessions, room, user);
    ReportsAreScheduled(all, room, user);
    ScheduledSize(session, user);
    met := Opponents(males, females, user);
    MetSchedule(all, room, user);
    OppositeGroup(males, females, gender, user);
    OppositeMembers(s, room, gender, met);
  }

  lemma ServeStart(s: State, planner: PlannerId, room: RoomId, minutes: int, now: Time)
    ensures Step(s, At(ToStartSession(planner, room, minutes), now)) == StartSession(s, planner, room, minutes, now).0
  {
    hide StartSession;
  }

  lemma MetSchedule(run: seq<Event>, room: RoomId, user: UserId)
    requires Seated(Run(run).sessions, room, user) && |Males(Run(run).sessions[room])|
        == |Females(Run(run).sessions[room])|
    requires ReportsFollow(run, room, user)
    requires Run(run).sessions[room].current == |Scheduled(Run(run).sessions[room], user)|
    ensures var met, reports := Opponents(Males(Run(run).sessions[room]), Females(Run(run).sessions[room]), user),
                                Reports(run, room, user);
      |reports| == |met| && forall k :: 0 <= k < |met| ==> reports[k] == Some(met[k])
  {
    hide Run, Reports, Opponents, Males, Females;
  }

  lemma GroupMembers(s: State, room: RoomId, gender: Gender, user: UserId)
    requires Valid(s) && gender != Other && Attending(s.checkins, s.profiles, room, gender, user)
    ensures user in Group(s, room, gender)
  {
    hide Group, Attending;
    GroupIs(s, room, gender);
  }

  lemma OppositeGroup(males: seq<UserId>, females: seq<UserId>, gender: Gender, user: UserId)
    requires Balanced(males, females) && gender != Other && user in (if gender == Male then males else females)
    ensures ListsOnce(Opponents(males, females, user), if gender == Male then females else males)
  {
    hide Opponents, ListsOnce;
    OpponentsAreTheOtherGroup(males, females, user);
  }

  lemma OppositeMembers(s: State, room: RoomId, gender: Gender, met: seq<UserId>)
    requires Valid(s) && gender != Other && ListsOnce(met, Group(s, room, Opposite(gender)))
    ensures forall v :: v in met <==> Attending(s.checkins, s.profiles, room, Opposite(gender), v)
  {
    hide Group, Attending;
    GroupIs(s, room, Opposite(gender));
  }

  /** In every reachable state the views of a room agree: whoever a participant is shown is shown that
      participant, in the same round and at the same table. */
  lemma {:induction false} ReachableViewsAreSymmetric(run: seq<Event>, room: RoomId, user: UserId)
    requires Seated(Run(run).sessions, room, user)
    ensures var mine := MyCurrentRound(Run(run), user, room).value;
      && mine.opponent.Some? && mine.table.Some?
      && MyCurrentRound(Run(run), mine.opponent.value, room) == Some(mine.(opponent := Some(user)))
  {
    hide Run, Sound, Rotation.MyRound;
    var s := Run(run);
    ReachableIsValid(run);
    SessionAt(s, room);
    EveryoneKnown(s, room);
    ViewsAreSymmetric(s.sessions[room], user, s.profiles.Keys);
  }

  lemma EveryoneKnown(s: State, room: RoomId)
    requires Valid(s) && room in s.sessions && |s.sessions[room].rounds| > 0
    ensures Knows(s.sessions[room], s.profiles.Keys)
  {
    hide RoomsOk, AppsOk, SessionsOk, CheckInsOk, BonusesOk, ReferralsOk, CreditsOk, EmittedOk, Males, Females;
    forall v | v in Males(s.sessions[room]) ensures v in s.profiles {
      assert Seated(s.sessions, room, v);
    }
    forall v | v in Females(s.sessions[room]) ensures v in s.profiles {
      assert Seated(s.sessions, room, v);
    }
  }
}
