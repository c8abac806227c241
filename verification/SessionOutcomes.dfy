/** The rotation session of a room after every request, row by row and in numbers. */
module SessionOutcomes {
  import opened Types
  import opened Lifecycle
  import opened LifecycleInvariants
  import opened LifecycleSteps
  import opened LifecycleRuns
  import opened RotationTheorems
  import opened RotationRuns
  import Outcomes
  import Rotation

  /** A minute in microseconds. */
  const TICKS: Time := 60_000_000

  lemma Served(run: seq<Event>, r: Request, now: Time)
    ensures Run(run + [At(r, now)]) == Serve(Run(run), r, now).0
  {
    hide Serve;
    RunNext(run, [At(r, now)]);
    assert [At(r, now)][..0] == [] && run + [] == run;
  }

  /** A session that was just started with these groups. */
  ghost predicate JustStarted(session: Rotation.Session, men: seq<UserId>, women: seq<UserId>, minutes: int,
      now: Time)
  {
    var n := |men|;
    && |women| == n && |session.rounds| == n
    && session == Rotation.Session(Rotation.Running, 1, minutes, now, None, session.rounds)
    && (forall r :: 0 <= r < n ==>
          var round := session.rounds[r];
          && round.number == r + 1 && round.status == (if r == 0 then Rotation.Active else Rotation.Pending)
          && round.startsAt == now + minutes * TICKS * r && round.endsAt == Some(now + minutes * TICKS * (r + 1))
          && |round.seats| == n
          && forall i :: 0 <= i < n ==> round.seats[i] == Rotation.Seat(i + 1, men[i], women[(i + r) % n]))
  }

  lemma StartedIs(men: seq<UserId>, women: seq<UserId>, minutes: int, now: Time)
    requires |men| == |women|
    ensures JustStarted(Rotation.Started(men, women, now, minutes), men, women, minutes, now)
  {
    var session, n := Rotation.Started(men, women, now, minutes), |men|;
    forall r, i | 0 <= r < n && 0 <= i < n
      ensures session.rounds[r].seats[i] == Rotation.Seat(i + 1, men[i], women[(i + r) % n])
    {
      Rotation.WrapIsModulo(n, i, r);
      assert session.rounds[r] == Rotation.RoundAt(men, women, r, now, minutes);
    }
  }

  /** The list holds the members of the set in increasing order. */
  ghost predicate Lists(list: seq<UserId>, members: set<UserId>) {
    Increasing(list) && forall u :: u in list <==> u in members
  }

  /** An accepted start seats exactly the men and women who are checked in, in the order of their ids, and plans the
      whole round robin back to back from the time of the request. */
  lemma {:induction false} StartPlansEverything(run: seq<Event>, planner: PlannerId, room: RoomId, minutes: int,
      now: Time)
    requires Outcomes.Acceptable(Run(run), ToStartSession(planner, room, minutes), now)
    ensures var s, s' := Run(run), Run(run + [At(ToStartSession(planner, room, minutes), now)]);
      && s'.sessions.Keys == s.sessions.Keys + {room}
      && exists men, women ::
           && Lists(men, Outcomes.Guests(s, room, Male)) && Lists(women, Outcomes.Guests(s, room, Female))
           && JustStarted(s'.sessions[room], men, women, minutes, now)
  {
    hide Run, Valid, Group, Outcomes.Guests, Outcomes.Acceptable, Outcomes.Reason, Rotation.Started, JustStarted;
    var s := Run(run);
    ReachableIsValid(run);
    Served(run, ToStartSession(planner, room, minutes), now);
    Outcomes.AcceptedIff(run, ToStartSession(planner, room, minutes), now);
    Outcomes.RowsAreUnique(s);
    GroupIs(s, room, Male);
    GroupIs(s, room, Female);
    Outcomes.GuestsAreGrouped(s, room, Male);
    Outcomes.GuestsAreGrouped(s, room, Female);
    var men, women := Group(s, room, Male), Group(s, room, Female);
    assert |men| == |women|;
    StartedIs(men, women, minutes, now);
    assert Lists(men, Outcomes.Guests(s, room, Male)) && Lists(women, Outcomes.Guests(s, room, Female));
  }

  lemma AdvancedIs(session: Rotation.Session, now: Time)
    requires Sound(session) && session.status == Rotation.Running && session.current < |session.rounds|
    ensures 1 <= session.current
    ensures var c := session.current;
      Rotation.Advance(session, now) == (session.(current := c + 1,
        rounds := session.rounds[c - 1 := session.rounds[c - 1].(status := Rotation.Done, endsAt := Some(now))]
                                [c := session.rounds[c].(status := Rotation.Active, startsAt := now,
                                                         endsAt := Some(now + session.minutes * TICKS))]), None)
  {
    hide Rotation.Advance;
    AdvanceEffect(session, now);
    var c, rounds' := session.current, Rotation.Advance(session, now).0.rounds;
    assert rounds' == session.rounds[c - 1 := rounds'[c - 1]][c := rounds'[c]];
  }

  /** An accepted next round closes the current round now and opens the next one for the duration of the session. */
  lemma {:induction false} NextOpensOne(run: seq<Event>, planner: PlannerId, room: RoomId, now: Time)
    requires Outcomes.Acceptable(Run(run), ToNextRound(planner, room), now)
    ensures room in Run(run).sessions
    ensures var s, s' := Run(run), Run(run + [At(ToNextRound(planner, room), now)]);
      var old', c := s.sessions[room], s.sessions[room].current;
      && 1 <= c < |old'.rounds|
      && s'.sessions == s.sessions[room := old'.(current := c + 1,
           rounds := old'.rounds[c - 1 := old'.rounds[c - 1].(status := Rotation.Done, endsAt := Some(now))]
                                [c := old'.rounds[c].(status := Rotation.Active, startsAt := now,
                                                      endsAt := Some(now + old'.minutes * TICKS))])]
  {
    hide Run, Valid, Sound, Rotation.Advance, Outcomes.Reason;
    var s := Run(run);
    ReachableIsValid(run);
    Served(run, ToNextRound(planner, room), now);
    Outcomes.AcceptedIff(run, ToNextRound(planner, room), now);
    Outcomes.NoSessionYet(s, room);
    SessionAt(s, room);
    AdvancedIs(s.sessions[room], now);
  }

  /** An accepted end closes every round that is still open, at its planned end, and the session now. */
  lemma {:induction false} EndClosesAll(run: seq<Event>, planner: PlannerId, room: RoomId, now: Time)
    requires Outcomes.Acceptable(Run(run), ToEndSession(planner, room), now)
    ensures room in Run(run).sessions
    ensures var s, s' := Run(run), Run(run + [At(ToEndSession(planner, room), now)]);
      var old', new' := s.sessions[room], s'.sessions[room];
      && s'.sessions == s.sessions[room := new']
      && new' == old'.(status := Rotation.Ended, endedAt := Some(now), rounds := new'.rounds)
      && |new'.rounds| == |old'.rounds|
      && (forall k :: 0 <= k < |old'.rounds| ==> new'.rounds[k] == old'.rounds[k].(status := Rotation.Done))
  {
    hide Run, Valid, Outcomes.Reason;
    var s := Run(run);
    ReachableIsValid(run);
    Served(run, ToEndSession(planner, room), now);
    Outcomes.AcceptedIff(run, ToEndSession(planner, room), now);
    Outcomes.NoSessionYet(s, room);
    RoundsHaveEnds(s, room);
  }

  lemma RoundsHaveEnds(s: State, room: RoomId)
    requires Valid(s) && room in s.sessions
    ensures forall k :: 0 <= k < |s.sessions[room].rounds| ==> s.sessions[room].rounds[k].endsAt.Some?
  {
    SessionAt(s, room);
  }

  /** No other request touches a session. */
  lemma {:induction false} SessionsStay(run: seq<Event>, r: Request, now: Time, room: RoomId)
    requires !(r.ToStartSession? && r.room == room) && !(r.ToNextRound? && r.room == room)
    requires !(r.ToEndSession? && r.room == room)
    ensures var s, s' := Run(run), Run(run + [At(r, now)]);
      (room in s'.sessions <==> room in s.sessions)
      && (room in s.sessions ==> s'.sessions[room] == s.sessions[room])
  {
    hide Run, Serve, Group, Rotation.Started, Rotation.Advance, Rotation.Finish;
    Served(run, r, now);
    StepsSession(Run(run), At(r, now), room);
  }

  /** Someone without a seat in the current round is shown the state of the session, and neither table nor opponent.
      */
  lemma {:induction false} OnlookersSeeTheRound(run: seq<Event>, room: RoomId, user: UserId)
    requires room in Run(run).sessions && !Seated(Run(run).sessions, room, user)
    ensures var session := Run(run).sessions[room];
      MyCurrentRound(Run(run), user, room)
      == Some(Rotation.View(session.status, session.current, |session.rounds|, session.minutes,
                            Some(if session.status == Rotation.Ended then Rotation.Done else Rotation.Active),
                            None, None))
  {
    hide Run, Sound, Males, Females;
    var s := Run(run);
    ReachableIsValid(run);
    SessionAt(s, room);
    UnseatedRow(s.sessions[room], user);
  }

  lemma UnseatedRow(session: Rotation.Session, user: UserId)
    requires Sound(session) && user !in Males(session) && user !in Females(session)
    ensures var k := Rotation.Find(session.rounds, session.current);
      && k < |session.rounds| && session.rounds[k].status == Phase(session)
      && Rotation.FindSeat(session.rounds[k].seats, user) == |session.rounds[k].seats|
  {
    CurrentRow(session);
    hide Sound, Rotation.Find, Rotation.FindSeat;
    var males, females, r := Males(session), Females(session), session.current - 1;
    forall i | 0 <= i < |males| ensures !Rotation.SitsAt(Rotation.SeatsOf(males, females, r)[i], user) {
      assert Rotation.SeatsOf(males, females, r)[i] == Rotation.SeatAt(males, females, r, i);
      assert males[i] in males && females[Rotation.Wrap(|males|, i, r)] in females;
    }
  }
}
