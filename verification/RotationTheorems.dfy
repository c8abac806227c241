/** The schedule is a complete round robin, and a session plays it round by round. */
module RotationTheorems {
  import opened Types
  import opened Rotation

  predicate NoRepeats(s: seq<UserId>) {
    forall i, j :: 0 <= i < j < |s| ==> s[i] != s[j]
  }

  /** Two balanced groups without repeated or shared members. */
  predicate Balanced(males: seq<UserId>, females: seq<UserId>) {
    && |males| == |females|
    && NoRepeats(males) && NoRepeats(females)
    && (forall i, j :: 0 <= i < |males| && 0 <= j < |females| ==> males[i] != females[j])
  }

  // ---- The schedule ---------------------------------------------------------------------------

  /** The only round in which table `i + 1` gets the female at position `j`. */
  function MeetingRound(n: nat, i: nat, j: nat): (r: nat)
    requires i < n && j < n
    ensures r < n
  {
    if i <= j then j - i else j - i + n
  }

  lemma {:induction false} MeetingIsUnique(n: nat, i: nat, j: nat, r: nat)
    requires i < n && j < n && r < n
    ensures (i + r) % n == j <==> r == MeetingRound(n, i, j)
  {
    WrapIsModulo(n, i, r);
  }

  /** Each pair meets in exactly one round, at the table of the male. */
  lemma EveryPairMeetsOnce(males: seq<UserId>, females: seq<UserId>, i: nat, j: nat)
    requires Balanced(males, females) && i < |males| && j < |females|
    ensures forall r, k :: 0 <= r < |males| && 0 <= k < |males| ==>
      (SeatsOf(males, females, r)[k].a == males[i] && SeatsOf(males, females, r)[k].b == females[j]
       <==> k == i && r == MeetingRound(|males|, i, j))
  {
    forall r, k | 0 <= r < |males| && 0 <= k < |males|
      ensures SeatsOf(males, females, r)[k].a == males[i] && SeatsOf(males, females, r)[k].b == females[j]
         <==> k == i && r == MeetingRound(|males|, i, j)
    {
      assert SeatsOf(males, females, r)[k] == SeatAt(males, females, r, k);
    }
  }

  /** Each round is a perfect matching: every participant has exactly one seat, and the tables are 1..n. */
  lemma EveryRoundIsPerfectMatching(males: seq<UserId>, females: seq<UserId>, r: nat)
    requires Balanced(males, females) && r < |males|
    ensures var seats := SeatsOf(males, females, r);
      && |seats| == |males|
      && (forall k :: 0 <= k < |seats| ==> seats[k].table == k + 1)
      && (forall i, k :: 0 <= i < |males| && 0 <= k < |seats| ==> (SitsAt(seats[k], males[i]) <==> k == i))
      && (forall j, k :: 0 <= j < |females| && 0 <= k < |seats| ==>
            (SitsAt(seats[k], females[j]) <==> k == MeetingRound(|males|, r, j)))
  {
    forall j, k | 0 <= j < |females| && 0 <= k < |males|
      ensures SitsAt(SeatsOf(males, females, r)[k], females[j]) <==> k == MeetingRound(|males|, r, j)
    {
      assert SeatsOf(males, females, r)[k] == SeatAt(males, females, r, k);
    }
  }

  // ---- The session ------------------------------------------------------------------------------

  /** The groups a session was started with, read off its first round. */
  function Males(s: Session): seq<UserId>
    requires |s.rounds| > 0
  {
    seq(|s.rounds[0].seats|, i requires 0 <= i < |s.rounds[0].seats| => s.rounds[0].seats[i].a)
  }

  function Females(s: Session): seq<UserId>
    requires |s.rounds| > 0
  {
    seq(|s.rounds[0].seats|, i requires 0 <= i < |s.rounds[0].seats| => s.rounds[0].seats[i].b)
  }

  function ExpectedStatus(s: Session, k: nat): RoundStatus {
    if s.status == Ended || k + 1 < s.current then Done
    else if k + 1 == s.current then Active
    else Pending
  }

  /** Rounds are numbered 1..n and hold the round robin of the two groups; below the current round
      they are COMPLETED, the current one alone is ACTIVE, and once ended all are COMPLETED. */
  ghost predicate Sound(s: Session) {
    && s.status in {Running, Ended} && (s.endedAt.Some? <==> s.status == Ended)
    && 1 <= s.current <= |s.rounds|
    && Balanced(Males(s), Females(s)) && |Males(s)| == |s.rounds|
    && (forall k :: 0 <= k < |s.rounds| ==>
          s.rounds[k].number == k + 1 && s.rounds[k].endsAt.Some?
          && s.rounds[k].seats == SeatsOf(Males(s), Females(s), k)
          && s.rounds[k].status == ExpectedStatus(s, k))
  }

  lemma FindSound(s: Session, number: nat)
    requires Sound(s) && 1 <= number <= |s.rounds|
    ensures Find(s.rounds, number) == number - 1
  {
    var k := Find(s.rounds, number);
    assert s.rounds[number - 1].number == number;
  }

  lemma FindNumbered(rounds: seq<Round>, number: nat)
    requires 1 <= number <= |rounds|
    requires forall k :: 0 <= k < |rounds| ==> rounds[k].number == k + 1
    ensures Find(rounds, number) == number - 1
  {
    assert rounds[number - 1].number == number;
  }

  /** A session starts sound, with exactly the two groups it was given. */
  lemma StartedIsSound(males: seq<UserId>, females: seq<UserId>, now: Time, minutes: int)
    requires Balanced(males, females) && |males| > 0
    ensures var s := Started(males, females, now, minutes);
      Sound(s) && Males(s) == males && Females(s) == females && s.current == 1 && s.status == Running
  {
    var s := Started(males, females, now, minutes);
    forall i | 0 <= i < |males| ensures Males(s)[i] == males[i] && Females(s)[i] == females[i] {
      assert s.rounds[0].seats[i] == SeatAt(males, females, 0, i);
    }
    assert Males(s) == males && Females(s) == females;
  }

  lemma Numbered(s: Session)
    requires Sound(s)
    ensures 1 <= s.current && forall k :: 0 <= k < |s.rounds| ==> s.rounds[k].number == k + 1
  {
  }

  /** What `next_round` does to the rows of a sound session. */
  lemma AdvanceEffect(s: Session, now: Time)
    requires Sound(s) && s.status == Running && s.current < |s.rounds|
    ensures var s', c := Advance(s, now).0, s.current;
      && Advance(s, now).1 == None
      && s' == s.(current := c + 1, rounds := s'.rounds) && |s'.rounds| == |s.rounds|
      && (forall k :: 0 <= k < |s.rounds| && k != c - 1 && k != c ==> s'.rounds[k] == s.rounds[k])
      && s'.rounds[c - 1] == s.rounds[c - 1].(status := Done, endsAt := Some(now))
      && s'.rounds[c] == s.rounds[c].(status := Active, startsAt := now, endsAt := Some(now + s.minutes * MINUTE))
  {
    hide Sound, Find;
    var c := s.current;
    Numbered(s);
    FindSound(s, c);
    var closed := Close(s.rounds, c, now);
    assert closed == s.rounds[c - 1 := s.rounds[c - 1].(status := Done, endsAt := Some(now))];
    FindNumbered(closed, c + 1);
  }

  /** `next_round` succeeds exactly while the session is RUNNING before its last round, moves the round
      by one, and keeps the session sound with the same groups. Refusals change nothing. */
  lemma AdvanceIsSound(s: Session, now: Time)
    requires Sound(s)
    ensures var (s', e) := Advance(s, now);
      && (e == None <==> s.status == Running && s.current < |s.rounds|)
      && (e == None ==> s'.current == s.current + 1) && (e.Some? ==> s' == s)
      && Sound(s') && Males(s') == Males(s) && Females(s') == Females(s) && |s'.rounds| == |s.rounds|
      && s'.minutes == s.minutes && s'.startedAt == s.startedAt
  {
    if s.status == Running && s.current < |s.rounds| {
      var s', c := Advance(s, now).0, s.current;
      AdvanceEffect(s, now);
      hide Advance, Balanced;
      assert forall k :: 0 <= k < |s.rounds| ==> s'.rounds[k].seats == s.rounds[k].seats;
      assert Males(s') == Males(s) && Females(s') == Females(s);
    }
  }

  lemma FinishIsSound(s: Session, now: Time)
    requires Sound(s)
    ensures var (s', e) := Finish(s, now);
      && (e == None <==> s.status == Running) && (e.Some? ==> s' == s)
      && Sound(s') && s'.status == Ended && s'.current == s.current
      && Males(s') == Males(s) && Females(s') == Females(s) && |s'.rounds| == |s.rounds|
      && s'.minutes == s.minutes && s'.startedAt == s.startedAt
  {
    var s' := Finish(s, now).0;
    assert s'.rounds[0].seats == s.rounds[0].seats;
    assert Males(s') == Males(s) && Females(s') == Females(s);
  }

  // ---- Timing -------------------------------------------------------------------------------------

  /** A round ran forwards and ended before the next one began. */
  predicate RanBefore(r: Round, next: Round) {
    r.endsAt.Some? && r.startsAt <= r.endsAt.value <= next.startsAt
  }

  /** Rounds already left behind ran forwards and one after the other, up to `clock`. */
  ghost predicate Timely(s: Session, clock: Time) {
    && 1 <= s.current <= |s.rounds|
    && s.rounds[s.current - 1].startsAt <= clock
    && (forall k :: 0 <= k < s.current - 1 ==> RanBefore(s.rounds[k], s.rounds[k + 1]))
    && s.rounds[s.current - 1].endsAt == Some(s.rounds[s.current - 1].startsAt + s.minutes * MINUTE)
  }

  lemma StartedIsTimely(males: seq<UserId>, females: seq<UserId>, now: Time, minutes: int)
    requires |males| == |females| > 0
    ensures Timely(Started(males, females, now, minutes), now)
  {
  }

  lemma AdvanceIsTimely(s: Session, clock: Time, now: Time)
    requires Sound(s) && Timely(s, clock) && clock <= now
    ensures Timely(Advance(s, now).0, now)
  {
    AdvanceIsSound(s, now);
    if s.status == Running && s.current < |s.rounds| {
      AdvanceEffect(s, now);
      hide Sound, Advance;
      var s', c := Advance(s, now).0, s.current;
      forall k | 0 <= k < c ensures RanBefore(s'.rounds[k], s'.rounds[k + 1]) {
        assert k < c - 1 ==> RanBefore(s.rounds[k], s.rounds[k + 1]);
      }
    }
  }

  lemma FinishIsTimely(s: Session, clock: Time, now: Time)
    requires Sound(s) && Timely(s, clock) && clock <= now
    ensures Timely(Finish(s, now).0, now)
  {
    var s' := Finish(s, now).0;
    assert forall k :: 0 <= k < |s.rounds| ==> s'.rounds[k] == s.rounds[k].(status := s'.rounds[k].status);
    hide Sound, Finish;
    forall k | 0 <= k < s.current - 1 && s' != s ensures RanBefore(s'.rounds[k], s'.rounds[k + 1]) {
      assert RanBefore(s.rounds[k], s.rounds[k + 1]);
    }
  }

  // ---- What participants see --------------------------------------------------------------------

  /** The opponent in a round (counted from 0), by position in one's own group. */
  function OpponentOfMale(females: seq<UserId>, i: nat, round: nat): UserId
    requires i < |females| && round < |females|
  {
    females[Wrap(|females|, i, round)]
  }

  function OpponentOfFemale(males: seq<UserId>, j: nat, round: nat): UserId
    requires j < |males| && round < |males|
  {
    males[MeetingRound(|males|, round, j)]
  }

  lemma SoundSizes(s: Session)
    requires Sound(s)
    ensures |Males(s)| == |Females(s)| == |s.rounds| && 1 <= s.current <= |s.rounds|
  {
  }

  /** The current round is ACTIVE until the session has ended. */
  function Phase(s: Session): RoundStatus {
    if s.status == Ended then Done else Active
  }

  /** The current round's row, as every reader finds it. */
  lemma CurrentRow(s: Session)
    requires Sound(s)
    ensures |Males(s)| == |Females(s)| == |s.rounds| && 1 <= s.current <= |s.rounds|
    ensures Balanced(Males(s), Females(s))
    ensures Find(s.rounds, s.current) == s.current - 1
    ensures s.rounds[s.current - 1].seats == SeatsOf(Males(s), Females(s), s.current - 1)
    ensures s.rounds[s.current - 1].status == Phase(s)
  {
    FindSound(s, s.current);
  }

  lemma SeatFound(seats: seq<Seat>, u: UserId, k: nat)
    requires k < |seats| && forall j :: 0 <= j < |seats| ==> (SitsAt(seats[j], u) <==> j == k)
    ensures FindSeat(seats, u) == k
  {
    assert SitsAt(seats[k], u);
  }

  /** Where the members of the two groups sit in a round. */
  lemma SeatOfMale(males: seq<UserId>, females: seq<UserId>, r: nat, i: nat)
    requires Balanced(males, females) && r < |males| && i < |males|
    ensures var seats := SeatsOf(males, females, r);
      FindSeat(seats, males[i]) == i && seats[i] == Seat(i + 1, males[i], OpponentOfMale(females, i, r))
  {
    hide FindSeat;
    EveryRoundIsPerfectMatching(males, females, r);
    SeatFound(SeatsOf(males, females, r), males[i], i);
    assert SeatsOf(males, females, r)[i] == SeatAt(males, females, r, i);
  }

  lemma SeatOfFemale(males: seq<UserId>, females: seq<UserId>, r: nat, j: nat)
    requires Balanced(males, females) && r < |males| && j < |males|
    ensures var seats, k := SeatsOf(males, females, r), MeetingRound(|males|, r, j);
      && FindSeat(seats, females[j]) == k && seats[k] == Seat(k + 1, OpponentOfFemale(males, j, r), females[j])
      && seats[k].a != females[j]
  {
    hide FindSeat;
    var k := MeetingRound(|males|, r, j);
    EveryRoundIsPerfectMatching(males, females, r);
    SeatFound(SeatsOf(males, females, r), females[j], k);
    assert SeatsOf(males, females, r)[k] == SeatAt(males, females, r, k);
  }

  /** A participant is shown the seat of the current round. */
  lemma MaleSees(s: Session, i: nat, known: set<UserId>)
    requires Sound(s) && i < |Males(s)| && forall u :: u in Females(s) ==> u in known
    ensures MyRound(s, Males(s)[i], known)
         == View(s.status, s.current, |s.rounds|, s.minutes, Some(Phase(s)), Some(i + 1),
                 Some(OpponentOfMale(Females(s), i, s.current - 1)))
  {
    hide Sound, Balanced, Males, Females, Find, FindSeat, SeatsOf, SitsAt, Phase;
    CurrentRow(s);
    SeatOfMale(Males(s), Females(s), s.current - 1, i);
  }

  lemma FemaleSees(s: Session, j: nat, known: set<UserId>)
    requires Sound(s) && j < |Females(s)| && forall u :: u in Males(s) ==> u in known
    ensures var k := MeetingRound(|s.rounds|, s.current - 1, j);
      MyRound(s, Females(s)[j], known)
      == View(s.status, s.current, |s.rounds|, s.minutes, Some(Phase(s)), Some(k + 1),
              Some(OpponentOfFemale(Males(s), j, s.current - 1)))
  {
    hide Sound, Balanced, Males, Females, Find, FindSeat, SeatsOf, SitsAt, Phase;
    CurrentRow(s);
    SeatOfFemale(Males(s), Females(s), s.current - 1, j);
  }

  function IndexOf(s: seq<UserId>, u: UserId): (i: nat)
    requires u in s
    ensures i < |s| && s[i] == u
  {
    if s[0] == u then 0 else 1 + IndexOf(s[1..], u)
  }

  ghost predicate Knows(s: Session, known: set<UserId>)
    requires |s.rounds| > 0
  {
    && (forall v :: v in Males(s) ==> v in known)
    && (forall v :: v in Females(s) ==> v in known)
  }

  /** In any state of a session the views are symmetric: whoever a participant is shown is shown that
      participant, at the same table and in the same round. */
  lemma {:induction false} ViewsAreSymmetric(s: Session, u: UserId, known: set<UserId>)
    requires Sound(s) && (u in Males(s) || u in Females(s)) && Knows(s, known)
    ensures var mine := MyRound(s, u, known);
      && mine.opponent.Some? && mine.table.Some?
      && MyRound(s, mine.opponent.value, known) == mine.(opponent := Some(u))
  {
    if u in Males(s) {
      MaleSeenBack(s, IndexOf(Males(s), u), known);
    } else {
      FemaleSeenBack(s, IndexOf(Females(s), u), known);
    }
  }

  lemma MaleSeenBack(s: Session, i: nat, known: set<UserId>)
    requires Sound(s) && i < |Males(s)| && Knows(s, known)
    ensures var mine := MyRound(s, Males(s)[i], known);
      && mine.opponent.Some? && mine.table.Some?
      && MyRound(s, mine.opponent.value, known) == mine.(opponent := Some(Males(s)[i]))
  {
    SoundSizes(s);
    hide Sound, MyRound;
    var j := Wrap(|s.rounds|, i, s.current - 1);
    MaleSees(s, i, known);
    FemaleSees(s, j, known);
    assert MeetingRound(|s.rounds|, s.current - 1, j) == i;
  }

  lemma FemaleSeenBack(s: Session, j: nat, known: set<UserId>)
    requires Sound(s) && j < |Females(s)| && Knows(s, known)
    ensures var mine := MyRound(s, Females(s)[j], known);
      && mine.opponent.Some? && mine.table.Some?
      && MyRound(s, mine.opponent.value, known) == mine.(opponent := Some(Females(s)[j]))
  {
    SoundSizes(s);
    hide Sound, MyRound;
    var i := MeetingRound(|s.rounds|, s.current - 1, j);
    FemaleSees(s, j, known);
    MaleSees(s, i, known);
    assert Wrap(|s.rounds|, i, s.current - 1) == j;
  }

  /** The opponents of rounds 1..n, in order, for a participant of either group. */
  function OpponentsOfMale(females: seq<UserId>, i: nat): (all: seq<UserId>)
    requires i < |females|
    ensures |all| == |females| && forall r :: 0 <= r < |all| ==> all[r] == OpponentOfMale(females, i, r)
  {
    seq(|females|, r requires 0 <= r < |females| => OpponentOfMale(females, i, r))
  }

  function OpponentsOfFemale(males: seq<UserId>, j: nat): (all: seq<UserId>)
    requires j < |males|
    ensures |all| == |males| && forall r :: 0 <= r < |all| ==> all[r] == OpponentOfFemale(males, j, r)
  {
    seq(|males|, r requires 0 <= r < |males| => OpponentOfFemale(males, j, r))
  }

  function Opponents(males: seq<UserId>, females: seq<UserId>, u: UserId): seq<UserId>
    requires |males| == |females| && (u in males || u in females)
  {
    if u in males then OpponentsOfMale(females, IndexOf(males, u)) else OpponentsOfFemale(males, IndexOf(females, u))
  }

  /** The same members, each exactly once. */
  ghost predicate ListsOnce(all: seq<UserId>, group: seq<UserId>) {
    |all| == |group| && NoRepeats(all) && forall v :: v in all <==> v in group
  }

  lemma MaleMeetsEveryFemaleOnce(females: seq<UserId>, i: nat)
    requires i < |females| && NoRepeats(females)
    ensures ListsOnce(OpponentsOfMale(females, i), females)
  {
    var n, all := |females|, OpponentsOfMale(females, i);
    forall v | v in females ensures v in all {
      var j := IndexOf(females, v);
      assert all[MeetingRound(n, i, j)] == v;
    }
  }

  lemma FemaleMeetsEveryMaleOnce(males: seq<UserId>, j: nat)
    requires j < |males| && NoRepeats(males)
    ensures ListsOnce(OpponentsOfFemale(males, j), males)
  {
    var n, all := |males|, OpponentsOfFemale(males, j);
    forall v | v in males ensures v in all {
      var k := IndexOf(males, v);
      assert all[MeetingRound(n, k, j)] == v;
    }
  }

  /** Over rounds 1..n each participant gets every member of the other group exactly once. */
  lemma OpponentsAreTheOtherGroup(males: seq<UserId>, females: seq<UserId>, u: UserId)
    requires Balanced(males, females) && (u in males || u in females)
    ensures ListsOnce(Opponents(males, females, u), if u in males then females else males)
  {
    if u in males {
      MaleMeetsEveryFemaleOnce(females, IndexOf(males, u));
    } else {
      FemaleMeetsEveryMaleOnce(males, IndexOf(females, u));
    }
  }

  /** What a participant is shown is the schedule's entry for the current round. */
  lemma ShownOpponent(s: Session, u: UserId, known: set<UserId>)
    requires Sound(s) && (u in Males(s) || u in Females(s)) && Knows(s, known)
    ensures MyRound(s, u, known).opponent == Some(Opponents(Males(s), Females(s), u)[s.current - 1])
  {
    if u in Males(s) {
      MaleSees(s, IndexOf(Males(s), u), known);
    } else {
      FemaleSees(s, IndexOf(Females(s), u), known);
    }
  }
}
