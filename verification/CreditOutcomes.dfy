/** The credit table after every request, row by row and in numbers. */
module CreditOutcomes {
  import opened Types
  import opened CreditService
  import opened Lifecycle
  import opened LifecycleInvariants
  import opened LifecycleSteps
  import opened LifecycleRuns
  import opened ViabilityRuns
  import Outcomes

  /** Ninety days in microseconds. */
  const VALIDITY: Time := 7_776_000_000_000

  /** The host's coupon for a viable room: 30 percent, at most 10000. */
  function Coupon(host: UserId, room: RoomId, now: Time): Credit {
    Credit(host, Percent, None, Some(30), Some(10_000), ActiveCredit, ViableHostBonus, Some(room), None, now + VALIDITY)
  }

  /** The two halves of a referral reward: 3000 each. */
  function Reward(referrer: UserId, friend: UserId, now: Time): seq<Credit> {
    [Credit(referrer, FixedAmount, Some(3_000), None, None, ActiveCredit, ReferralHost, None, Some(friend),
            now + VALIDITY),
     Credit(friend, FixedAmount, Some(3_000), None, None, ActiveCredit, ReferralFriend, None, Some(referrer),
            now + VALIDITY)]
  }

  /** The room was PUBLISHED, and with this application confirmed it has half of each capacity. */
  predicate Promotes(s: State, app: nat)
    requires app < |s.apps| && s.apps[app].room < |s.rooms|
  {
    s.rooms[s.apps[app].room].status == Published && Outcomes.Reaches(s, app)
  }

  /** The applicant was referred and never confirmed before, and fewer than five friends of the referrer were. */
  ghost predicate Rewards(s: State, user: UserId) {
    && user in s.users && s.users[user].referrer.Some? && !HasConfirmed(s.apps, user)
    && |ConfirmedFriends(s, s.users[user].referrer.value)| < 5
  }

  /** The credits after an accepted request. */
  ghost function CreditsAfter(s: State, r: Request, now: Time): seq<Credit> {
    match r
    case ToMarkPaid(_, app) =>
      if app >= |s.apps| || s.apps[app].room >= |s.rooms| then s.credits
      else
        var room, user := s.apps[app].room, s.apps[app].user;
        s.credits
        + (if Promotes(s, app) then [Coupon(s.rooms[room].host, room, now)] else [])
        + (if Rewards(s, user) then Reward(s.users[user].referrer.value, user, now) else [])
    case ToListCredits(user) =>
      seq(|s.credits|, i requires 0 <= i < |s.credits| =>
        var c := s.credits[i];
        if c.user == user && c.status == ActiveCredit && c.expiresAt <= now then c.(status := Expired) else c)
    case _ => s.credits
  }

  lemma PromotionCredits(s: State, app: nat, now: Time)
    requires Valid(s) && app < |s.apps| && s.apps[app].status == Approved
    ensures var s1 := s.(apps := s.apps[app := s.apps[app].(status := AppConfirmed)]);
      && s.apps[app].room < |s.rooms|
      && PromoteIfViable(s1, s.apps[app].room, now).credits
         == s.credits + if Promotes(s, app) then [Coupon(s.rooms[s.apps[app].room].host, s.apps[app].room, now)] else []
  {
    hide Core, EmittedOk, ConfirmedCount, Threshold, Outcomes.Reaches, IssueBonus, Grows, HasConfirmed, EmittedExcept;
    var room := s.apps[app].room;
    var s1 := s.(apps := s.apps[app := s.apps[app].(status := AppConfirmed)]);
    Outcomes.NoPaymentPending(s, app);
    PaidStage(s, app);
    CoreRoomAt(s1, room);
    Outcomes.ReachesIff(s, app);
    if Promotes(s, app) {
      PromotionIssues(s1, room, now);
    }
  }

  lemma EmissionCredits(s: State, s1: State, user: UserId, now: Time)
    requires Valid(s) && s1.users == s.users && ReferralsOk(s1.users, s1.credits)
    requires user in s.users && s.users[user].referrer.Some? ==>
      CountIf(s1.credits, IsReferrerPair(s.users[user].referrer.value, user))
      == CountIf(s.credits, IsReferrerPair(s.users[user].referrer.value, user))
    ensures EmitReferral(s1, user, now).credits
         == s1.credits + if Rewards(s, user) then Reward(s.users[user].referrer.value, user, now) else []
  {
    hide RoomsOk, AppsOk, SessionsOk, CheckInsOk, SeatsOk, BonusesOk, CreditsOk, CountIf, HasConfirmed;
    if user in s.users && s.users[user].referrer.Some? {
      var r := s.users[user].referrer.value;
      assert EmittedRight(s.users, s.apps, user);
      FriendsAreEmitted(s, r);
      if !s.users[user].emitted {
        assert CountIf(s.credits, IsReferrerPair(r, user)) == 0;
        PairIssued(s1.users, s1.credits, user, now);
      }
    }
  }

  lemma FriendsAreEmitted(s: State, r: UserId)
    requires Valid(s)
    ensures ConfirmedFriends(s, r) == EmittedBy(s.users, r)
  {
    hide Core, HasConfirmed;
    assert forall g :: g in s.users ==> EmittedRight(s.users, s.apps, g);
  }

  lemma CouponLeavesPairs(credits: seq<Credit>, host: UserId, room: RoomId, now: Time, r: UserId, f: UserId)
    ensures CountIf(credits + [Coupon(host, room, now)], IsReferrerPair(r, f)) == CountIf(credits, IsReferrerPair(r, f))
  {
    CountAppend(credits, Coupon(host, room, now), IsReferrerPair(r, f));
  }

  lemma PaymentCredits(s: State, user: UserId, app: nat, now: Time)
    requires Valid(s) && Outcomes.Acceptable(s, ToMarkPaid(user, app), now)
    ensures MarkPaid(s, user, app, now).0.credits == CreditsAfter(s, ToMarkPaid(user, app), now)
  {
    hide Valid, PromoteIfViable, EmitReferral, Promotes, Rewards, Coupon, Reward, CountIf, EmittedExcept, Grows,
         HasConfirmed;
    var room, u := s.apps[app].room, s.apps[app].user;
    var s1 := s.(apps := s.apps[app := s.apps[app].(status := AppConfirmed)]);
    var s2 := PromoteIfViable(s1, room, now);
    PromotionCredits(s, app, now);
    PaidStage(s, app);
    PromotionKeeps(s1, room, now);
    if u in s.users && s.users[u].referrer.Some? {
      CouponLeavesPairs(s.credits, s.rooms[room].host, room, now, s.users[u].referrer.value, u);
    }
    assert s.credits + [] == s.credits;
    EmissionCredits(s, s2, u, now);
  }

  lemma ListingCredits(s: State, user: UserId, now: Time)
    ensures ListCredits(s, user, now).0.credits == CreditsAfter(s, ToListCredits(user), now)
  {
  }

  lemma CreditStep(s: State, e: Event)
    requires Valid(s)
    ensures Step(s, e).credits
         == if Outcomes.Acceptable(s, e.request, e.now) then CreditsAfter(s, e.request, e.now) else s.credits
  {
    hide Valid, Outcomes.Acceptable, Outcomes.Follows, Outcomes.Reason, RoomStays, ConfirmsNobody, MarkPaid,
         ListCredits, Promotes, Rewards;
    Outcomes.ServiceAgrees(s, e);
    if Outcomes.Acceptable(s, e.request, e.now) {
      match e.request
      case ToMarkPaid(user, app) => PaymentCredits(s, user, app, e.now);
      case ToListCredits(user) => ListingCredits(s, user, e.now);
      case ToSaveProfile(_, _) =>
      case _ => OthersAreQuiet(s, e);
    } else {
      RefusedIsSame(s, e);
    }
  }

  lemma RefusedIsSame(s: State, e: Event)
    requires Valid(s) && !Outcomes.Acceptable(s, e.request, e.now)
    ensures Step(s, e) == s
  {
    hide Valid, Outcomes.Acceptable, Outcomes.Reason, Serve;
    Outcomes.ServiceAgrees(s, e);
  }

  /** After any request in any reachable state the credits are those before it, with the overdue ones of a user marked
      when that user lists them, one coupon of 30 percent up to 10000 for the host when a payment makes a PUBLISHED
      room viable, and 3000 for each side when it is the first confirmation of a friend among the referrer's first
      five. */
  lemma {:induction false} CreditsFollow(run: seq<Event>, r: Request, now: Time)
    ensures Run(run + [At(r, now)]).credits
         == if Outcomes.Acceptable(Run(run), r, now) then CreditsAfter(Run(run), r, now) else Run(run).credits
  {
    hide Run, Valid, Step, CreditsAfter, Outcomes.Acceptable;
    ReachableIsValid(run);
    CreditStep(Run(run), At(r, now));
    RunNext(run, [At(r, now)]);
    assert [At(r, now)][..0] == [] && run + [] == run;
  }

  lemma PaidTables(s: State, s': State, user: UserId, app: nat, now: Time)
    requires Outcomes.Acceptable(s, ToMarkPaid(user, app), now) && Outcomes.Follows(s, ToMarkPaid(user, app), now, s')
    ensures |s'.rooms| == |s.rooms| && s'.apps == s.apps[app := s.apps[app].(status := AppConfirmed)]
    ensures forall k :: 0 <= k < |s.rooms| ==>
      s'.rooms[k] == if k == s.apps[app].room && Promotes(s, app)
                     then s.rooms[k].(status := Viable, viableAt := Some(now)) else s.rooms[k]
  {
    hide Outcomes.Reaches;
    assert s'.apps == s.apps[app := s.apps[app].(status := AppConfirmed)];
  }

  /** Half of each capacity of the room is confirmed. */
  predicate HalfConfirmed(s: State, room: RoomId)
    requires room < |s.rooms|
  {
    && (s.rooms[room].maleCap + 1) / 2 <= |Outcomes.Seats(s, room, Male)|
    && (s.rooms[room].femaleCap + 1) / 2 <= |Outcomes.Seats(s, room, Female)|
  }

  lemma ReachesHalf(s: State, s': State, app: nat)
    requires app < |s.apps| && s.apps[app].room < |s.rooms| == |s'.rooms| && s'.profiles == s.profiles
    requires s'.apps == s.apps[app := s.apps[app].(status := AppConfirmed)]
    requires var room := s.apps[app].room;
      s'.rooms[room].maleCap == s.rooms[room].maleCap && s'.rooms[room].femaleCap == s.rooms[room].femaleCap
    ensures Outcomes.Reaches(s, app) <==> HalfConfirmed(s', s.apps[app].room)
  {
    hide Outcomes.Seats, Outcomes.HasGender;
    var room := s.apps[app].room;
    var s1 := s.(apps := s.apps[app := s.apps[app].(status := AppConfirmed)]);
    Outcomes.OneMoreSeat(s, app, Male);
    Outcomes.OneMoreSeat(s, app, Female);
    SameSeats(s1, s', room, Male);
    SameSeats(s1, s', room, Female);
  }

  /** A payment in numbers. It is accepted exactly from the host and for an approved application. In a room that was
      PUBLISHED it makes the room VIABLE, with the time of the request, exactly when half of each capacity is
      confirmed then, and exactly then a coupon for the room exists; no other room changes, nor does any room in
      another status. */
  lemma {:induction false} PaymentPromotesIff(run: seq<Event>, user: UserId, app: nat, now: Time)
    ensures var s := Run(run);
      Serve(s, ToMarkPaid(user, app), now).1 == None <==>
        app < |s.apps| && s.apps[app].room < |s.rooms| && s.rooms[s.apps[app].room].host == user
        && s.apps[app].status == Approved
    ensures Serve(Run(run), ToMarkPaid(user, app), now).1 == None ==>
      var s, s', room := Run(run), Run(run + [At(ToMarkPaid(user, app), now)]), Run(run).apps[app].room;
      && |s'.rooms| == |s.rooms|
      && (forall k :: 0 <= k < |s.rooms| && k != room ==> s'.rooms[k] == s.rooms[k])
      && s'.rooms[room] == (if s.rooms[room].status == Published && HalfConfirmed(s', room)
                            then s.rooms[room].(status := Viable, viableAt := Some(now)) else s.rooms[room])
      && (s.rooms[room].status == Published ==>
            CountIf(s'.credits, BonusFor(room)) == if HalfConfirmed(s', room) then 1 else 0)
  {
    hide Run, CountIf, Serve, HalfConfirmed, Outcomes.Reaches, Outcomes.Follows, Outcomes.Reason;
    var r := ToMarkPaid(user, app);
    var s, s' := Run(run), Run(run + [At(r, now)]);
    Outcomes.AcceptedIff(run, r, now);
    if Outcomes.Acceptable(s, r, now) {
      Outcomes.TablesFollow(run, r, now);
      PaidTables(s, s', user, app, now);
      PaymentProfiles(run, user, app, now);
      ReachesHalf(s, s', app);
      BonusesCountViableRooms(run + [At(r, now)], user, s.apps[app].room);
    }
  }

  lemma SameSeats(s: State, s': State, room: RoomId, gender: Gender)
    requires s'.apps == s.apps && s'.profiles == s.profiles
    ensures Outcomes.Seats(s', room, gender) == Outcomes.Seats(s, room, gender)
  {
  }

  lemma PaymentProfiles(run: seq<Event>, user: UserId, app: nat, now: Time)
    ensures Run(run + [At(ToMarkPaid(user, app), now)]).profiles == Run(run).profiles
  {
    hide Run, MarkPaid;
    RunNext(run, [At(ToMarkPaid(user, app), now)]);
    assert [At(ToMarkPaid(user, app), now)][..0] == [] && run + [] == run;
    PaymentShape(Run(run), user, app, now);
  }
}
