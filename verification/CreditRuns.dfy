/** Who is rewarded for a referral, and when a credit can be used, over whole runs. */
module CreditRuns {
  import opened Types
  import opened CreditService
  import opened Lifecycle
  import opened LifecycleInvariants
  import opened LifecycleSteps
  import opened LifecycleRuns
  import opened ViabilityRuns
  import Discounts

  // ---- Which friends are rewarded --------------------------------------------------------------------

  /** The friends whom a referrer holds a credit for. */
  function Rewarded(credits: seq<Credit>, r: UserId): set<UserId> {
    set c | c in credits && c.user == r && c.source == ReferralHost && c.sourceUser.Some? :: c.sourceUser.value
  }

  predicate NamesFriend(c: Credit) {
    c.source == ReferralHost ==> c.sourceUser.Some?
  }

  /** With at most one credit per pair, a referrer has as many credits as rewarded friends. */
  lemma {:induction false} RewardedCounts(credits: seq<Credit>, r: UserId)
    requires forall f :: CountIf(credits, IsReferrerPair(r, f)) <= 1
    requires forall i :: 0 <= i < |credits| ==> NamesFriend(credits[i])
    ensures CountIf(credits, IsReferrerCredit(r)) == |Rewarded(credits, r)|
    ensures forall f :: f in Rewarded(credits, r) <==> CountIf(credits, IsReferrerPair(r, f)) > 0
  {
    if |credits| > 0 {
      var n := |credits| - 1;
      var c := credits[n];
      forall f ensures CountIf(credits[..n], IsReferrerPair(r, f)) <= CountIf(credits, IsReferrerPair(r, f)) {}
      RewardedCounts(credits[..n], r);
      assert NamesFriend(c) && credits == credits[..n] + [c];
      if IsReferrerCredit(r)(c) {
        var f := c.sourceUser.value;
        assert CountIf(credits, IsReferrerPair(r, f)) <= 1;
        assert Rewarded(credits, r) == Rewarded(credits[..n], r) + {f};
      } else {
        assert Rewarded(credits, r) == Rewarded(credits[..n], r);
      }
    }
  }

  lemma SameSize<T>(a: set<T>, b: set<T>)
    requires a <= b && |a| == |b|
    ensures a == b
  {
    assert b == a + (b - a);
  }

  /** In a reachable state the rewarded friends are confirmed friends, as many as five allow. */
  lemma RewardedFriends(run: seq<Event>, r: UserId)
    ensures var s := Run(run);
      && Rewarded(s.credits, r) <= ConfirmedFriends(s, r)
      && |Rewarded(s.credits, r)| == Min(5, |ConfirmedFriends(s, r)|)
      && (forall f :: f in Rewarded(s.credits, r) <==> CountIf(s.credits, IsReferrerPair(r, f)) == 1)
  {
    hide Run, CountIf, ConfirmedFriends, Rewarded;
    var s := Run(run);
    ReachableIsValid(run);
    forall f
      ensures CountIf(s.credits, IsReferrerPair(r, f)) <= 1
      ensures CountIf(s.credits, IsReferrerPair(r, f)) == 1 ==> f in ConfirmedFriends(s, r)
      ensures CountIf(s.credits, IsReferrerCredit(r)) == Min(5, |ConfirmedFriends(s, r)|)
    {
      ReferralCreditsCountConfirmedFriends(run, r, f);
    }
    assert CountIf(s.credits, IsReferrerCredit(r)) == Min(5, |ConfirmedFriends(s, r)|) by {
      ReferralCreditsCountConfirmedFriends(run, r, r);
    }
    RewardedCounts(s.credits, r);
    forall f | f in Rewarded(s.credits, r) ensures f in ConfirmedFriends(s, r) {
      ReferralCreditsCountConfirmedFriends(run, r, f);
    }
  }

  /** As long as a referrer has at most five confirmed friends, both sides are rewarded for each of them. */
  lemma {:induction false} FirstFiveAreRewarded(run: seq<Event>, r: UserId, f: UserId)
    requires |ConfirmedFriends(Run(run), r)| <= 5 && f in ConfirmedFriends(Run(run), r)
    ensures CountIf(Run(run).credits, IsReferrerPair(r, f)) == CountIf(Run(run).credits, IsFriendPair(r, f)) == 1
  {
    hide Run, CountIf, ConfirmedFriends, Rewarded;
    RewardedFriends(run, r);
    SameSize(Rewarded(Run(run).credits, r), ConfirmedFriends(Run(run), r));
    ReferralCreditsCountConfirmedFriends(run, r, f);
  }

  /** A credit that is there stays, so a rewarded friend stays rewarded. */
  lemma PairsStay(a: State, b: State, r: UserId, f: UserId)
    requires Later(a, b)
    ensures CountIf(a.credits, IsReferrerPair(r, f)) <= CountIf(b.credits, IsReferrerPair(r, f))
  {
    forall i | 0 <= i < |a.credits| && IsReferrerPair(r, f)(a.credits[i])
      ensures IsReferrerPair(r, f)(b.credits[i])
    {
      assert CreditGrows(a.credits[i], b.credits[i]);
    }
    CountMonotone(a.credits, b.credits, IsReferrerPair(r, f), IsReferrerPair(r, f));
  }

  lemma RewardsStay(run: seq<Event>, more: seq<Event>, r: UserId)
    ensures Rewarded(Run(run).credits, r) <= Rewarded(Run(run + more).credits, r)
  {
    hide Run, CountIf, ConfirmedFriends, Rewarded, Later;
    RewardedFriends(run, r);
    RewardedFriends(run + more, r);
    RunsOnlyMoveForward(run, more);
    forall f | f in Rewarded(Run(run).credits, r) ensures f in Rewarded(Run(run + more).credits, r) {
      PairsStay(Run(run), Run(run + more), r, f);
      ReferralCreditsCountConfirmedFriends(run + more, r, f);
    }
  }

  /** One request confirms the applications of one user at most. */
  lemma FriendsStep(s: State, e: Event, r: UserId) returns (g: UserId)
    requires Valid(s)
    ensures ConfirmedFriends(Step(s, e), r) <= ConfirmedFriends(s, r) + {g}
  {
    hide RoomsOk, SessionsOk, CheckInsOk, SeatsOk, BonusesOk, ReferralsOk, CreditsOk, EmittedOk, RoomsGrow,
         CheckInsGrow, SessionsGrow, CreditsGrow, Serve;
    var s' := Step(s, e);
    StepKeeps(s, e);
    g := if e.request.ToMarkPaid? && e.request.app < |s.apps| then s.apps[e.request.app].user else 0;
    ConfirmedBefore(s, e, g);
    forall f | f in ConfirmedFriends(s', r) && f != g ensures f in ConfirmedFriends(s, r) {
      var i :| 0 <= i < |s'.apps| && s'.apps[i].user == f && s'.apps[i].status == AppConfirmed;
      assert s.apps[i].user == f && s.apps[i].status == AppConfirmed;
      assert AppOk(s.rooms, s.profiles.Keys, s.apps[i]);
    }
  }

  lemma ConfirmedBefore(s: State, e: Event, g: UserId)
    requires Valid(s)
    requires e.request.ToMarkPaid? && e.request.app < |s.apps| ==> g == s.apps[e.request.app].user
    ensures var s' := Step(s, e);
      forall i :: 0 <= i < |s'.apps| && s'.apps[i].status == AppConfirmed && s'.apps[i].user != g ==>
        i < |s.apps| && s.apps[i].status == AppConfirmed
  {
    hide Valid;
    match e.request
    case ToMarkPaid(user, app) => PaymentApps(s, user, app, e.now);
    case ToSaveProfile(user, profile) =>
    case _ => OthersAreQuiet(s, e);
  }

  lemma PaymentApps(s: State, user: UserId, app: nat, now: Time)
    ensures var apps' := MarkPaid(s, user, app, now).0.apps;
      apps' == s.apps || (app < |s.apps| && apps' == s.apps[app := s.apps[app].(status := AppConfirmed)])
  {
    hide ConfirmedCount, Threshold, IssueBonus, IssuePair;
  }

  /** Whatever happens afterwards, a friend is rewarded for their first confirmation if and only if fewer than five
      friends of the same referrer were confirmed before: the sixth gets no welcome credit, and neither side ever
      will. */
  lemma {:induction false} RewardedIffAmongFirstFive(run: seq<Event>, e: Event, more: seq<Event>, r: UserId, f: UserId)
    requires f !in ConfirmedFriends(Run(run), r) && f in ConfirmedFriends(Run(run + [e]), r)
    ensures var credits := Run(run + [e] + more).credits;
      CountIf(credits, IsReferrerPair(r, f)) == CountIf(credits, IsFriendPair(r, f))
        == if |ConfirmedFriends(Run(run), r)| < 5 then 1 else 0
  {
    hide Run, Step, CountIf, ConfirmedFriends, Rewarded, Valid;
    var all := run + [e] + more;
    ReferralCreditsCountConfirmedFriends(all, r, f);
    RewardedFriends(all, r);
    if |ConfirmedFriends(Run(run), r)| < 5 {
      ReachableIsValid(run);
      RunNext(run, [e]);
      assert [e][..0] == [] && run + [] == run;
      var g := FriendsStep(Run(run), e, r);
      OneMore(ConfirmedFriends(Run(run + [e]), r), ConfirmedFriends(Run(run), r), g);
      FirstFiveAreRewarded(run + [e], r, f);
      RewardedFriends(run + [e], r);
      RewardsStay(run + [e], more, r);
    } else {
      RewardedFriends(run, r);
      assert all == run + ([e] + more);
      RewardsStay(run, [e] + more, r);
      FullStays(Rewarded(Run(run).credits, r), Rewarded(Run(all).credits, r));
    }
  }

  lemma OneMore<T>(a: set<T>, b: set<T>, g: T)
    requires a <= b + {g}
    ensures |a| <= |b| + 1
  {
    SubsetSize(a, b + {g});
  }

  lemma {:induction false} SubsetSize<T>(a: set<T>, b: set<T>)
    requires a <= b
    ensures |a| <= |b|
  {
    assert b == a + (b - a);
  }

  lemma FullStays<T>(a: set<T>, b: set<T>)
    requires a <= b && |a| == 5 && |b| <= 5
    ensures a == b
  {
    SubsetSize(a, b);
    SameSize(a, b);
  }

  // ---- When a credit can be used -----------------------------------------------------------------------

  /** New credits are ACTIVE. */
  predicate Issues(credits: seq<Credit>, credits': seq<Credit>) {
    && |credits| <= |credits'| && credits'[..|credits|] == credits
    && (forall i :: |credits| <= i < |credits'| ==> credits'[i].status == ActiveCredit)
  }

  lemma PromotionIssuesActive(s: State, room: RoomId, now: Time)
    ensures Issues(s.credits, PromoteIfViable(s, room, now).credits)
  {
    hide ConfirmedCount, Threshold, CountIf;
  }

  lemma EmissionIssuesActive(s: State, user: UserId, now: Time)
    ensures Issues(s.credits, EmitReferral(s, user, now).credits)
  {
    hide CountIf;
  }

  lemma PaymentIssuesActive(s: State, user: UserId, app: nat, now: Time)
    ensures Issues(s.credits, MarkPaid(s, user, app, now).0.credits)
  {
    hide PromoteIfViable, EmitReferral;
    if MarkPaid(s, user, app, now).1.None? {
      var s1 := s.(apps := s.apps[app := s.apps[app].(status := AppConfirmed)]);
      var s2 := PromoteIfViable(s1, s.apps[app].room, now);
      PromotionIssuesActive(s1, s.apps[app].room, now);
      EmissionIssuesActive(s2, s.apps[app].user, now);
      var n, credits' := |s.credits|, EmitReferral(s2, s.apps[app].user, now).credits;
      assert credits'[..n] == credits'[..|s2.credits|][..n];
      forall i | n <= i < |s2.credits| ensures credits'[i] == s2.credits[i] {
        assert credits'[..|s2.credits|][i] == credits'[i];
      }
    }
  }

  /** A credit only becomes EXPIRED in a request that is served when it is overdue. */
  lemma ExpiresWhenOverdue(s: State, e: Event)
    requires Valid(s)
    ensures var credits' := Step(s, e).credits;
      forall i :: 0 <= i < |credits'| && credits'[i].status == Expired ==>
        (i < |s.credits| && s.credits[i].status == Expired) || credits'[i].expiresAt <= e.now
  {
    hide Valid, RoomStays, ConfirmsNobody;
    match e.request
    case ToMarkPaid(user, app) =>
      PaymentIssuesActive(s, user, app, e.now);
      var credits' := Step(s, e).credits;
      assert forall i :: 0 <= i < |s.credits| ==> credits'[i] == credits'[..|s.credits|][i];
    case ToListCredits(user) =>
    case ToSaveProfile(user, profile) =>
    case _ => OthersAreQuiet(s, e);
  }

  /** In every run an EXPIRED credit was overdue at some moment of the run. */
  lemma {:induction false} ExpiredMeansOverdue(run: seq<Event>, i: nat)
    requires i < |Run(run).credits| && Run(run).credits[i].status == Expired
    ensures exists e :: e in run && Run(run).credits[i].expiresAt <= e.now
  {
    hide Valid, Step;
    var before, last := run[..|run| - 1], run[|run| - 1];
    ReachableIsValid(before);
    ExpiresWhenOverdue(Run(before), last);
    if i < |Run(before).credits| && Run(before).credits[i].status == Expired {
      ExpiredMeansOverdue(before, i);
      StepKeeps(Run(before), last);
      assert CreditGrows(Run(before).credits[i], Run(run).credits[i]);
      var e :| e in before && Run(before).credits[i].expiresAt <= e.now;
      assert e in run;
    } else {
      assert last in run;
    }
  }

  function NotOverdue(user: UserId, now: Time): Credit -> bool {
    (c: Credit) => c.user == user && c.expiresAt > now
  }

  /** Lazy expiry is invisible: at any moment from the last request on, the credits a user can use are those that are
      not overdue, whether and whenever their list was looked at. */
  lemma {:induction false} ActiveMeansNotOverdue(run: seq<Event>, user: UserId, now: Time)
    requires forall e :: e in run ==> e.now <= now
    ensures Filter(Run(run).credits, IsActive(user, now)) == Filter(Run(run).credits, NotOverdue(user, now))
  {
    hide Run;
    var credits := Run(run).credits;
    ReachableIsValid(run);
    forall i | 0 <= i < |credits| ensures IsActive(user, now)(credits[i]) <==> NotOverdue(user, now)(credits[i]) {
      assert Genuine(credits[i]);
      if credits[i].status == Expired {
        ExpiredMeansOverdue(run, i);
      }
    }
    FilterSame(credits, IsActive(user, now), NotOverdue(user, now));
  }

  // ---- What a credit is worth -----------------------------------------------------------------------------

  /** A coupon takes 30 percent off, up to 10000, and a referral credit 3000, but never more than the price. */
  function Worth(c: Credit, price: int): int {
    if c.source == ViableHostBonus then if price * 30 / 100 <= 10_000 then price * 30 / 100 else 10_000
    else if price <= 3_000 then price else 3_000
  }

  lemma GenuineWorth(c: Credit, price: int)
    requires Genuine(c) && price >= 0
    ensures EstimateDiscount(c, price) == Worth(c, price)
  {
    if c.source == ViableHostBonus {
      var w := Worth(c, price);
      Discounts.EstimateIsLargest(c, price);
      assert 100 * (price * 30 / 100) <= price * 30;
      assert Discounts.Allowed(c, price, w);
    } else {
      Discounts.EstimateIsLargest(c, price);
      assert Discounts.Allowed(c, price, Worth(c, price));
    }
  }

  /** The best discount of a user in numbers: the largest worth among the credits they hold that are not overdue, or
      nothing. */
  lemma {:induction false} SummaryInNumbers(run: seq<Event>, user: UserId, price: int, now: Time)
    requires price >= 0 && forall e :: e in run ==> e.now <= now
    ensures var credits := Run(run).credits;
      var best := BestAmount(Filter(credits, IsActive(user, now)), price);
      && (forall c :: c in credits && c.user == user && c.expiresAt > now ==> Worth(c, price) <= best)
      && (best == 0
          || exists c :: c in credits && c.user == user && c.expiresAt > now && Worth(c, price) == best)
  {
    hide Run, Worth, EstimateDiscount, BestAmount;
    var credits := Run(run).credits;
    var usable := Filter(credits, NotOverdue(user, now));
    ActiveMeansNotOverdue(run, user, now);
    FilterMembers(credits, NotOverdue(user, now));
    ReachableIsValid(run);
    Discounts.BestAmountIsMaximum(usable, price);
    forall c | c in usable ensures EstimateDiscount(c, price) == Worth(c, price) {
      GenuineWorth(c, price);
    }
    forall c | c in credits && c.user == user && c.expiresAt > now
      ensures Worth(c, price) <= BestAmount(usable, price)
    {
      assert NotOverdue(user, now)(c) && c in usable;
    }
  }

  // ---- The list of credits -----------------------------------------------------------------------------------

  function HeldBy(user: UserId): Credit -> bool {
    (c: Credit) => c.user == user
  }

  /** The list shows the user's credits, each once, in reverse order of issue. */
  lemma {:induction false} ListIsReversed(credits: seq<Credit>, user: UserId)
    ensures var held, listed := Filter(credits, HeldBy(user)), NewestFirst(credits, user);
      && |listed| == |held|
      && (forall i :: 0 <= i < |listed| ==> listed[i] == held[|held| - 1 - i])
      && (forall c :: c in listed <==> c in credits && c.user == user)
  {
    FilterMembers(credits, HeldBy(user));
    if |credits| > 0 {
      ListIsReversed(credits[..|credits| - 1], user);
      assert credits == credits[..|credits| - 1] + [credits[|credits| - 1]];
    }
  }
}
