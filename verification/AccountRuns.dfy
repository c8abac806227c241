/** Accounts as the requests of a run made them: who registered through whom, who is blocked, whose profile says what
    and which planners are approved, read off the requests alone, and what the referral programme pays in these terms.
    */
module AccountRuns {
  import opened Types
  import opened CreditService
  import opened Lifecycle
  import opened LifecycleInvariants
  import opened LifecycleSteps
  import opened LifecycleRuns
  import opened ViabilityRuns
  import CreditRuns

  /** The accounts and the user whose code each of them was registered with. */
  function Registrations(run: seq<Event>): map<UserId, Option<UserId>> {
    if |run| == 0 then map[]
    else
      var before := Registrations(run[..|run| - 1]);
      match run[|run| - 1].request
      case ToRegister(id, referrer) =>
        if id in before || (referrer.Some? && referrer.value !in before) then before else before[id := referrer]
      case _ => before
  }

  /** The accounts that an administrator other than their owner has blocked and not unblocked since. */
  function Blocked(run: seq<Event>): set<UserId> {
    if |run| == 0 then {}
    else
      var front := run[..|run| - 1];
      match run[|run| - 1].request
      case ToSetActive(actor, id, active) =>
        if id !in Registrations(front) || id == actor then Blocked(front)
        else if active then Blocked(front) - {id} else Blocked(front) + {id}
      case _ => Blocked(front)
  }

  /** The last profile that each account has saved. */
  function Saved(run: seq<Event>): map<UserId, Profile> {
    if |run| == 0 then map[]
    else
      var front := run[..|run| - 1];
      match run[|run| - 1].request
      case ToSaveProfile(user, profile) =>
        if user in Registrations(front) then Saved(front)[user := profile] else Saved(front)
      case _ => Saved(front)
  }

  /** Whether each planner was approved last. */
  function Approvals(run: seq<Event>): map<PlannerId, bool> {
    if |run| == 0 then map[]
    else
      match run[|run| - 1].request
      case ToSetPlanner(planner, approved) => Approvals(run[..|run| - 1])[planner := approved]
      case _ => Approvals(run[..|run| - 1])
  }

  /** The account tables hold what the requests said. */
  ghost predicate Remembers(run: seq<Event>, s: State) {
    && s.users.Keys == Registrations(run).Keys
    && (forall u :: u in s.users ==>
          s.users[u].referrer == Registrations(run)[u] && (s.users[u].active <==> u !in Blocked(run)))
    && s.profiles == Saved(run) && s.planners == Approvals(run)
    && Blocked(run) <= Registrations(run).Keys
  }

  /** The accounts are the same, apart from the reward flags. */
  ghost predicate SameAccounts(s: State, s': State) {
    && s'.users.Keys == s.users.Keys && s'.profiles == s.profiles && s'.planners == s.planners
    && (forall u :: u in s.users ==>
          s'.users[u].referrer == s.users[u].referrer && s'.users[u].active == s.users[u].active)
  }

  lemma EmissionLeavesAccounts(s: State, user: UserId, now: Time)
    ensures SameAccounts(s, EmitReferral(s, user, now))
  {
    hide IssuePair;
  }

  lemma PromotionLeavesAccounts(s: State, room: RoomId, now: Time)
    ensures SameAccounts(s, PromoteIfViable(s, room, now))
  {
    hide ConfirmedCount, Threshold, IssueBonus;
  }

  lemma PaymentLeavesAccounts(s: State, user: UserId, app: nat, now: Time)
    ensures SameAccounts(s, MarkPaid(s, user, app, now).0)
  {
    hide PromoteIfViable, EmitReferral;
    if MarkPaid(s, user, app, now).1.None? {
      var s1 := s.(apps := s.apps[app := s.apps[app].(status := AppConfirmed)]);
      PromotionLeavesAccounts(s1, s.apps[app].room, now);
      EmissionLeavesAccounts(PromoteIfViable(s1, s.apps[app].room, now), s.apps[app].user, now);
    }
  }

  lemma SameIsRemembered(run: seq<Event>, s: State, s': State)
    requires |run| > 0 && Remembers(run[..|run| - 1], s) && SameAccounts(s, s')
    requires var r := run[|run| - 1].request;
      !r.ToRegister? && !r.ToSetActive? && !r.ToSaveProfile? && !r.ToSetPlanner?
    ensures Remembers(run, s')
  {
  }

  lemma RegistrationIsRemembered(run: seq<Event>, s: State, id: UserId, referrer: Option<UserId>)
    requires |run| > 0 && Remembers(run[..|run| - 1], s) && run[|run| - 1].request == ToRegister(id, referrer)
    ensures Remembers(run, Register(s, id, referrer).0)
  {
  }

  lemma BlockIsRemembered(run: seq<Event>, s: State, actor: UserId, id: UserId, active: bool)
    requires |run| > 0 && Remembers(run[..|run| - 1], s) && run[|run| - 1].request == ToSetActive(actor, id, active)
    ensures Remembers(run, SetActive(s, actor, id, active).0)
  {
  }

  lemma ProfileIsRemembered(run: seq<Event>, s: State, user: UserId, profile: Profile)
    requires |run| > 0 && Remembers(run[..|run| - 1], s) && run[|run| - 1].request == ToSaveProfile(user, profile)
    ensures Remembers(run, SaveProfile(s, user, profile).0)
  {
  }

  lemma PlannerIsRemembered(run: seq<Event>, s: State, planner: PlannerId, approved: bool)
    requires |run| > 0 && Remembers(run[..|run| - 1], s) && run[|run| - 1].request == ToSetPlanner(planner, approved)
    ensures Remembers(run, SetPlanner(s, planner, approved).0)
  {
  }

  lemma AccountStep(run: seq<Event>, s: State)
    requires |run| > 0 && Valid(s) && Remembers(run[..|run| - 1], s)
    ensures Remembers(run, Step(s, run[|run| - 1]))
  {
    hide Valid, RoomStays, ConfirmsNobody, Remembers, Register, SetActive, SaveProfile, SetPlanner, MarkPaid;
    var e := run[|run| - 1];
    match e.request
    case ToRegister(id, referrer) => RegistrationIsRemembered(run, s, id, referrer);
    case ToSetActive(actor, id, active) => BlockIsRemembered(run, s, actor, id, active);
    case ToSaveProfile(user, profile) => ProfileIsRemembered(run, s, user, profile);
    case ToSetPlanner(planner, approved) => PlannerIsRemembered(run, s, planner, approved);
    case ToMarkPaid(user, app) =>
      PaymentLeavesAccounts(s, user, app, e.now);
      SameIsRemembered(run, s, Step(s, e));
    case _ =>
      OthersAreQuiet(s, e);
      SameIsRemembered(run, s, Step(s, e));
  }

  /** In every reachable state the account tables are exactly what the requests of the run made them. */
  lemma {:induction false} AccountsAreRemembered(run: seq<Event>)
    ensures Remembers(run, Run(run))
  {
    hide Valid, Step;
    if |run| > 0 {
      AccountsAreRemembered(run[..|run| - 1]);
      ReachableIsValid(run[..|run| - 1]);
      AccountStep(run, Run(run[..|run| - 1]));
    }
  }

  /** A registration is accepted if and only if the account is new and the referrer, if any, is registered. */
  lemma {:induction false} RegistrationAcceptedIff(run: seq<Event>, id: UserId, referrer: Option<UserId>, now: Time)
    ensures Serve(Run(run), ToRegister(id, referrer), now).1
         == if id in Registrations(run) || (referrer.Some? && referrer.value !in Registrations(run)) then Some(Conflict)
            else None
  {
    hide Run, Registrations;
    AccountsAreRemembered(run);
  }

  /** After an accepted registration the account has the referrer of the request, whatever happens. */
  lemma {:induction false} ReferrerIsForGood(run: seq<Event>, id: UserId, referrer: Option<UserId>, now: Time,
      more: seq<Event>)
    requires Serve(Run(run), ToRegister(id, referrer), now).1 == None
    ensures var s := Run(run + [At(ToRegister(id, referrer), now)] + more);
      id in s.users && s.users[id].referrer == referrer
  {
    hide Run, Valid, Step, Registrations;
    var e := At(ToRegister(id, referrer), now);
    RegistrationAcceptedIff(run, id, referrer, now);
    AccountsAreRemembered(run + [e]);
    RegistrationNext(run, id, referrer, now);
    RunsOnlyMoveForward(run + [e], more);
  }

  lemma RegistrationNext(run: seq<Event>, id: UserId, referrer: Option<UserId>, now: Time)
    requires id !in Registrations(run) && (referrer.Some? ==> referrer.value in Registrations(run))
    ensures Registrations(run + [At(ToRegister(id, referrer), now)]) == Registrations(run)[id := referrer]
  {
    assert (run + [At(ToRegister(id, referrer), now)])[..|run|] == run;
  }

  /** The accounts that were registered with the user's code and hold a CONFIRMED application. */
  ghost function Recruits(run: seq<Event>, r: UserId): set<UserId> {
    set f | f in Registrations(run) && Registrations(run)[f] == Some(r) && HasConfirmed(Run(run).apps, f)
  }

  /** The programme pays by the registrations of the run: the referrer holds one credit for each of the first five
      friends who registered with their code and were confirmed, and each credit has its counterpart with the friend.
      */
  lemma {:induction false} RewardsFollowRegistrations(run: seq<Event>, r: UserId, f: UserId)
    ensures var credits, friends := Run(run).credits, Recruits(run, r);
      && CountIf(credits, IsReferrerCredit(r)) == (if |friends| <= 5 then |friends| else 5)
      && CountIf(credits, IsReferrerPair(r, f)) == CountIf(credits, IsFriendPair(r, f)) <= 1
      && (CountIf(credits, IsReferrerPair(r, f)) == 1 ==> f in friends)
      && (f in friends && |friends| <= 5 ==> CountIf(credits, IsReferrerPair(r, f)) == 1)
  {
    hide Run, CountIf, HasConfirmed, Registrations;
    AccountsAreRemembered(run);
    ReferralCreditsCountConfirmedFriends(run, r, f);
    assert Recruits(run, r) == ConfirmedFriends(Run(run), r);
    if f in Recruits(run, r) && |Recruits(run, r)| <= 5 {
      CreditRuns.FirstFiveAreRewarded(run, r, f);
    }
  }

  /** A room is created exactly for a registered account that is not blocked, with times in order. */
  lemma {:induction false} CreationAcceptedIff(run: seq<Event>, user: UserId, body: RoomBody, now: Time)
    ensures Serve(Run(run), ToCreateRoom(user, body), now).1
         == if user !in Registrations(run) then Some(Unauthorized)
            else if user in Blocked(run) then Some(Forbidden)
            else if body.endsAt <= body.startsAt then Some(Validation)
            else if body.deadline.Some? && body.startsAt < body.deadline.value then Some(Validation)
            else None
  {
    hide Run, Registrations, Blocked;
    AccountsAreRemembered(run);
  }
}
