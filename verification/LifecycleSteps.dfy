/** Every request keeps the invariant and only changes the tables in the allowed ways. */
module LifecycleSteps {
  import opened Types
  import opened CreditService
  import opened Lifecycle
  import opened RotationTheorems
  import opened LifecycleInvariants
  import Rotation

  ghost predicate Keeps(s: State, s': State) {
    Valid(s) ==> Valid(s') && Grows(s, s')
  }

  /** A refused request changes nothing. */
  lemma UnchangedKeeps(s: State)
    ensures Keeps(s, s)
  {
    if Valid(s) {
      GrowsReflexive(s);
    }
  }

  // ---- Accounts --------------------------------------------------------------------------------

  lemma RegisterKeeps(s: State, id: UserId, referrer: Option<UserId>)
    ensures Keeps(s, Register(s, id, referrer).0)
  {
    hide SessionsOk, CheckInsOk, SeatsOk, BonusesOk, CreditsOk, AppsGrow, RoomsGrow, CheckInsGrow, SessionsGrow,
         CreditsGrow, CountIf;
    UnchangedKeeps(s);
    var (s', e) := Register(s, id, referrer);
    if Valid(s) && e.None? {
      forall r ensures EmittedBy(s'.users, r) == EmittedBy(s.users, r) {}
      assert forall i :: 0 <= i < |s.apps| ==> AppOk(s.rooms, s.profiles.Keys, s.apps[i]);
      assert !HasConfirmed(s.apps, id);
      forall f | f in s'.users ensures EmittedRight(s'.users, s'.apps, f) {
        assert f != id ==> EmittedRight(s.users, s.apps, f);
      }
    }
  }

  lemma SetActiveKeeps(s: State, actor: UserId, id: UserId, active: bool)
    ensures Keeps(s, SetActive(s, actor, id, active).0)
  {
    hide SessionsOk, AppsOk, RoomsOk, CheckInsOk, SeatsOk, BonusesOk, CreditsOk, AppsGrow, RoomsGrow, CheckInsGrow,
         SessionsGrow, CreditsGrow, CountIf;
    UnchangedKeeps(s);
    var (s', e) := SetActive(s, actor, id, active);
    if Valid(s) && e.None? {
      forall r ensures EmittedBy(s'.users, r) == EmittedBy(s.users, r) {}
      forall f | f in s'.users ensures EmittedRight(s'.users, s'.apps, f) {
        assert EmittedRight(s.users, s.apps, f);
      }
      assert s'.users.Keys == s.users.Keys;
    }
  }

  lemma SaveProfileKeeps(s: State, user: UserId, profile: Profile)
    ensures Keeps(s, SaveProfile(s, user, profile).0)
  {
    hide RoomsOk, SessionsOk, CheckInsOk, BonusesOk, ReferralsOk, CreditsOk, EmittedOk, AppsGrow, RoomsGrow,
         UsersGrow, CheckInsGrow, SessionsGrow, CreditsGrow, Seated, HasCheckIn;
    if Valid(s) {
      GrowsReflexive(s);
    }
  }

  lemma SetPlannerKeeps(s: State, planner: PlannerId, approved: bool)
    ensures Keeps(s, SetPlanner(s, planner, approved).0)
  {
    hide AppsOk, SessionsOk, CheckInsOk, SeatsOk, BonusesOk, ReferralsOk, CreditsOk, EmittedOk, AppsGrow, RoomsGrow,
         UsersGrow, CheckInsGrow, SessionsGrow, CreditsGrow;
    if Valid(s) {
      GrowsReflexive(s);
    }
  }

  // ---- Rooms -----------------------------------------------------------------------------------

  lemma CreateRoomKeeps(s: State, user: UserId, body: RoomBody)
    ensures Keeps(s, CreateRoom(s, user, body).0)
  {
    hide Valid, Grows;
    UnchangedKeeps(s);
    var (s', e) := CreateRoom(s, user, body);
    if Valid(s) && e.None? {
      NewRoomKeeps(s, s'.rooms[|s.rooms|]);
    }
  }

  lemma NewRoomKeeps(s: State, r: Room)
    requires Valid(s) && r.host in s.users && r.startsAt < r.endsAt
    requires r.status == Draft && r.planner.None? && r.viableAt.None?
    ensures var s' := s.(rooms := s.rooms + [r]); Valid(s') && Grows(s, s')
  {
    hide CheckInsOk, SeatsOk, ReferralsOk, CreditsOk, EmittedOk, AppsGrow, UsersGrow, CheckInsGrow, SessionsGrow,
         CreditsGrow, Sound;
    GrowsReflexive(s);
    NewRoomBonuses(s.rooms, s.credits, r);
    assert SessionMatches(r, s.sessions, |s.rooms|);
    assert AppsOk(s.rooms + [r], s.profiles.Keys, s.apps);
  }

  lemma NewRoomBonuses(rooms: seq<Room>, credits: seq<Credit>, r: Room)
    requires BonusesOk(rooms, credits) && r.status == Draft
    ensures BonusesOk(rooms + [r], credits)
  {
    forall u ensures CountIf(rooms + [r], ViableRoomOf(u)) == CountIf(rooms, ViableRoomOf(u)) {
      CountAppend(rooms, r, ViableRoomOf(u));
    }
    CountPositive(credits, BonusFor(|rooms|));
  }

  lemma UpdateRoomKeeps(s: State, user: UserId, room: RoomId, patch: RoomPatch)
    ensures Keeps(s, UpdateRoom(s, user, room, patch).0)
  {
    hide Valid, Grows;
    UnchangedKeeps(s);
    var (s', e) := UpdateRoom(s, user, room, patch);
    if Valid(s) && e.None? {
      RoomAt(s, room);
      RoomRowKeeps(s, room, s'.rooms[room]);
    }
  }

  lemma PublishRoomKeeps(s: State, user: UserId, room: RoomId)
    ensures Keeps(s, PublishRoom(s, user, room).0)
  {
    hide Valid, Grows;
    UnchangedKeeps(s);
    var (s', e) := PublishRoom(s, user, room);
    if Valid(s) && e.None? {
      RoomAt(s, room);
      RoomRowKeeps(s, room, s'.rooms[room]);
    }
  }

  lemma AssignPlannerKeeps(s: State, room: RoomId, planner: PlannerId)
    ensures Keeps(s, AssignPlanner(s, room, planner).0)
  {
    hide Valid, Grows;
    UnchangedKeeps(s);
    var (s', e) := AssignPlanner(s, room, planner);
    if Valid(s) && e.None? {
      RoomAt(s, room);
      RoomRowKeeps(s, room, s'.rooms[room]);
    }
  }

  lemma ConfirmRoomKeeps(s: State, planner: PlannerId, room: RoomId)
    ensures Keeps(s, ConfirmRoom(s, planner, room).0)
  {
    hide Valid, Grows;
    UnchangedKeeps(s);
    var (s', e) := ConfirmRoom(s, planner, room);
    if Valid(s) && e.None? {
      RoomAt(s, room);
      RoomRowKeeps(s, room, s'.rooms[room]);
    }
  }

  // ---- Applications ----------------------------------------------------------------------------

  lemma ApplyKeeps(s: State, user: UserId, room: RoomId, message: Option<string>, now: Time)
    ensures Keeps(s, Apply(s, user, room, message, now).0)
  {
    hide Valid, Grows;
    UnchangedKeeps(s);
    var (s', e) := Apply(s, user, room, message, now);
    if Valid(s) && e.None? {
      var k := FindApp(s.apps, room, user);
      if k < |s.apps| {
        AppAt(s, k);
        AppRowKeeps(s, k, s'.apps[k]);
      } else {
        NewAppKeeps(s, s'.apps[k]);
      }
    }
  }

  lemma NewAppKeeps(s: State, a: Application)
    requires Valid(s) && AppOk(s.rooms, s.profiles.Keys, a) && a.status == Submitted
    requires forall j :: 0 <= j < |s.apps| ==> !(s.apps[j].room == a.room && s.apps[j].user == a.user)
    ensures var s' := s.(apps := s.apps + [a]); Valid(s') && Grows(s, s')
  {
    hide RoomsOk, SessionsOk, SeatsOk, BonusesOk, ReferralsOk, CreditsOk, RoomsGrow, UsersGrow, CheckInsGrow,
         SessionsGrow, CreditsGrow;
    GrowsReflexive(s);
    var apps' := s.apps + [a];
    forall f ensures HasConfirmed(apps', f) <==> HasConfirmed(s.apps, f) {
      if i :| 0 <= i < |apps'| && apps'[i].user == f && apps'[i].status == AppConfirmed {
        assert s.apps[i] == apps'[i];
      }
      if i :| 0 <= i < |s.apps| && s.apps[i].user == f && s.apps[i].status == AppConfirmed {
        assert s.apps[i] == apps'[i];
      }
    }
    assert forall f :: f in s.users ==> EmittedRight(s.users, s.apps, f);
  }

  lemma CancelKeeps(s: State, user: UserId, app: nat, now: Time)
    ensures Keeps(s, Cancel(s, user, app, now).0)
  {
    hide Valid, Grows;
    UnchangedKeeps(s);
    var (s', e) := Cancel(s, user, app, now);
    if Valid(s) && e.None? {
      AppAt(s, app);
      AppRowKeeps(s, app, s'.apps[app]);
    }
  }

  lemma ApproveKeeps(s: State, user: UserId, app: nat, note: Option<string>, now: Time)
    ensures Keeps(s, Approve(s, user, app, note, now).0)
  {
    hide Valid, Grows;
    UnchangedKeeps(s);
    var (s', e) := Approve(s, user, app, note, now);
    if Valid(s) && e.None? {
      AppAt(s, app);
      AppRowKeeps(s, app, s'.apps[app]);
    }
  }

  lemma RejectKeeps(s: State, user: UserId, app: nat, note: Option<string>, now: Time)
    ensures Keeps(s, Reject(s, user, app, note, now).0)
  {
    hide Valid, Grows;
    UnchangedKeeps(s);
    var (s', e) := Reject(s, user, app, note, now);
    if Valid(s) && e.None? {
      AppAt(s, app);
      AppRowKeeps(s, app, s'.apps[app]);
    }
  }

  lemma WaitlistKeeps(s: State, user: UserId, app: nat, note: Option<string>)
    ensures Keeps(s, Waitlist(s, user, app, note).0)
  {
    hide Valid, Grows;
    UnchangedKeeps(s);
    var (s', e) := Waitlist(s, user, app, note);
    if Valid(s) && e.None? {
      AppAt(s, app);
      AppRowKeeps(s, app, s'.apps[app]);
    }
  }

  // ---- Payment, viability and rewards -------------------------------------------------------------

  /** The flags are right for everyone but `f`, whose first confirmation is being processed. */
  ghost predicate EmittedExcept(users: map<UserId, User>, apps: seq<Application>, f: UserId) {
    && (forall g :: g in users && g != f ==> EmittedRight(users, apps, g))
    && (f in users ==> users[f].emitted ==> users[f].referrer.Some?)
  }

  lemma PaidStage(s: State, k: nat)
    requires Valid(s) && k < |s.apps| && s.apps[k].status == Approved
    ensures var s' := s.(apps := s.apps[k := s.apps[k].(status := AppConfirmed)]);
      && Core(s') && Grows(s, s')
      && EmittedExcept(s.users, s'.apps, s.apps[k].user) && HasConfirmed(s'.apps, s.apps[k].user)
  {
    hide RoomsOk, SessionsOk, SeatsOk, BonusesOk, ReferralsOk, CreditsOk, RoomsGrow, UsersGrow, CheckInsGrow,
         SessionsGrow, CreditsGrow;
    GrowsReflexive(s);
    var apps', f := s.apps[k := s.apps[k].(status := AppConfirmed)], s.apps[k].user;
    assert apps'[k].user == f && apps'[k].status == AppConfirmed;
    forall g | g in s.users && g != f ensures EmittedRight(s.users, apps', g) {
      assert EmittedRight(s.users, s.apps, g);
      if i :| 0 <= i < |apps'| && apps'[i].user == g && apps'[i].status == AppConfirmed {
        assert s.apps[i] == apps'[i];
      }
      if i :| 0 <= i < |s.apps| && s.apps[i].user == g && s.apps[i].status == AppConfirmed {
        assert apps'[i] == s.apps[i];
      }
    }
    assert f in s.users ==> EmittedRight(s.users, s.apps, f);
  }

  /** A bonus is issued on promotion, because none exists for a room short of VIABLE. */
  lemma PromotionIssues(s: State, room: RoomId, now: Time)
    requires Core(s) && room < |s.rooms| && Rank(s.rooms[room].status) < Rank(Viable)
    ensures IssueBonus(s.credits, s.rooms[room].host, room, now)
         == s.credits + [HostBonus(s.rooms[room].host, room, now)]
  {
    var host := s.rooms[room].host;
    CountMonotone(s.credits, s.credits, IsBonus(host, room), BonusFor(room));
  }

  lemma BonusLeavesReferrals(users: map<UserId, User>, credits: seq<Credit>, host: UserId, room: RoomId, now: Time)
    requires ReferralsOk(users, credits)
    ensures ReferralsOk(users, credits + [HostBonus(host, room, now)])
  {
    var c := HostBonus(host, room, now);
    forall r ensures CountIf(credits + [c], IsReferrerCredit(r)) == CountIf(credits, IsReferrerCredit(r)) {
      CountAppend(credits, c, IsReferrerCredit(r));
    }
    forall r, f
      ensures CountIf(credits + [c], IsReferrerPair(r, f)) == CountIf(credits, IsReferrerPair(r, f))
      ensures CountIf(credits + [c], IsFriendPair(r, f)) == CountIf(credits, IsFriendPair(r, f))
    {
      CountAppend(credits, c, IsReferrerPair(r, f));
      CountAppend(credits, c, IsFriendPair(r, f));
    }
  }

  lemma PromotionBonuses(rooms: seq<Room>, credits: seq<Credit>, room: RoomId, now: Time)
    requires BonusesOk(rooms, credits) && room < |rooms| && Rank(rooms[room].status) < Rank(Viable)
    ensures BonusesOk(rooms[room := rooms[room].(status := Viable, viableAt := Some(now))],
                      credits + [HostBonus(rooms[room].host, room, now)])
  {
    var rooms', c := rooms[room := rooms[room].(status := Viable, viableAt := Some(now))],
        HostBonus(rooms[room].host, room, now);
    forall r | 0 <= r < |rooms'|
      ensures CountIf(credits + [c], BonusFor(r)) == if Rank(rooms'[r].status) >= Rank(Viable) then 1 else 0
    {
      CountAppend(credits, c, BonusFor(r));
    }
    forall u ensures CountIf(credits + [c], BonusOf(u)) == CountIf(rooms', ViableRoomOf(u)) {
      CountAppend(credits, c, BonusOf(u));
      CountUpdate(rooms, room, rooms'[room], ViableRoomOf(u));
    }
  }

  lemma CoreRoomAt(s: State, k: nat)
    requires Core(s) && k < |s.rooms|
    ensures RoomOk(s.users.Keys, s.planners.Keys, s.rooms[k])
  {
  }

  lemma PromotionKeeps(s: State, room: RoomId, now: Time)
    requires Core(s)
    ensures var s' := PromoteIfViable(s, room, now);
      Core(s') && Grows(s, s') && s'.users == s.users && s'.apps == s.apps
  {
    hide RoomsOk, AppsOk, SessionsOk, CheckInsOk, SeatsOk, BonusesOk, ReferralsOk, AppsGrow, RoomsGrow, UsersGrow,
         CheckInsGrow, SessionsGrow, ConfirmedCount, Threshold, IssueBonus;
    var s' := PromoteIfViable(s, room, now);
    GrowsReflexive(s);
    if s' != s {
      var host := s.rooms[room].host;
      CoreRoomAt(s, room);
      PromotionIssues(s, room, now);
      BonusLeavesReferrals(s.users, s.credits, host, room, now);
      PromotionBonuses(s.rooms, s.credits, room, now);
      RoomTablesKeep(s, room, s'.rooms[room]);
    }
  }

  /** How one referral pair changes the four counts. */
  lemma PairCounts(credits: seq<Credit>, r: UserId, f: UserId, now: Time, r': UserId, f': UserId)
    ensures var credits' := credits + [ReferrerCredit(r, f, now), FriendCredit(r, f, now)];
      var mine, ours := if r' == r then 1 else 0, if r' == r && f' == f then 1 else 0;
      && CountIf(credits', IsReferrerCredit(r')) == CountIf(credits, IsReferrerCredit(r')) + mine
      && CountIf(credits', IsReferrerPair(r', f')) == CountIf(credits, IsReferrerPair(r', f')) + ours
      && CountIf(credits', IsFriendPair(r', f')) == CountIf(credits, IsFriendPair(r', f')) + ours
  {
    var a, b := ReferrerCredit(r, f, now), FriendCredit(r, f, now);
    assert credits + [a, b] == (credits + [a]) + [b];
    CountAppend(credits, a, IsReferrerCredit(r'));
    CountAppend(credits + [a], b, IsReferrerCredit(r'));
    CountAppend(credits, a, IsReferrerPair(r', f'));
    CountAppend(credits + [a], b, IsReferrerPair(r', f'));
    CountAppend(credits, a, IsFriendPair(r', f'));
    CountAppend(credits + [a], b, IsFriendPair(r', f'));
  }

  lemma PairLeavesBonuses(rooms: seq<Room>, credits: seq<Credit>, r: UserId, f: UserId, now: Time)
    requires BonusesOk(rooms, credits)
    ensures BonusesOk(rooms, credits + [ReferrerCredit(r, f, now), FriendCredit(r, f, now)])
  {
    var a, b := ReferrerCredit(r, f, now), FriendCredit(r, f, now);
    assert credits + [a, b] == (credits + [a]) + [b];
    forall x ensures CountIf(credits + [a, b], BonusFor(x)) == CountIf(credits, BonusFor(x)) {
      CountAppend(credits, a, BonusFor(x));
      CountAppend(credits + [a], b, BonusFor(x));
    }
    forall u ensures CountIf(credits + [a, b], BonusOf(u)) == CountIf(credits, BonusOf(u)) {
      CountAppend(credits, a, BonusOf(u));
      CountAppend(credits + [a], b, BonusOf(u));
    }
  }

  /** The flag flips together with the pair: the cap counts the friends already rewarded. */
  lemma EmissionReferrals(users: map<UserId, User>, credits: seq<Credit>, f: UserId, now: Time)
    requires ReferralsOk(users, credits) && f in users && users[f].referrer.Some? && !users[f].emitted
    ensures ReferralsOk(users[f := users[f].(emitted := true)], IssuePair(credits, users[f].referrer.value, f, now))
  {
    hide IssuePair, ReferrerCredit, FriendCredit, CountIf;
    var r, users' := users[f].referrer.value, users[f := users[f].(emitted := true)];
    EmittedOneMore(users, f);
    assert CountIf(credits, IsReferrerPair(r, f)) == 0;
    PairIssued(users, credits, f, now);
    if CountIf(credits, IsReferrerCredit(r)) < MAX_REFERRAL_BONUSES_PER_HOST {
      var credits' := credits + [ReferrerCredit(r, f, now), FriendCredit(r, f, now)];
      forall x ensures CountIf(credits', IsReferrerCredit(x)) == Min(MAX_REFERRAL_BONUSES_PER_HOST,
          |EmittedBy(users', x)|) {
        PairCounts(credits, r, f, now, x, f);
      }
      forall x, g
        ensures CountIf(credits', IsReferrerPair(x, g)) == CountIf(credits', IsFriendPair(x, g)) <= 1
        ensures CountIf(credits', IsReferrerPair(x, g)) > 0 ==> g in EmittedBy(users', x)
      {
        PairCounts(credits, r, f, now, x, g);
      }
    }
  }

  lemma EmittedOneMore(users: map<UserId, User>, f: UserId)
    requires f in users && users[f].referrer.Some? && !users[f].emitted
    ensures var r, users' := users[f].referrer.value, users[f := users[f].(emitted := true)];
      && f !in EmittedBy(users, r)
      && EmittedBy(users', r) == EmittedBy(users, r) + {f}
      && (forall x :: x != r ==> EmittedBy(users', x) == EmittedBy(users, x))
  {
  }

  lemma PairIssued(users: map<UserId, User>, credits: seq<Credit>, f: UserId, now: Time)
    requires f in users && users[f].referrer.Some?
    requires CountIf(credits, IsReferrerPair(users[f].referrer.value, f)) == 0
    ensures var r := users[f].referrer.value;
      && IssuePair(credits, r, f, now)
         == (if CountIf(credits, IsReferrerCredit(r)) < MAX_REFERRAL_BONUSES_PER_HOST
             then credits + [ReferrerCredit(r, f, now), FriendCredit(r, f, now)] else credits)
      && ReferrerCredit(r, f, now).sourceUser.Some? && FriendCredit(r, f, now).sourceUser.Some?
  {
  }

  lemma EmissionKeeps(s: State, f: UserId, now: Time)
    requires Core(s) && EmittedExcept(s.users, s.apps, f) && HasConfirmed(s.apps, f)
    ensures var s' := EmitReferral(s, f, now); Valid(s') && Grows(s, s')
  {
    hide RoomsOk, AppsOk, SessionsOk, CheckInsOk, SeatsOk, BonusesOk, ReferralsOk, AppsGrow, RoomsGrow,
         CheckInsGrow, SessionsGrow, HasConfirmed, CountIf;
    var s' := EmitReferral(s, f, now);
    GrowsReflexive(s);
    forall g | g in s'.users ensures EmittedRight(s'.users, s'.apps, g) {
      assert g != f ==> EmittedRight(s.users, s.apps, g);
    }
    if s' != s {
      EmissionReferrals(s.users, s.credits, f, now);
      PairLeavesBonuses(s.rooms, s.credits, s.users[f].referrer.value, f, now);
      assert s'.users.Keys == s.users.Keys;
    }
  }

  lemma GrowsTransitive(a: State, b: State, c: State)
    requires Grows(a, b) && Grows(b, c) && a.sessions == b.sessions == c.sessions
    ensures Grows(a, c)
  {
    forall i | 0 <= i < |a.credits| ensures CreditGrows(a.credits[i], c.credits[i]) {
      assert CreditGrows(a.credits[i], b.credits[i]) && CreditGrows(b.credits[i], c.credits[i]);
    }
    forall i | 0 <= i < |a.rooms| ensures RoomGrows(a.rooms[i], c.rooms[i]) {
      assert RoomGrows(a.rooms[i], b.rooms[i]) && RoomGrows(b.rooms[i], c.rooms[i]);
    }
  }

  lemma SameSessions(s1: State, s2: State, room: RoomId, user: UserId, now: Time)
    requires s2 == PromoteIfViable(s1, room, now)
    ensures s2.sessions == s1.sessions && EmitReferral(s2, user, now).sessions == s1.sessions
  {
  }

  lemma ApprovedToPay(s: State, k: nat)
    requires Valid(s) && k < |s.apps| && s.apps[k].status in {Approved, PaymentPending, Paid}
    ensures s.apps[k].status == Approved
  {
    assert AppOk(s.rooms, s.profiles.Keys, s.apps[k]);
  }

  lemma MarkPaidKeeps(s: State, user: UserId, app: nat, now: Time)
    ensures Keeps(s, MarkPaid(s, user, app, now).0)
  {
    hide Core, EmittedOk, Grows, EmittedExcept, HasConfirmed, PromoteIfViable, EmitReferral;
    UnchangedKeeps(s);
    var (s', e) := MarkPaid(s, user, app, now);
    if Valid(s) {
      if e.None? {
        var s1 := s.(apps := s.apps[app := s.apps[app].(status := AppConfirmed)]);
        var s2 := PromoteIfViable(s1, s.apps[app].room, now);
        assert s.apps[app].status == Approved by { ApprovedToPay(s, app); }
        PaidStage(s, app);
        PromotionKeeps(s1, s.apps[app].room, now);
        EmissionKeeps(s2, s.apps[app].user, now);
        SameSessions(s1, s2, s.apps[app].room, s.apps[app].user, now);
        GrowsTransitive(s, s1, s2);
        GrowsTransitive(s, s2, s');
      }
    }
  }

  lemma ListCreditsKeeps(s: State, user: UserId, now: Time)
    ensures Keeps(s, ListCredits(s, user, now).0)
  {
    hide RoomsOk, AppsOk, SessionsOk, CheckInsOk, SeatsOk, BonusesOk, ReferralsOk, EmittedOk, AppsGrow, RoomsGrow,
         UsersGrow, CheckInsGrow, SessionsGrow;
    if Valid(s) {
      GrowsReflexive(s);
      var c' := ExpireAll(s.credits, user, now);
      StatusLeavesBonuses(s.rooms, s.credits, c');
      StatusLeavesReferrals(s.users, s.credits, c');
      forall c | c in c' ensures Genuine(c) {
        var i :| 0 <= i < |c'| && c'[i] == c;
        assert s.credits[i] in s.credits;
      }
    }
  }

  /** Only the status of credits changes. */
  predicate SameButStatus(credits: seq<Credit>, credits': seq<Credit>) {
    && |credits| == |credits'|
    && (forall i :: 0 <= i < |credits| ==> credits'[i] == credits[i].(status := credits'[i].status))
  }

  lemma StatusLeavesBonuses(rooms: seq<Room>, c: seq<Credit>, c': seq<Credit>)
    requires BonusesOk(rooms, c) && SameButStatus(c, c')
    ensures BonusesOk(rooms, c')
  {
    forall r ensures CountIf(c', BonusFor(r)) == CountIf(c, BonusFor(r)) {
      CountSame(c', c, BonusFor(r), BonusFor(r));
    }
    forall u ensures CountIf(c', BonusOf(u)) == CountIf(c, BonusOf(u)) {
      CountSame(c', c, BonusOf(u), BonusOf(u));
    }
  }

  lemma StatusLeavesReferrals(users: map<UserId, User>, c: seq<Credit>, c': seq<Credit>)
    requires ReferralsOk(users, c) && SameButStatus(c, c')
    ensures ReferralsOk(users, c')
  {
    forall r ensures CountIf(c', IsReferrerCredit(r)) == CountIf(c, IsReferrerCredit(r)) {
      CountSame(c', c, IsReferrerCredit(r), IsReferrerCredit(r));
    }
    forall r, f
      ensures CountIf(c', IsReferrerPair(r, f)) == CountIf(c, IsReferrerPair(r, f))
      ensures CountIf(c', IsFriendPair(r, f)) == CountIf(c, IsFriendPair(r, f))
    {
      CountSame(c', c, IsReferrerPair(r, f), IsReferrerPair(r, f));
      CountSame(c', c, IsFriendPair(r, f), IsFriendPair(r, f));
    }
  }

  // ---- Check-in --------------------------------------------------------------------------------

  /** Opening check-in adds rows only for confirmed applications and leaves existing rows untouched. */
  lemma {:induction false} OpenedRows(existing: seq<CheckIn>, apps: seq<Application>, room: RoomId,
      draw: UserId -> string, k: nat)
    requires k <= |apps| && CheckInsOk(apps, existing)
    ensures var rows := OpenedUpTo(existing, apps, room, draw, k);
      && rows[..|existing|] == existing
      && (forall i :: 0 <= i < |rows| ==> CheckInOk(apps, rows[i]))
  {
    if k > 0 {
      OpenedRows(existing, apps, room, draw, k - 1);
      var rows := OpenedUpTo(existing, apps, room, draw, k - 1);
      if ConfirmedIn(room)(apps[k - 1]) {
        var j := FindCheckIn(existing, room, apps[k - 1].user);
        if j < |existing| {
          assert rows[j] == rows[..|existing|][j];
          assert Reopened(rows[j], draw(apps[k - 1].user)) == rows[j];
        }
      }
    }
  }

  lemma OpenCheckInKeeps(s: State, planner: PlannerId, room: RoomId, draw: UserId -> string)
    ensures Keeps(s, OpenCheckIn(s, planner, room, draw).0)
  {
    hide RoomsOk, AppsOk, SessionsOk, BonusesOk, ReferralsOk, CreditsOk, EmittedOk, RoomsGrow, UsersGrow, AppsGrow,
         SessionsGrow, CreditsGrow, Seated;
    var (s', e) := OpenCheckIn(s, planner, room, draw);
    if Valid(s) {
      GrowsReflexive(s);
      if e.None? {
        OpenedRows(s.checkins, s.apps, room, draw, |s.apps|);
        forall i | 0 <= i < |s.checkins| ensures s'.checkins[i] == s.checkins[i] {
          assert s'.checkins[..|s.checkins|][i] == s.checkins[i];
        }
        forall r, u | HasCheckIn(s.checkins, r, u) ensures HasCheckIn(s'.checkins, r, u) {
          var i :| 0 <= i < |s.checkins| && s.checkins[i].room == r && s.checkins[i].user == u;
          assert s'.checkins[i] == s.checkins[i];
        }
      }
    }
  }

  lemma ConfirmCheckInKeeps(s: State, planner: PlannerId, row: nat, now: Time)
    ensures Keeps(s, ConfirmCheckIn(s, planner, row, now).0)
  {
    hide Valid, Grows;
    UnchangedKeeps(s);
    var (s', e) := ConfirmCheckIn(s, planner, row, now);
    if Valid(s) && e.None? {
      CheckInRowKeeps(s, row, s'.checkins[row]);
    }
  }

  lemma MarkNoShowKeeps(s: State, planner: PlannerId, row: nat)
    ensures Keeps(s, MarkNoShow(s, planner, row).0)
  {
    hide Valid, Grows;
    UnchangedKeeps(s);
    var (s', e) := MarkNoShow(s, planner, row);
    if Valid(s) && e.None? {
      CheckInRowKeeps(s, row, s'.checkins[row]);
    }
  }

  // ---- Rotation --------------------------------------------------------------------------------

  predicate Attending(rows: seq<CheckIn>, profiles: map<UserId, Profile>, room: RoomId, gender: Gender, u: UserId) {
    exists i :: 0 <= i < |rows| && rows[i].user == u && Attends(rows[i], profiles, room, gender)
  }

  lemma AttendingStep(rows: seq<CheckIn>, profiles: map<UserId, Profile>, room: RoomId, gender: Gender, u: UserId)
    requires |rows| > 0
    ensures var n := |rows| - 1;
      Attending(rows, profiles, room, gender, u) <==>
        Attending(rows[..n], profiles, room, gender, u) || (rows[n].user == u && Attends(rows[n], profiles, room,
            gender))
  {
    var n := |rows| - 1;
    if i :| 0 <= i < n && rows[i].user == u && Attends(rows[i], profiles, room, gender) {
      assert rows[..n][i] == rows[i];
    }
    if i :| 0 <= i < n && rows[..n][i].user == u && Attends(rows[..n][i], profiles, room, gender) {
      assert rows[..n][i] == rows[i];
    }
  }

  /** Who attends: the users of the rows that are checked in with a gender, each once. */
  lemma {:induction false} AttendeesAre(rows: seq<CheckIn>, profiles: map<UserId, Profile>, room: RoomId,
      gender: Gender)
    requires UniqueRows(rows)
    ensures NoRepeats(Attendees(rows, profiles, room, gender))
    ensures forall u :: u in Attendees(rows, profiles, room, gender) <==> Attending(rows, profiles, room, gender, u)
  {
    if |rows| > 0 {
      var n := |rows| - 1;
      var front := Attendees(rows[..n], profiles, room, gender);
      AttendeesAre(rows[..n], profiles, room, gender);
      forall u ensures u in Attendees(rows, profiles, room, gender) <==> Attending(rows, profiles, room, gender, u) {
        AttendingStep(rows, profiles, room, gender, u);
      }
      assert Attends(rows[n], profiles, room, gender) ==> rows[n].user !in front by {
        assert forall i :: 0 <= i < n ==> rows[..n][i] == rows[i];
      }
    }
  }

  predicate Increasing(s: seq<UserId>) {
    forall i, j :: 0 <= i < j < |s| ==> s[i] < s[j]
  }

  lemma {:induction false} InsertSorts(x: UserId, s: seq<UserId>)
    requires Increasing(s) && x !in s
    ensures Increasing(Insert(x, s)) && forall u :: u in Insert(x, s) <==> u == x || u in s
  {
    if |s| > 0 && x > s[0] {
      InsertSorts(x, s[1..]);
      var rest := Insert(x, s[1..]);
      forall k | 0 <= k < |rest| ensures s[0] < rest[k] {
        assert rest[k] in rest;
        assert rest[k] != x ==> rest[k] in s[1..];
      }
    }
  }

  /** Sorting keeps the members and puts them in increasing order. */
  lemma {:induction false} SortedSorts(s: seq<UserId>)
    requires NoRepeats(s)
    ensures Increasing(Sorted(s)) && forall u :: u in Sorted(s) <==> u in s
  {
    if |s| > 0 {
      SortedSorts(s[1..]);
      InsertSorts(s[0], Sorted(s[1..]));
    }
  }

  /** A group is everyone who is checked in with that gender, in increasing order. */
  lemma GroupIs(s: State, room: RoomId, gender: Gender)
    requires UniqueRows(s.checkins)
    ensures Increasing(Group(s, room, gender)) && NoRepeats(Group(s, room, gender))
    ensures forall u :: u in Group(s, room, gender) <==> Attending(s.checkins, s.profiles, room, gender, u)
  {
    AttendeesAre(s.checkins, s.profiles, room, gender);
    SortedSorts(Attendees(s.checkins, s.profiles, room, gender));
  }

  lemma GroupsAreDisjoint(s: State, room: RoomId)
    requires UniqueRows(s.checkins) && |Group(s, room, Male)| == |Group(s, room, Female)|
    ensures Balanced(Group(s, room, Male), Group(s, room, Female))
    ensures forall u :: u in Group(s, room, Male) || u in Group(s, room, Female) ==>
      u in s.profiles && HasCheckIn(s.checkins, room, u)
  {
    GroupIs(s, room, Male);
    GroupIs(s, room, Female);
    hide Group;
    var males, females := Group(s, room, Male), Group(s, room, Female);
    forall i, j | 0 <= i < |males| && 0 <= j < |females| ensures males[i] != females[j] {
      assert males[i] in males && females[j] in females;
    }
  }

  lemma StartSessionKeeps(s: State, planner: PlannerId, room: RoomId, minutes: int, now: Time)
    ensures Keeps(s, StartSession(s, planner, room, minutes, now).0)
  {
    hide AppsOk, CheckInsOk, SeatsOk, BonusesOk, ReferralsOk, CreditsOk, EmittedOk, RoomsGrow, RoomsOk, SessionsOk,
         AppsGrow, UsersGrow, CheckInsGrow, SessionsGrow, CreditsGrow, Group, Rotation.Started, Grows;
    UnchangedKeeps(s);
    var (s', e) := StartSession(s, planner, room, minutes, now);
    if Valid(s) && e.None? {
      RoomAt(s, room);
      StartedSession(s, room, minutes, now);
      BeginKeeps(s, room, s.rooms[room].(status := InProgress), s'.sessions[room]);
    }
  }

  lemma StartedSession(s: State, room: RoomId, minutes: int, now: Time)
    requires CheckInsOk(s.apps, s.checkins)
    requires |Group(s, room, Male)| == |Group(s, room, Female)| > 0
    ensures var session := Rotation.Started(Group(s, room, Male), Group(s, room, Female), now, minutes);
      && Sound(session) && session.status == Rotation.Running && session.current == 1
      && (forall u :: u in Males(session) || u in Females(session) ==> u in s.profiles && HasCheckIn(s.checkins,
          room, u))
  {
    hide Group;
    GroupsAreDisjoint(s, room);
    StartedIsSound(Group(s, room, Male), Group(s, room, Female), now, minutes);
  }

  /** A session begins in a CONFIRMED room. */
  lemma BeginKeeps(s: State, room: RoomId, r': Room, session: Rotation.Session)
    requires Valid(s) && room < |s.rooms| && s.rooms[room].status == Confirmed && r'
        == s.rooms[room].(status := InProgress)
    requires room !in s.sessions
    requires Sound(session) && session.status == Rotation.Running && session.current == 1
    requires forall u :: u in Males(session) || u in Females(session) ==>
      u in s.profiles && HasCheckIn(s.checkins, room, u)
    ensures var s' := s.(sessions := s.sessions[room := session], rooms := s.rooms[room := r']);
      Valid(s') && Grows(s, s')
  {
    hide CheckInsOk, BonusesOk, ReferralsOk, CreditsOk, EmittedOk, AppsGrow, UsersGrow, CheckInsGrow, CreditsGrow,
         Sound, HasCheckIn, Males, Females;
    GrowsReflexive(s);
    SameViableRooms(s.rooms, s.credits, room, r');
    var sessions', rooms' := s.sessions[room := session], s.rooms[room := r'];
    forall id | 0 <= id < |rooms'| ensures SessionMatches(rooms'[id], sessions', id) {
      assert SessionMatches(s.rooms[id], s.sessions, id);
    }
    forall id, user | Seated(sessions', id, user) ensures HasCheckIn(s.checkins, id, user) && user in s.profiles {
      assert id != room ==> Seated(s.sessions, id, user);
    }
  }

  /** A session moves on, or ends together with its room. */
  lemma SessionKeeps(s: State, room: RoomId, r': Room, session: Rotation.Session)
    requires Valid(s) && room < |s.rooms| && room in s.sessions && Sound(session)
    requires SessionGrows(s.sessions[room], session) && s.sessions[room].status == Rotation.Running
    requires r' == s.rooms[room].(status := if session.status == Rotation.Ended then Completed else InProgress)
    ensures var s' := s.(sessions := s.sessions[room := session], rooms := s.rooms[room := r']);
      Valid(s') && Grows(s, s')
  {
    hide CheckInsOk, BonusesOk, ReferralsOk, CreditsOk, EmittedOk, AppsGrow, UsersGrow, CheckInsGrow, CreditsGrow,
         HasCheckIn, Males, Females, Balanced;
    GrowsReflexive(s);
    assert SessionMatches(s.rooms[room], s.sessions, room);
    SameViableRooms(s.rooms, s.credits, room, r');
    var sessions', rooms' := s.sessions[room := session], s.rooms[room := r'];
    forall id | 0 <= id < |rooms'| ensures SessionMatches(rooms'[id], sessions', id) {
      assert SessionMatches(s.rooms[id], s.sessions, id);
    }
    forall id, user | Seated(sessions', id, user) ensures HasCheckIn(s.checkins, id, user) && user in s.profiles {
      assert Seated(s.sessions, id, user);
    }
  }

  lemma RunningRoom(s: State, room: RoomId)
    requires Valid(s) && room in s.sessions
    ensures room < |s.rooms| && Sound(s.sessions[room]) && SessionMatches(s.rooms[room], s.sessions, room)
  {
  }

  lemma NextRoundKeeps(s: State, planner: PlannerId, room: RoomId, now: Time)
    ensures Keeps(s, NextRound(s, planner, room, now).0)
  {
    hide Valid, Grows, Sound, Males, Females, Rotation.Advance;
    UnchangedKeeps(s);
    var (s', e) := NextRound(s, planner, room, now);
    if Valid(s) && e.None? {
      RunningRoom(s, room);
      AdvanceIsSound(s.sessions[room], now);
      SoundSizes(s.sessions[room]);
      SameStatus(s.sessions[room], now);
      SessionKeeps(s, room, s.rooms[room], s'.sessions[room]);
      assert s.rooms[room := s.rooms[room]] == s.rooms;
    }
  }

  lemma SameStatus(session: Rotation.Session, now: Time)
    ensures var (session', e) := Rotation.Advance(session, now);
      session'.status == session.status && (e == Some(Rotation.NotRunning) <==> session.status != Rotation.Running)
  {
  }

  lemma EndSessionKeeps(s: State, planner: PlannerId, room: RoomId, now: Time)
    ensures Keeps(s, EndSession(s, planner, room, now).0)
  {
    hide Valid, Grows, Sound, Males, Females, Rotation.Finish;
    UnchangedKeeps(s);
    var (s', e) := EndSession(s, planner, room, now);
    if Valid(s) && e.None? {
      RunningRoom(s, room);
      FinishIsSound(s.sessions[room], now);
      SoundSizes(s.sessions[room]);
      SessionKeeps(s, room, s'.rooms[room], s'.sessions[room]);
    }
  }

  // ---- Any request -------------------------------------------------------------------------------

  /** Every request, accepted or refused, keeps the invariant and changes the tables only in the allowed ways. */
  lemma {:induction false} StepKeeps(s: State, e: Event)
    ensures Keeps(s, Step(s, e))
  {
    hide Keeps;
    match e.request
    case ToRegister(id, referrer) => RegisterKeeps(s, id, referrer);
    case ToSetActive(actor, id, active) => SetActiveKeeps(s, actor, id, active);
    case ToSaveProfile(user, profile) => SaveProfileKeeps(s, user, profile);
    case ToSetPlanner(planner, approved) => SetPlannerKeeps(s, planner, approved);
    case ToCreateRoom(user, body) => CreateRoomKeeps(s, user, body);
    case ToUpdateRoom(user, room, patch) => UpdateRoomKeeps(s, user, room, patch);
    case ToPublishRoom(user, room) => PublishRoomKeeps(s, user, room);
    case ToApply(user, room, message) => ApplyKeeps(s, user, room, message, e.now);
    case ToCancel(user, app) => CancelKeeps(s, user, app, e.now);
    case ToApprove(user, app, note) => ApproveKeeps(s, user, app, note, e.now);
    case ToReject(user, app, note) => RejectKeeps(s, user, app, note, e.now);
    case ToWaitlist(user, app, note) => WaitlistKeeps(s, user, app, note);
    case ToMarkPaid(user, app) => MarkPaidKeeps(s, user, app, e.now);
    case ToListCredits(user) => ListCreditsKeeps(s, user, e.now);
    case ToAssignPlanner(room, planner) => AssignPlannerKeeps(s, room, planner);
    case ToConfirmRoom(planner, room) => ConfirmRoomKeeps(s, planner, room);
    case ToOpenCheckIn(planner, room, draw) => OpenCheckInKeeps(s, planner, room, draw);
    case ToConfirmCheckIn(planner, row) => ConfirmCheckInKeeps(s, planner, row, e.now);
    case ToMarkNoShow(planner, row) => MarkNoShowKeeps(s, planner, row);
    case ToStartSession(planner, room, minutes) => StartSessionKeeps(s, planner, room, minutes, e.now);
    case ToNextRound(planner, room) => NextRoundKeeps(s, planner, room, e.now);
    case ToEndSession(planner, room) => EndSessionKeeps(s, planner, room, e.now);
  }
}
