/** What holds in every reachable state and across every run, from empty tables. */
module LifecycleRuns {
  import opened Types
  import opened CreditService
  import opened Lifecycle
  import opened RotationTheorems
  import opened LifecycleInvariants
  import opened LifecycleSteps
  import Rotation
  import Discounts

  lemma EmptyIsValid()
    ensures Valid(EMPTY)
  {
    forall r ensures EmittedBy(EMPTY.users, r) == {} {}
  }

  lemma {:induction false} ReachableIsValid(run: seq<Event>)
    ensures Valid(Run(run))
  {
    hide Valid, Grows, Step;
    if |run| == 0 {
      EmptyIsValid();
    } else {
      ReachableIsValid(run[..|run| - 1]);
      StepKeeps(Run(run[..|run| - 1]), run[|run| - 1]);
    }
  }

  // ---- Properties that only some requests can break --------------------------------------------------

  /** `holds` is true at every moment of the run. */
  ghost predicate Always(run: seq<Event>, holds: State -> bool) {
    holds(Run(run)) && (|run| > 0 ==> Always(run[..|run| - 1], holds))
  }

  /** No request of the run was served in a state in which it breaks something. */
  ghost predicate Never(run: seq<Event>, breaks: (State, Request) -> bool) {
    |run| > 0 ==> Never(run[..|run| - 1], breaks) && !breaks(Run(run[..|run| - 1]), run[|run| - 1].request)
  }

  /** What each step keeps exactly when it does not break it holds throughout exactly the runs that never do. */
  lemma {:induction false} AlwaysIffNever(run: seq<Event>, holds: State -> bool, breaks: (State, Request) -> bool)
    requires holds(EMPTY)
    requires forall s, e :: Valid(s) && holds(s) ==> (holds(Step(s, e)) <==> !breaks(s, e.request))
    ensures Always(run, holds) <==> Never(run, breaks)
  {
    hide Valid, Step;
    if |run| > 0 {
      var before := run[..|run| - 1];
      ReachableIsValid(before);
      AlwaysIffNever(before, holds, breaks);
      assert Run(run) == Step(Run(before), run[|run| - 1]);
    }
  }

  /** The same for the requests that follow a run. */
  ghost predicate NeverAfter(run: seq<Event>, more: seq<Event>, breaks: (State, Request) -> bool) {
    |more| > 0 ==>
      var n := |more| - 1;
      NeverAfter(run, more[..n], breaks) && !breaks(Run(run + more[..n]), more[n].request)
  }

  lemma RunNext(run: seq<Event>, more: seq<Event>)
    requires |more| > 0
    ensures Run(run + more) == Step(Run(run + more[..|more| - 1]), more[|more| - 1])
  {
    assert (run + more)[..|run + more| - 1] == run + more[..|more| - 1];
  }

  // ---- Moving forward --------------------------------------------------------------------------

  ghost predicate SessionsLater(a: map<RoomId, Rotation.Session>, b: map<RoomId, Rotation.Session>) {
    forall id :: id in a ==> id in b && SessionLater(a[id], b[id])
  }

  predicate SessionLater(a: Rotation.Session, b: Rotation.Session) {
    && 0 < |a.rounds| == |b.rounds| && Males(b) == Males(a) && Females(b) == Females(a)
    && b.minutes == a.minutes && b.startedAt == a.startedAt
    && a.current <= b.current && (a.status == Rotation.Ended ==> b == a)
  }

  /** `b` can be the state some time after `a`. */
  ghost predicate Later(a: State, b: State) {
    && AppsGrow(a.apps, b.apps) && RoomsGrow(a.rooms, b.rooms) && UsersGrow(a.users, b.users)
    && a.profiles.Keys <= b.profiles.Keys && a.planners.Keys <= b.planners.Keys
    && CheckInsGrow(a.checkins, b.checkins) && SessionsLater(a.sessions, b.sessions)
    && CreditsGrow(a.credits, b.credits)
  }

  lemma LaterRooms(a: seq<Room>, b: seq<Room>, c: seq<Room>)
    requires RoomsGrow(a, b) && RoomsGrow(b, c)
    ensures RoomsGrow(a, c)
  {
    forall i | 0 <= i < |a| ensures RoomGrows(a[i], c[i]) {
      assert RoomGrows(a[i], b[i]) && RoomGrows(b[i], c[i]);
    }
  }

  lemma LaterCredits(a: seq<Credit>, b: seq<Credit>, c: seq<Credit>)
    requires CreditsGrow(a, b) && CreditsGrow(b, c)
    ensures CreditsGrow(a, c)
  {
    forall i | 0 <= i < |a| ensures CreditGrows(a[i], c[i]) {
      assert CreditGrows(a[i], b[i]) && CreditGrows(b[i], c[i]);
    }
  }

  lemma LaterStep(a: State, b: State, c: State)
    requires Later(a, b) && Grows(b, c)
    ensures Later(a, c)
  {
    hide RoomsGrow, CreditsGrow, Males, Females;
    LaterRooms(a.rooms, b.rooms, c.rooms);
    LaterCredits(a.credits, b.credits, c.credits);
  }

  lemma LaterReflexive(s: State)
    requires Valid(s)
    ensures Later(s, s)
  {
    hide Sound, Males, Females, RoomsOk, AppsOk, CheckInsOk, SeatsOk, BonusesOk, ReferralsOk, EmittedOk;
    GrowsReflexive(s);
  }

  /** Whatever happens next, the tables only move forward. */
  lemma {:induction false} RunsOnlyMoveForward(run: seq<Event>, more: seq<Event>)
    ensures Later(Run(run), Run(run + more))
  {
    hide Valid, Grows, Later, Step;
    ReachableIsValid(run);
    if |more| == 0 {
      assert run + more == run;
      LaterReflexive(Run(run));
    } else {
      var n := |more| - 1;
      RunsOnlyMoveForward(run, more[..n]);
      assert (run + more)[..|run + more| - 1] == run + more[..n];
      ReachableIsValid(run + more[..n]);
      StepKeeps(Run(run + more[..n]), more[n]);
      LaterStep(Run(run), Run(run + more[..n]), Run(run + more));
    }
  }

  /** A room's status never goes back; its planner is set exactly from ASSIGNED on and frozen from
      CONFIRMED on; RECRUITING and CANCELLED are unreachable. */
  lemma {:induction false} RoomsNeverGoBack(run: seq<Event>, more: seq<Event>, room: RoomId)
    requires room < |Run(run).rooms|
    ensures room < |Run(run + more).rooms|
    ensures var r, r' := Run(run).rooms[room], Run(run + more).rooms[room];
      && Rank(r.status) <= Rank(r'.status) && r'.host == r.host
      && r'.status != Recruiting && r'.status != Cancelled
      && (r'.planner.Some? <==> Rank(r'.status) >= Rank(Assigned))
      && (Rank(r.status) >= Rank(Confirmed) ==> r'.planner == r.planner)
  {
    ReachableIsValid(run + more);
    RunsOnlyMoveForward(run, more);
    RoomAt(Run(run + more), room);
    hide Run, Valid;
  }

  /** A session exists and is RUNNING iff its room is IN_PROGRESS, and is COMPLETED iff the room is. */
  lemma {:induction false} SessionFollowsRoom(run: seq<Event>, room: RoomId)
    requires room < |Run(run).rooms|
    ensures SessionMatches(Run(run).rooms[room], Run(run).sessions, room)
  {
    hide Run;
    ReachableIsValid(run);
  }

  /** CONFIRMED and REJECTED are absorbing, an application never changes hands or disappears, and the stamps
      always tell its story: nobody is confirmed without an approval. */
  lemma {:induction false} ApplicationsSettle(run: seq<Event>, more: seq<Event>, app: nat)
    requires app < |Run(run).apps|
    ensures app < |Run(run + more).apps|
    ensures var a, a' := Run(run).apps[app], Run(run + more).apps[app];
      && a'.room == a.room && a'.user == a.user && Stamped(a')
      && (a.status in {AppConfirmed, Rejected} ==> a'.status == a.status)
  {
    hide Run;
    RunsOnlyMoveForward(run, more);
    ReachableIsValid(run + more);
    AppAt(Run(run + more), app);
  }

  // ---- Rewards -------------------------------------------------------------------------------------

  /** A user holds one VIABLE bonus per room they host at VIABLE or beyond, and `viable_at` is set
      exactly on those rooms. */
  lemma {:induction false} BonusesCountViableRooms(run: seq<Event>, user: UserId, room: RoomId)
    ensures CountIf(Run(run).credits, BonusOf(user)) == CountIf(Run(run).rooms, ViableRoomOf(user))
    ensures room < |Run(run).rooms| ==>
      var r := Run(run).rooms[room];
      && CountIf(Run(run).credits, BonusFor(room)) == (if Rank(r.status) >= Rank(Viable) then 1 else 0)
      && CountIf(Run(run).credits, IsBonus(r.host, room)) == CountIf(Run(run).credits, BonusFor(room))
      && (r.viableAt.Some? <==> Rank(r.status) >= Rank(Viable))
  {
    hide Run, CountIf;
    ReachableIsValid(run);
    var s := Run(run);
    if room < |s.rooms| {
      RoomAt(s, room);
      CountSame(s.credits, s.credits, IsBonus(s.rooms[room].host, room), BonusFor(room));
    }
  }

  /** The users a referrer brought in who hold a CONFIRMED application. */
  ghost function ConfirmedFriends(s: State, referrer: UserId): set<UserId> {
    set f | f in s.users && s.users[f].referrer == Some(referrer) && HasConfirmed(s.apps, f)
  }

  /** The referral rewards over every run: exactly min(5, confirmed friends) credits for the referrer, each
      matched by one for the friend, and the flag set exactly on confirmed friends. */
  lemma {:induction false} ReferralCreditsCountConfirmedFriends(run: seq<Event>, r: UserId, f: UserId)
    ensures var s := Run(run);
      && CountIf(s.credits, IsReferrerCredit(r)) == Min(5, |ConfirmedFriends(s, r)|)
      && CountIf(s.credits, IsReferrerPair(r, f)) == CountIf(s.credits, IsFriendPair(r, f)) <= 1
      && (CountIf(s.credits, IsReferrerPair(r, f)) == 1 ==> f in ConfirmedFriends(s, r))
      && (f in s.users && s.users[f].referrer == Some(r) ==> (s.users[f].emitted <==> HasConfirmed(s.apps, f)))
  {
    hide Run, CountIf, HasConfirmed;
    ReachableIsValid(run);
    var s := Run(run);
    assert forall g :: g in s.users ==> EmittedRight(s.users, s.apps, g);
    assert ConfirmedFriends(s, r) == EmittedBy(s.users, r);
  }

  /** Whatever credits of a reachable state are offered, the best discount stays between nothing and the
      price, and a dearer room is never cheaper after its discount. */
  lemma {:induction false} ReachableDiscounts(run: seq<Event>, offered: seq<Credit>, price: int, price': int)
    requires forall c :: c in offered ==> c in Run(run).credits
    requires 0 <= price <= price'
    ensures 0 <= BestAmount(offered, price) <= price
    ensures BestAmount(offered, price) <= BestAmount(offered, price')
    ensures price - BestAmount(offered, price) <= price' - BestAmount(offered, price')
  {
    hide Run, EstimateDiscount;
    ReachableIsValid(run);
    assert forall c :: c in offered ==> Genuine(c);
    Discounts.BestAmountBounds(offered, price, price');
  }

  // ---- Check-in and seats --------------------------------------------------------------------------

  /** Everyone seated has exactly one check-in in that room, whose application is their own CONFIRMED
      application to that room, and the only one. */
  lemma {:induction false} SeatedMeansConfirmed(run: seq<Event>, room: RoomId, user: UserId)
    requires Seated(Run(run).sessions, room, user)
    ensures var s := Run(run);
      exists i :: 0 <= i < |s.checkins| && s.checkins[i].room == room && s.checkins[i].user == user
        && CheckInOk(s.apps, s.checkins[i])
        && (forall j :: 0 <= j < |s.checkins| && s.checkins[j].room == room && s.checkins[j].user == user ==> j == i)
        && (forall k :: 0 <= k < |s.apps| && s.apps[k].room == room && s.apps[k].user == user ==>
              k == s.checkins[i].app)
  {
    hide Run, Males, Females, Sound;
    ReachableIsValid(run);
    var s := Run(run);
    assert HasCheckIn(s.checkins, room, user);
    var i :| 0 <= i < |s.checkins| && s.checkins[i].room == room && s.checkins[i].user == user;
    assert CheckInOk(s.apps, s.checkins[i]);
  }

  lemma {:induction false} NothingToOpen(existing: seq<CheckIn>, apps: seq<Application>, room: RoomId,
      draw: UserId -> string, k: nat)
    requires k <= |apps| && CheckInsOk(apps, existing)
    requires forall i :: 0 <= i < k && ConfirmedIn(room)(apps[i]) ==> HasCheckIn(existing, room, apps[i].user)
    ensures OpenedUpTo(existing, apps, room, draw, k) == existing
  {
    if k > 0 {
      NothingToOpen(existing, apps, room, draw, k - 1);
      if ConfirmedIn(room)(apps[k - 1]) {
        var j := FindCheckIn(existing, room, apps[k - 1].user);
        assert HasCheckIn(existing, room, apps[k - 1].user);
        assert CheckInOk(apps, existing[j]);
        assert existing[j := existing[j]] == existing;
      }
    }
  }

  lemma {:induction false} EveryoneOpened(existing: seq<CheckIn>, apps: seq<Application>, room: RoomId,
      draw: UserId -> string, k: nat, i: nat)
    requires i < k <= |apps| && ConfirmedIn(room)(apps[i]) && CheckInsOk(apps, existing)
    ensures HasCheckIn(OpenedUpTo(existing, apps, room, draw, k), room, apps[i].user)
  {
    var rows, rows' := OpenedUpTo(existing, apps, room, draw, k - 1), OpenedUpTo(existing, apps, room, draw, k);
    OpenedRows(existing, apps, room, draw, k - 1);
    var u := apps[i].user;
    if i < k - 1 {
      EveryoneOpened(existing, apps, room, draw, k - 1, i);
      var j :| 0 <= j < |rows| && rows[j].room == room && rows[j].user == u;
      assert rows'[j].room == room && rows'[j].user == u;
    } else {
      var j := FindCheckIn(existing, room, u);
      if j < |existing| {
        assert rows[j] == rows[..|existing|][j];
        assert rows'[j].room == room && rows'[j].user == u;
      } else {
        assert rows'[|rows|].room == room && rows'[|rows|].user == u;
      }
    }
  }

  lemma {:induction false} RowForEach(rows: seq<CheckIn>, apps: seq<Application>, room: RoomId)
    requires forall i :: 0 <= i < |apps| && ConfirmedIn(room)(apps[i]) ==> HasCheckIn(rows, room, apps[i].user)
    ensures |RowsFor(rows, apps, room)| == CountIf(apps, ConfirmedIn(room))
    ensures forall c :: c in RowsFor(rows, apps, room) ==> c in rows && c.room == room
  {
    if |apps| > 0 {
      var n := |apps| - 1;
      RowForEach(rows, apps[..n], room);
      if ConfirmedIn(room)(apps[n]) {
        assert HasCheckIn(rows, room, apps[n].user);
      }
    }
  }

  /** An accepted opening returns one row of the room for every confirmed application. */
  lemma {:induction false} OpeningCoversEveryone(run: seq<Event>, planner: PlannerId, room: RoomId,
      draw: UserId -> string)
    requires OpenCheckIn(Run(run), planner, room, draw).1 == None
    ensures var s := OpenCheckIn(Run(run), planner, room, draw).0; var shown := RowsFor(s.checkins, s.apps, room);
      && |shown| == CountIf(s.apps, ConfirmedIn(room)) > 0
      && (forall c :: c in shown ==> c in s.checkins && c.room == room && CheckInOk(s.apps, c))
  {
    hide Run, CountIf, OpenedUpTo, HasCheckIn, RowsFor;
    ReachableIsValid(run);
    var before, s := Run(run), OpenCheckIn(Run(run), planner, room, draw).0;
    OpenedRows(before.checkins, before.apps, room, draw, |before.apps|);
    forall i | 0 <= i < |s.apps| && ConfirmedIn(room)(s.apps[i]) ensures HasCheckIn(s.checkins, room, s.apps[i].user) {
      EveryoneOpened(before.checkins, before.apps, room, draw, |before.apps|, i);
    }
    RowForEach(s.checkins, s.apps, room);
  }

  /** Opening check-in again changes nothing, whatever codes are drawn; and the first opening leaves every
      existing row, with its status and code, as it was. */
  lemma {:induction false} ReopeningIsIdempotent(run: seq<Event>, planner: PlannerId, room: RoomId,
      draw: UserId -> string, redraw: UserId -> string)
    requires OpenCheckIn(Run(run), planner, room, draw).1 == None
    ensures var s := Run(run); var s' := OpenCheckIn(s, planner, room, draw).0;
      && |s.checkins| <= |s'.checkins| && s'.checkins[..|s.checkins|] == s.checkins
      && OpenCheckIn(s', planner, room, redraw) == (s', None)
  {
    hide Run;
    ReachableIsValid(run);
    Reopening(Run(run), planner, room, draw, redraw);
  }

  lemma {:induction false} Reopening(s: State, planner: PlannerId, room: RoomId, draw: UserId -> string,
      redraw: UserId -> string)
    requires Valid(s) && OpenCheckIn(s, planner, room, draw).1 == None
    ensures var s' := OpenCheckIn(s, planner, room, draw).0;
      && |s.checkins| <= |s'.checkins| && s'.checkins[..|s.checkins|] == s.checkins
      && OpenCheckIn(s', planner, room, redraw) == (s', None)
  {
    hide RoomsOk, AppsOk, SessionsOk, SeatsOk, BonusesOk, ReferralsOk, CreditsOk, EmittedOk, OpenedUpTo, HasCheckIn,
         CountIf;
    var s' := OpenCheckIn(s, planner, room, draw).0;
    OpenedRows(s.checkins, s.apps, room, draw, |s.apps|);
    forall i | 0 <= i < |s.apps| && ConfirmedIn(room)(s.apps[i]) ensures HasCheckIn(s'.checkins, room, s.apps[i].user) {
      EveryoneOpened(s.checkins, s.apps, room, draw, |s.apps|, i);
    }
    NothingToOpen(s'.checkins, s.apps, room, redraw, |s.apps|);
  }
}
