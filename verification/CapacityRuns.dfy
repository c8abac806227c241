/** Confirmed rooms stay within their capacities, and deadlines before their events, except when a request that the
    code does not refuse says otherwise. */
module CapacityRuns {
  import opened Types
  import opened CreditService
  import opened Lifecycle
  import opened LifecycleInvariants
  import opened LifecycleSteps
  import opened LifecycleRuns
  import opened ViabilityRuns

  /** While viability holds, a planner's confirmation is decided by the capacities alone: somebody is always
      confirmed, and a confirmed room holds at least half of each capacity and no more than all of it. */
  lemma {:induction false} ConfirmationFitsCapacity(s: State, planner: PlannerId, room: RoomId)
    requires AllViable(s) && PlannerRefusal(s, planner, room) == None && s.rooms[room].status == Assigned
    ensures var r, men, women, error := s.rooms[room], ConfirmedCount(s, room, Male), ConfirmedCount(s, room, Female),
                                        ConfirmRoom(s, planner, room).1;
      && error == (if men <= r.maleCap && women <= r.femaleCap then None else Some(OverCapacity))
      && (error == None ==> (r.maleCap + 1) / 2 <= men <= r.maleCap && (r.femaleCap + 1) / 2 <= women <= r.femaleCap)
  {
    hide ConfirmedCount, Threshold;
    assert StillViable(s, room);
    ThresholdIsHalf(s.rooms[room].maleCap);
    ThresholdIsHalf(s.rooms[room].femaleCap);
  }

  // ---- Staying within the capacities -------------------------------------------------------------------

  predicate Fits(s: State, room: RoomId, gender: Gender)
    requires room < |s.rooms| && gender != Other
  {
    Rank(s.rooms[room].status) >= Rank(Confirmed) ==>
      ConfirmedCount(s, room, gender) <= CapacityOf(s.rooms[room], gender)
  }

  /** Every room at CONFIRMED or beyond has no more confirmed participants of either gender than seats. */
  ghost predicate AllFit(s: State) {
    forall room, gender :: 0 <= room < |s.rooms| && gender != Other ==> Fits(s, room, gender)
  }

  /** The room is at CONFIRMED or beyond and the gender has no seat left. */
  predicate Full(s: State, room: RoomId, gender: Gender)
    requires room < |s.rooms| && gender != Other
  {
    Rank(s.rooms[room].status) >= Rank(Confirmed)
    && ConfirmedCount(s, room, gender) == CapacityOf(s.rooms[room], gender)
  }

  /** The host marks an approved application to a confirmed room as paid, and the applicant's gender is full. */
  predicate OverPays(s: State, user: UserId, app: nat) {
    && CuratorRefusal(s, user, app).None? && s.apps[app].status == Approved
    && s.apps[app].user in s.profiles && s.profiles[s.apps[app].user].gender != Other
    && Full(s, s.apps[app].room, s.profiles[s.apps[app].user].gender)
  }

  /** The profile to be saved brings a confirmed participant of a confirmed room into a gender that is full. */
  predicate OverJoins(s: State, user: UserId, profile: Profile) {
    profile.gender != Other
    && exists room :: 0 <= room < |s.rooms| && Joins(s, user, profile, room, profile.gender)
        && Full(s, room, profile.gender)
  }

  predicate Overfills(s: State, r: Request) {
    (r.ToMarkPaid? && OverPays(s, r.user, r.app)) || (r.ToSaveProfile? && OverJoins(s, r.user, r.profile))
  }

  lemma NothingToFit()
    ensures AllFit(EMPTY)
  {
  }

  /** What a payment does to the confirmed counts. */
  lemma PaidCount(s: State, user: UserId, app: nat, now: Time, room: RoomId, gender: Gender)
    requires Valid(s) && MarkPaid(s, user, app, now).1 == None
    ensures var s', a := MarkPaid(s, user, app, now).0, s.apps[app];
      ConfirmedCount(s', room, gender) == ConfirmedCount(s, room, gender)
        + if a.room == room && a.user in s.profiles && s.profiles[a.user].gender == gender then 1 else 0
  {
    hide Valid, IssueBonus, IssuePair, Threshold, CountIf;
    ApprovedToPay(s, app);
    var s', a := MarkPaid(s, user, app, now).0, s.apps[app].(status := AppConfirmed);
    assert s'.apps == s.apps[app := a] && s'.profiles == s.profiles;
    CountUpdate(s.apps, app, a, ConfirmedOf(s.profiles, room, gender));
  }

  /** A payment leaves every room at CONFIRMED or beyond as it is, and takes none there. */
  lemma PaymentLeavesConfirmed(s: State, user: UserId, app: nat, now: Time, room: RoomId)
    requires room < |s.rooms|
    ensures var s' := MarkPaid(s, user, app, now).0;
      && |s'.rooms| == |s.rooms|
      && (s'.rooms[room] == s.rooms[room]
          || (Rank(s.rooms[room].status) < Rank(Viable) && s'.rooms[room].status == Viable))
      && s'.rooms[room].startsAt == s.rooms[room].startsAt && s'.rooms[room].deadline == s.rooms[room].deadline
  {
    hide ConfirmedCount, Threshold, IssueBonus, IssuePair;
  }

  /** The payment seats the applicant in that gender of that room. */
  predicate Seats(s: State, app: nat, room: RoomId, gender: Gender)
    requires app < |s.apps|
  {
    var a := s.apps[app];
    a.room == room && a.user in s.profiles && s.profiles[a.user].gender == gender
  }

  lemma RoomFitsIff(s: State, user: UserId, app: nat, now: Time, room: RoomId, gender: Gender)
    requires Valid(s) && MarkPaid(s, user, app, now).1 == None
    requires room < |s.rooms| && gender != Other && Fits(s, room, gender)
    ensures var s' := MarkPaid(s, user, app, now).0;
      |s'.rooms| == |s.rooms| && (Fits(s', room, gender) <==> !(Seats(s, app, room, gender) && Full(s, room, gender)))
  {
    hide Valid, ConfirmedCount, EmitReferral, PromoteIfViable;
    PaidCount(s, user, app, now, room, gender);
    PaymentLeavesConfirmed(s, user, app, now, room);
  }

  lemma PaymentFitsIff(s: State, user: UserId, app: nat, now: Time)
    requires Valid(s) && AllFit(s)
    ensures AllFit(MarkPaid(s, user, app, now).0) <==> !OverPays(s, user, app)
  {
    hide Valid, Fits, Full, EmitReferral, PromoteIfViable;
    var (s', e) := MarkPaid(s, user, app, now);
    if e.None? {
      ApprovedToPay(s, app);
      PaymentShape(s, user, app, now);
      forall room, gender | 0 <= room < |s.rooms| && gender != Other
        ensures Fits(s', room, gender) <==> !(Seats(s, app, room, gender) && Full(s, room, gender))
      {
        RoomFitsIff(s, user, app, now, room, gender);
      }
      if OverPays(s, user, app) {
        var room, gender := s.apps[app].room, s.profiles[s.apps[app].user].gender;
        assert Seats(s, app, room, gender) && !Fits(s', room, gender);
      }
    }
  }

  lemma ProfileFitsIff(s: State, user: UserId, profile: Profile)
    requires Valid(s) && AllFit(s)
    ensures AllFit(SaveProfile(s, user, profile).0) <==> !OverJoins(s, user, profile)
  {
    hide RoomsOk, SessionsOk, CheckInsOk, SeatsOk, BonusesOk, ReferralsOk, CreditsOk, EmittedOk, AppsOk,
         ConfirmedCount, CapacityOf, Participates;
    var s' := SaveProfile(s, user, profile).0;
    if user in s.users {
      forall room, gender | 0 <= room < |s.rooms| && gender != Other
        ensures Fits(s', room, gender) <==> !(Joins(s, user, profile, room, gender) && Full(s, room, gender))
      {
        assert Fits(s, room, gender);
        ProfileShiftsCount(s, user, profile, room, gender);
      }
    }
  }

  lemma ConfirmationFits(s: State, planner: PlannerId, room: RoomId)
    requires AllFit(s)
    ensures AllFit(ConfirmRoom(s, planner, room).0)
  {
    hide CountIf;
    var s' := ConfirmRoom(s, planner, room).0;
    forall r, gender | 0 <= r < |s'.rooms| && gender != Other ensures Fits(s', r, gender) {
      assert Fits(s, r, gender);
      assert ConfirmedCount(s', r, gender) == ConfirmedCount(s, r, gender);
    }
  }

  /** While nobody is confirmed and no profile changes, the counts stand still. */
  lemma SameCount(s: State, s': State, room: RoomId, gender: Gender)
    requires AppsGrow(s.apps, s'.apps) && ConfirmsNobody(s.apps, s'.apps) && s'.profiles == s.profiles
    ensures ConfirmedCount(s', room, gender) == ConfirmedCount(s, room, gender)
  {
    var f, n := ConfirmedOf(s.profiles, room, gender), |s.apps|;
    assert s'.apps == s'.apps[..n] + s'.apps[n..];
    CountSame(s.apps, s'.apps[..n], f, f);
    NoneCounted(s'.apps[..n], s'.apps[n..], f);
  }

  lemma {:induction false} NoneCounted<T>(s: seq<T>, t: seq<T>, f: T -> bool)
    requires forall i :: 0 <= i < |t| ==> !f(t[i])
    ensures CountIf(s + t, f) == CountIf(s, f)
  {
    if |t| == 0 {
      assert s + t == s;
    } else {
      var n := |t| - 1;
      assert s + t == (s + t[..n]) + [t[n]];
      CountAppend(s + t[..n], t[n], f);
      NoneCounted(s, t[..n], f);
    }
  }

  lemma OthersFit(s: State, e: Event)
    requires Valid(s) && AllFit(s)
    requires !e.request.ToMarkPaid? && !e.request.ToSaveProfile? && !e.request.ToConfirmRoom?
    ensures AllFit(Step(s, e))
  {
    hide Valid, Step, ConfirmedCount, AppsGrow, UsersGrow, CheckInsGrow, SessionsGrow, CreditsGrow, ConfirmsNobody;
    var s' := Step(s, e);
    StepKeeps(s, e);
    OthersAreQuiet(s, e);
    forall room, gender | 0 <= room < |s'.rooms| && gender != Other ensures Fits(s', room, gender) {
      assert RoomStays(s.rooms, e.request, room, s'.rooms[room]);
      if Rank(s'.rooms[room].status) >= Rank(Confirmed) {
        assert Fits(s, room, gender) && RoomGrows(s.rooms[room], s'.rooms[room]);
        SameCount(s, s', room, gender);
      }
    }
  }

  lemma StepFitsIff(s: State, e: Event)
    requires Valid(s) && AllFit(s)
    ensures AllFit(Step(s, e)) <==> !Overfills(s, e.request)
  {
    hide Valid, AllFit, OverPays, OverJoins;
    match e.request
    case ToMarkPaid(user, app) => PaymentFitsIff(s, user, app, e.now);
    case ToSaveProfile(user, profile) => ProfileFitsIff(s, user, profile);
    case ToConfirmRoom(planner, room) => ConfirmationFits(s, planner, room);
    case _ => OthersFit(s, e);
  }

  /** Over every run: rooms at CONFIRMED or beyond stay within both capacities at every moment, if and only if no
      payment and no saved profile adds to a gender that is full. */
  lemma {:induction false} FitThroughoutIff(run: seq<Event>)
    ensures Always(run, AllFit) <==> Never(run, Overfills)
  {
    hide Valid, AllFit, Overfills, Step;
    NothingToFit();
    forall s, e | Valid(s) && AllFit(s) ensures AllFit(Step(s, e)) <==> !Overfills(s, e.request) {
      StepFitsIff(s, e);
    }
    AlwaysIffNever(run, AllFit, Overfills);
  }

  // ---- Deadlines before their events ---------------------------------------------------------------------

  predicate Dated(room: Room) {
    room.deadline.Some? ==> room.deadline.value <= room.startsAt
  }

  /** No room takes applications beyond its start. */
  ghost predicate AllDated(s: State) {
    forall k :: 0 <= k < |s.rooms| ==> Dated(s.rooms[k])
  }

  /** The deadline that a room will have: a deadline of null removes it. */
  function NewDeadline(prior: Option<Time>, field: Field<Time>): Option<Time> {
    match field
    case Unset => prior
    case Null => None
    case Set(t) => Some(t)
  }

  /** The host's update of an editable room will be accepted, and the deadline it sends or leaves is after the start
      it sends or leaves. */
  predicate Misdates(s: State, r: Request) {
    && r.ToUpdateRoom? && HostRefusal(s, r.user, r.room).None?
    && s.rooms[r.room].status in {Draft, Published, Recruiting}
    && !r.patch.startsAt.Null? && !r.patch.endsAt.Null? && !r.patch.maleCap.Null? && !r.patch.femaleCap.Null?
    && var room := s.rooms[r.room];
       var start, deadline := r.patch.startsAt.Over(room.startsAt), NewDeadline(room.deadline, r.patch.deadline);
       start < r.patch.endsAt.Over(room.endsAt) && deadline.Some? && start < deadline.value
  }

  lemma NothingToDate()
    ensures AllDated(EMPTY)
  {
  }

  lemma UpdateDatesIff(s: State, user: UserId, room: RoomId, patch: RoomPatch)
    requires AllDated(s)
    ensures AllDated(UpdateRoom(s, user, room, patch).0) <==> !Misdates(s, ToUpdateRoom(user, room, patch))
  {
    var s' := UpdateRoom(s, user, room, patch).0;
    if Misdates(s, ToUpdateRoom(user, room, patch)) {
      assert !Dated(s'.rooms[room]);
    }
  }

  lemma OthersStayDated(s: State, e: Event)
    requires Valid(s) && AllDated(s) && !e.request.ToUpdateRoom?
    ensures AllDated(Step(s, e))
  {
    hide Valid;
    var s' := Step(s, e);
    if e.request.ToMarkPaid? {
      PaymentShape(s, e.request.user, e.request.app, e.now);
      forall k | 0 <= k < |s.rooms| ensures Dated(s'.rooms[k]) {
        assert Dated(s.rooms[k]);
        PaymentLeavesConfirmed(s, e.request.user, e.request.app, e.now, k);
      }
    } else if !e.request.ToSaveProfile? {
      OthersAreQuiet(s, e);
      forall k | 0 <= k < |s'.rooms| ensures Dated(s'.rooms[k]) {
        assert RoomStays(s.rooms, e.request, k, s'.rooms[k]);
        assert k < |s.rooms| ==> Dated(s.rooms[k]);
      }
    }
  }

  /** Over every run: no room's deadline is ever after its start, if and only if no accepted update puts it there.
      Creating a room checks this, updating one does not. */
  lemma {:induction false} DeadlinesThroughoutIff(run: seq<Event>)
    ensures Always(run, AllDated) <==> Never(run, Misdates)
  {
    hide Valid, AllDated, Misdates, Step;
    NothingToDate();
    forall s, e | Valid(s) && AllDated(s) ensures AllDated(Step(s, e)) <==> !Misdates(s, e.request) {
      StepDatesIff(s, e);
    }
    AlwaysIffNever(run, AllDated, Misdates);
  }

  lemma StepDatesIff(s: State, e: Event)
    requires Valid(s) && AllDated(s)
    ensures AllDated(Step(s, e)) <==> !Misdates(s, e.request)
  {
    hide Valid, AllDated;
    if e.request.ToUpdateRoom? {
      UpdateDatesIff(s, e.request.user, e.request.room, e.request.patch);
    } else {
      OthersStayDated(s, e);
    }
  }
}
