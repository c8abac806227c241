/** The services as they run: an object whose tables the requests update in place. */
module Store {
  import opened Types
  import opened CreditService
  import opened Lifecycle
  import opened LifecycleInvariants
  import LifecycleRuns
  import LifecycleSteps
  import Rotation

  class Services {
    var users: map<UserId, User>
    var profiles: map<UserId, Profile>
    var planners: map<PlannerId, bool>
    var rooms: seq<Room>
    var apps: seq<Application>
    var credits: seq<Credit>
    var checkins: seq<CheckIn>
    var sessions: map<RoomId, Rotation.Session>

    ghost function Snapshot(): State
      reads this
    {
      State(users, profiles, planners, rooms, apps, credits, checkins, sessions)
    }

    constructor ()
      ensures Snapshot() == EMPTY
    {
      users, profiles, planners, sessions := map[], map[], map[], map[];
      rooms, apps, credits, checkins := [], [], [], [];
    }

    // ---- Shared lookups ------------------------------------------------------------------------

    method GetHostedRoom(user: UserId, room: RoomId) returns (error: Option<Error>)
      ensures error == HostRefusal(Snapshot(), user, room)
    {
      if room >= |rooms| {
        return Some(NotFound);
      }
      error := if rooms[room].host != user then Some(Forbidden) else None;
    }

    method GetHostedApplication(user: UserId, app: nat) returns (error: Option<Error>)
      ensures error == CuratorRefusal(Snapshot(), user, app)
    {
      if app >= |apps| {
        return Some(NotFound);
      }
      var room := apps[app].room;
      error := if room >= |rooms| || rooms[room].host != user then Some(Forbidden) else None;
    }

    method GetAssignedRoom(planner: PlannerId, room: RoomId) returns (error: Option<Error>)
      ensures error == PlannerRefusal(Snapshot(), planner, room)
    {
      if planner !in planners || !planners[planner] {
        return Some(Forbidden);
      }
      if room >= |rooms| {
        return Some(NotFound);
      }
      error := if rooms[room].planner != Some(planner) then Some(Forbidden) else None;
    }

    // ---- Accounts ------------------------------------------------------------------------------

    method RegisterUser(id: UserId, referrer: Option<UserId>) returns (error: Option<Error>)
      modifies this`users
      ensures (Snapshot(), error) == Register(old(Snapshot()), id, referrer)
    {
      if id in users {
        return Some(Conflict);
      }
      if referrer.Some? && referrer.value !in users {
        return Some(Conflict);
      }
      users := users[id := User(true, referrer, false)];
      error := None;
    }

    method SetUserActive(actor: UserId, id: UserId, active: bool) returns (error: Option<Error>)
      modifies this`users
      ensures (Snapshot(), error) == SetActive(old(Snapshot()), actor, id, active)
    {
      if id !in users {
        return Some(NotFound);
      }
      if id == actor {
        return Some(Conflict);
      }
      users := users[id := users[id].(active := active)];
      error := None;
    }

    method UpsertProfile(user: UserId, profile: Profile) returns (error: Option<Error>)
      modifies this`profiles
      ensures (Snapshot(), error) == SaveProfile(old(Snapshot()), user, profile)
    {
      if user !in users {
        return Some(Unauthorized);
      }
      profiles := profiles[user := profile];
      error := None;
    }

    method SetPlannerStatus(planner: PlannerId, approved: bool) returns (error: Option<Error>)
      modifies this`planners
      ensures (Snapshot(), error) == SetPlanner(old(Snapshot()), planner, approved)
    {
      planners := planners[planner := approved];
      error := None;
    }

    // ---- Hosting -------------------------------------------------------------------------------

    method CreateRoom(user: UserId, body: RoomBody) returns (error: Option<Error>)
      modifies this`rooms
      ensures (Snapshot(), error) == Lifecycle.CreateRoom(old(Snapshot()), user, body)
    {
      if user !in users {
        return Some(Unauthorized);
      }
      if !users[user].active {
        return Some(Forbidden);
      }
      if body.endsAt <= body.startsAt || (body.deadline.Some? && body.deadline.value > body.startsAt) {
        return Some(Validation);
      }
      rooms := rooms + [Room(user, None, Draft, body.startsAt, body.endsAt, body.maleCap, body.femaleCap,
                             body.deadline, None)];
      error := None;
    }

    method UpdateRoom(user: UserId, room: RoomId, patch: RoomPatch) returns (error: Option<Error>)
      modifies this`rooms
      ensures (Snapshot(), error) == Lifecycle.UpdateRoom(old(Snapshot()), user, room, patch)
    {
      error := GetHostedRoom(user, room);
      if error.Some? {
        return;
      }
      if rooms[room].status !in {Draft, Published, Recruiting} {
        return Some(InvalidState);
      }
      if patch.startsAt.Null? || patch.endsAt.Null? {
        return Some(Internal);
      }
      var row := rooms[room];
      if patch.startsAt.Set? { row := row.(startsAt := patch.startsAt.value); }
      if patch.endsAt.Set? { row := row.(endsAt := patch.endsAt.value); }
      if patch.maleCap.Set? { row := row.(maleCap := patch.maleCap.value); }
      if patch.femaleCap.Set? { row := row.(femaleCap := patch.femaleCap.value); }
      if patch.deadline.Null? { row := row.(deadline := None); }
      if patch.deadline.Set? { row := row.(deadline := Some(patch.deadline.value)); }
      if row.endsAt <= row.startsAt {
        return Some(Validation);
      }
      if patch.maleCap.Null? || patch.femaleCap.Null? {
        return Some(Integrity);
      }
      rooms := rooms[room := row];
    }

    method PublishRoom(user: UserId, room: RoomId) returns (error: Option<Error>)
      modifies this`rooms
      ensures (Snapshot(), error) == Lifecycle.PublishRoom(old(Snapshot()), user, room)
    {
      error := GetHostedRoom(user, room);
      if error.Some? {
        return;
      }
      if rooms[room].status != Draft {
        return Some(InvalidState);
      }
      rooms := rooms[room := rooms[room].(status := Published)];
    }

    // ---- Applications --------------------------------------------------------------------------

    method ApplyToRoom(user: UserId, room: RoomId, message: Option<string>, now: Time) returns (error: Option<Error>)
      modifies this`apps
      ensures (Snapshot(), error) == Apply(old(Snapshot()), user, room, message, now)
    {
      if room >= |rooms| {
        return Some(NotFound);
      }
      if rooms[room].status !in {Published, Recruiting, Viable, Assigned} {
        return Some(NotAccepting);
      }
      if rooms[room].deadline.Some? && now > rooms[room].deadline.value {
        return Some(DeadlinePassed);
      }
      if user !in profiles || !profiles[user].complete {
        return Some(ProfileIncomplete);
      }
      var k := FindApp(apps, room, user);
      if k < |apps| && apps[k].status != AppCancelled {
        return Some(Conflict);
      }
      if k < |apps| {
        apps := apps[k := apps[k].(status := Submitted, message := message, cancelledAt := None)];
      } else {
        apps := apps + [Application(room, user, Submitted, message, None, None, None, None)];
      }
      error := None;
    }

    method CancelMyApplication(user: UserId, app: nat, now: Time) returns (error: Option<Error>)
      modifies this`apps
      ensures (Snapshot(), error) == Cancel(old(Snapshot()), user, app, now)
    {
      if app >= |apps| {
        return Some(NotFound);
      }
      if apps[app].user != user {
        return Some(Forbidden);
      }
      if apps[app].status !in {Submitted, Waitlisted, Approved, PaymentPending} {
        return Some(InvalidState);
      }
      apps := apps[app := apps[app].(status := AppCancelled, cancelledAt := Some(now))];
      error := None;
    }

    method ApproveApplication(user: UserId, app: nat, note: Option<string>, now: Time) returns (error: Option<Error>)
      modifies this`apps
      ensures (Snapshot(), error) == Approve(old(Snapshot()), user, app, note, now)
    {
      error := GetHostedApplication(user, app);
      if error.Some? {
        return;
      }
      var row := apps[app];
      if row.status != Submitted && row.status != Waitlisted {
        return Some(InvalidState);
      }
      row := row.(status := Approved, approvedAt := Some(now));
      if note.Some? { row := row.(note := note); }
      apps := apps[app := row];
    }

    method RejectApplication(user: UserId, app: nat, note: Option<string>, now: Time) returns (error: Option<Error>)
      modifies this`apps
      ensures (Snapshot(), error) == Reject(old(Snapshot()), user, app, note, now)
    {
      error := GetHostedApplication(user, app);
      if error.Some? {
        return;
      }
      var row := apps[app];
      if row.status !in {Submitted, Waitlisted, Approved, PaymentPending} {
        return Some(InvalidState);
      }
      row := row.(status := Rejected, rejectedAt := Some(now));
      if note.Some? { row := row.(note := note); }
      apps := apps[app := row];
    }

    method WaitlistApplication(user: UserId, app: nat, note: Option<string>) returns (error: Option<Error>)
      modifies this`apps
      ensures (Snapshot(), error) == Waitlist(old(Snapshot()), user, app, note)
    {
      error := GetHostedApplication(user, app);
      if error.Some? {
        return;
      }
      var row := apps[app];
      if row.status != Submitted {
        return Some(InvalidState);
      }
      row := row.(status := Waitlisted);
      if note.Some? { row := row.(note := note); }
      apps := apps[app := row];
    }

    method MarkApplicationPaid(user: UserId, app: nat, now: Time) returns (error: Option<Error>)
      modifies this`apps, this`rooms, this`credits, this`users
      ensures (Snapshot(), error) == MarkPaid(old(Snapshot()), user, app, now)
    {
      error := GetHostedApplication(user, app);
      if error.Some? {
        return;
      }
      if apps[app].status !in {Approved, PaymentPending, Paid} {
        return Some(InvalidState);
      }
      apps := apps[app := apps[app].(status := AppConfirmed)];
      var promoted := MaybePromoteToViable(apps[app].room, now);
      MaybeEmitReferralBonus(apps[app].user, now);
    }

    // ---- Viability and rewards -----------------------------------------------------------------

    /** The aggregate of `get_capacity_summary` for one gender. */
    method CountConfirmed(room: RoomId, gender: Gender) returns (n: nat)
      ensures n == ConfirmedCount(Snapshot(), room, gender)
    {
      n := 0;
      for i := 0 to |apps|
        invariant n == CountIf(apps[..i], ConfirmedOf(profiles, room, gender))
      {
        assert apps[..i + 1][..i] == apps[..i];
        if apps[i].room == room && apps[i].status == AppConfirmed
           && apps[i].user in profiles && profiles[apps[i].user].gender == gender {
          n := n + 1;
        }
      }
      assert apps[..|apps|] == apps;
    }

    method MaybePromoteToViable(room: RoomId, now: Time) returns (promoted: bool)
      modifies this`rooms, this`credits
      ensures Snapshot() == PromoteIfViable(old(Snapshot()), room, now)
      ensures promoted <==> rooms != old(rooms)
    {
      if room >= |rooms| || rooms[room].status !in {Published, Recruiting} {
        return false;
      }
      var men := CountConfirmed(room, Male);
      if men < Threshold(rooms[room].maleCap) {
        return false;
      }
      var women := CountConfirmed(room, Female);
      if women < Threshold(rooms[room].femaleCap) {
        return false;
      }
      rooms := rooms[room := rooms[room].(status := Viable, viableAt := Some(now))];
      assert rooms[room].status != old(rooms)[room].status;
      IssueViableHostBonus(rooms[room].host, room, now);
      promoted := true;
    }

    method CountCredits(wanted: Credit -> bool) returns (n: nat)
      ensures n == CountIf(credits, wanted)
    {
      n := 0;
      for i := 0 to |credits|
        invariant n == CountIf(credits[..i], wanted)
      {
        assert credits[..i + 1][..i] == credits[..i];
        if wanted(credits[i]) {
          n := n + 1;
        }
      }
      assert credits[..|credits|] == credits;
    }

    method IssueViableHostBonus(host: UserId, room: RoomId, now: Time)
      modifies this`credits
      ensures credits == IssueBonus(old(credits), host, room, now)
    {
      var existing := CountCredits(IsBonus(host, room));
      if existing == 0 {
        credits := credits + [HostBonus(host, room, now)];
      }
    }

    method MaybeEmitReferralBonus(user: UserId, now: Time)
      modifies this`users, this`credits
      ensures Snapshot() == EmitReferral(old(Snapshot()), user, now)
    {
      if user !in users || users[user].referrer.None? || users[user].emitted {
        return;
      }
      IssueReferralPair(users[user].referrer.value, user, now);
      users := users[user := users[user].(emitted := true)];
    }

    method IssueReferralPair(referrer: UserId, friend: UserId, now: Time)
      modifies this`credits
      ensures credits == IssuePair(old(credits), referrer, friend, now)
    {
      var existing := CountCredits(IsReferrerPair(referrer, friend));
      if existing > 0 {
        return;
      }
      var count := CountCredits(IsReferrerCredit(referrer));
      if count >= MAX_REFERRAL_BONUSES_PER_HOST {
        return;
      }
      credits := credits + [ReferrerCredit(referrer, friend, now)];
      credits := credits + [FriendCredit(referrer, friend, now)];
      assert credits == old(credits) + [ReferrerCredit(referrer, friend, now), FriendCredit(referrer, friend, now)];
    }

    /** The user's credits, newest first, after the overdue ones have been marked. */
    method ListMyCredits(user: UserId, now: Time) returns (error: Option<Error>, listed: seq<Credit>)
      modifies this`credits
      ensures (Snapshot(), error) == ListCredits(old(Snapshot()), user, now)
      ensures listed == NewestFirst(credits, user)
    {
      var rows := credits;
      for i := 0 to |rows|
        invariant |rows| == |credits|
        invariant forall j :: 0 <= j < i ==> rows[j] == ExpireOne(credits[j], user, now)
        invariant forall j :: i <= j < |rows| ==> rows[j] == credits[j]
      {
        if rows[i].user == user && rows[i].status == ActiveCredit && rows[i].expiresAt <= now {
          rows := rows[i := rows[i].(status := Expired)];
        }
      }
      assert rows == ExpireAll(credits, user, now);
      credits := rows;
      error, listed := None, [];
      for i := 0 to |rows|
        invariant listed == NewestFirst(rows[..i], user)
      {
        assert rows[..i + 1][..i] == rows[..i];
        if rows[i].user == user {
          listed := [rows[i]] + listed;
        }
      }
      assert rows[..|rows|] == rows;
    }

    method ActiveCredits(user: UserId, now: Time) returns (active: seq<Credit>)
      ensures active == Filter(credits, IsActive(user, now))
    {
      active := [];
      for i := 0 to |credits|
        invariant active == Filter(credits[..i], IsActive(user, now))
      {
        assert credits[..i + 1][..i] == credits[..i];
        var c := credits[i];
        if c.user == user && c.status == ActiveCredit && c.expiresAt > now {
          active := active + [c];
        }
      }
      assert credits[..|credits|] == credits;
    }

    /** How many credits the user can use and what the best of them is worth. */
    method CreditSummary(user: UserId, price: int, now: Time)
      returns (count: nat, best: Option<Credit>, discount: int)
      ensures count == |Filter(credits, IsActive(user, now))|
      ensures discount == BestAmount(Filter(credits, IsActive(user, now)), price)
      ensures best.Some? <==> discount > 0
      ensures best.Some? ==>
        best.value in credits && IsActive(user, now)(best.value) && EstimateDiscount(best.value, price) == discount
    {
      var active := ActiveCredits(user, now);
      FilterMembers(credits, IsActive(user, now));
      best, discount := BestDiscount(active, price);
      count := |active|;
    }

    // ---- Assignment and confirmation -------------------------------------------------------------

    method AssignPlannerToRoom(room: RoomId, planner: PlannerId) returns (error: Option<Error>)
      modifies this`rooms
      ensures (Snapshot(), error) == AssignPlanner(old(Snapshot()), room, planner)
    {
      if room >= |rooms| {
        return Some(NotFound);
      }
      if rooms[room].status != Viable && rooms[room].status != Assigned {
        return Some(InvalidState);
      }
      if planner !in planners {
        return Some(NotFound);
      }
      if !planners[planner] {
        return Some(PlannerNotApproved);
      }
      rooms := rooms[room := rooms[room].(planner := Some(planner), status := Assigned)];
      error := None;
    }

    method ConfirmAssignedRoom(planner: PlannerId, room: RoomId) returns (error: Option<Error>)
      modifies this`rooms
      ensures (Snapshot(), error) == ConfirmRoom(old(Snapshot()), planner, room)
    {
      error := GetAssignedRoom(planner, room);
      if error.Some? {
        return;
      }
      if rooms[room].status != Assigned {
        return Some(InvalidState);
      }
      var men := CountConfirmed(room, Male);
      var women := CountConfirmed(room, Female);
      if men + women == 0 {
        return Some(NotReady);
      }
      if men > rooms[room].maleCap {
        return Some(OverCapacity);
      }
      if women > rooms[room].femaleCap {
        return Some(OverCapacity);
      }
      rooms := rooms[room := rooms[room].(status := Confirmed)];
    }

    // ---- Check-in --------------------------------------------------------------------------------

    method OpenRoomCheckIn(planner: PlannerId, room: RoomId, draw: UserId -> string)
      returns (error: Option<Error>, shown: seq<CheckIn>)
      modifies this`checkins
      ensures (Snapshot(), error) == OpenCheckIn(old(Snapshot()), planner, room, draw)
      ensures shown == if error.Some? then [] else RowsFor(checkins, apps, room)
    {
      shown := [];
      error := GetAssignedRoom(planner, room);
      if error.Some? {
        return;
      }
      if rooms[room].status != Confirmed {
        return Some(InvalidState), [];
      }
      if CountIf(apps, ConfirmedIn(room)) == 0 {
        return Some(NoParticipants), [];
      }
      var rows := checkins;
      for i := 0 to |apps|
        invariant rows == OpenedUpTo(checkins, apps, room, draw, i)
      {
        if apps[i].room == room && apps[i].status == AppConfirmed {
          var j := FindCheckIn(checkins, room, apps[i].user);
          if j == |checkins| {
            rows := rows + [CheckIn(room, apps[i].user, i, Open, None, Some(draw(apps[i].user)))];
          } else {
            if rows[j].status == NotOpen {
              rows := rows[j := rows[j].(status := Open)];
            }
            if rows[j].code.None? {
              rows := rows[j := rows[j].(code := Some(draw(apps[i].user)))];
            }
            assert rows == OpenedUpTo(checkins, apps, room, draw, i + 1);
          }
        }
      }
      if !UniqueRows(rows) {
        return Some(Integrity), [];
      }
      checkins := rows;
      for i := 0 to |apps|
        invariant shown == RowsFor(rows, apps[..i], room)
      {
        assert apps[..i + 1][..i] == apps[..i];
        if apps[i].room == room && apps[i].status == AppConfirmed {
          var j := FindCheckIn(rows, room, apps[i].user);
          if j < |rows| {
            shown := shown + [rows[j]];
          }
        }
      }
      assert apps[..|apps|] == apps;
    }

    method ConfirmCheckInById(planner: PlannerId, row: nat, now: Time) returns (error: Option<Error>)
      modifies this`checkins
      ensures (Snapshot(), error) == ConfirmCheckIn(old(Snapshot()), planner, row, now)
    {
      if planner !in planners || !planners[planner] {
        return Some(Forbidden);
      }
      if row >= |checkins| {
        return Some(NotFound);
      }
      var room := checkins[row].room;
      if room >= |rooms| || rooms[room].planner != Some(planner) {
        return Some(Forbidden);
      }
      if checkins[row].status != Open && checkins[row].status != NoShow {
        return Some(InvalidState);
      }
      checkins := checkins[row := checkins[row].(status := CheckedIn, checkedInAt := Some(now))];
      error := None;
    }

    method MarkNoShowById(planner: PlannerId, row: nat) returns (error: Option<Error>)
      modifies this`checkins
      ensures (Snapshot(), error) == MarkNoShow(old(Snapshot()), planner, row)
    {
      if planner !in planners || !planners[planner] {
        return Some(Forbidden);
      }
      if row >= |checkins| {
        return Some(NotFound);
      }
      var room := checkins[row].room;
      if room >= |rooms| || rooms[room].planner != Some(planner) {
        return Some(Forbidden);
      }
      if checkins[row].status != Open && checkins[row].status != CheckedIn {
        return Some(InvalidState);
      }
      checkins := checkins[row := checkins[row].(status := NoShow)];
      error := None;
    }

    // ---- Rotation ----------------------------------------------------------------------------------

    method CheckedInParticipants(room: RoomId) returns (males: seq<UserId>, females: seq<UserId>)
      ensures males == Attendees(checkins, profiles, room, Male)
      ensures females == Attendees(checkins, profiles, room, Female)
    {
      males, females := [], [];
      for i := 0 to |checkins|
        invariant males == Attendees(checkins[..i], profiles, room, Male)
        invariant females == Attendees(checkins[..i], profiles, room, Female)
      {
        assert checkins[..i + 1][..i] == checkins[..i];
        var row := checkins[i];
        if row.room == room && row.status == CheckedIn && row.user in profiles {
          if profiles[row.user].gender == Male {
            males := males + [row.user];
          }
          if profiles[row.user].gender == Female {
            females := females + [row.user];
          }
        }
      }
      assert checkins[..|checkins|] == checkins;
    }

    method StartRotation(planner: PlannerId, room: RoomId, minutes: int, now: Time) returns (error: Option<Error>)
      modifies this`sessions, this`rooms
      ensures (Snapshot(), error) == StartSession(old(Snapshot()), planner, room, minutes, now)
    {
      error := GetAssignedRoom(planner, room);
      if error.Some? {
        return;
      }
      if rooms[room].status != Confirmed {
        return Some(InvalidState);
      }
      if room in sessions {
        return Some(AlreadyStarted);
      }
      var males, females := CheckedInParticipants(room);
      males, females := Sorted(males), Sorted(females);
      if males == [] || females == [] {
        return Some(NoParticipants);
      }
      if |males| != |females| {
        return Some(GenderImbalance);
      }
      var rounds := Rotation.BuildRounds(males, females, now, minutes);
      sessions := sessions[room := Rotation.Session(Rotation.Running, 1, minutes, now, None, rounds)];
      rooms := rooms[room := rooms[room].(status := InProgress)];
    }

    method StartNextRound(planner: PlannerId, room: RoomId, now: Time) returns (error: Option<Error>)
      modifies this`sessions
      ensures (Snapshot(), error) == NextRound(old(Snapshot()), planner, room, now)
    {
      hide Rotation.Find, PlannerRefusal;
      error := GetAssignedRoom(planner, room);
      if error.Some? {
        return;
      }
      if room !in sessions {
        return Some(NotFound);
      }
      var session := sessions[room];
      if session.status != Rotation.Running {
        return Some(InvalidState);
      }
      if session.current >= |session.rounds| {
        return Some(LastRound);
      }
      var rounds := session.rounds;
      var k := Rotation.FindRound(rounds, session.current);
      if k < |rounds| {
        rounds := rounds[k := rounds[k].(status := Rotation.Done, endsAt := Some(now))];
      }
      assert rounds == Rotation.Close(session.rounds, session.current, now);
      var j := Rotation.FindRound(rounds, session.current + 1);
      if j < |rounds| {
        rounds := rounds[j := rounds[j].(status := Rotation.Active, startsAt := now,
                                         endsAt := Some(now + session.minutes * MINUTE))];
      }
      sessions := sessions[room := session.(rounds := rounds, current := session.current + 1)];
    }

    method EndRotation(planner: PlannerId, room: RoomId, now: Time) returns (error: Option<Error>)
      modifies this`sessions, this`rooms
      ensures (Snapshot(), error) == EndSession(old(Snapshot()), planner, room, now)
    {
      error := GetAssignedRoom(planner, room);
      if error.Some? {
        return;
      }
      if room !in sessions {
        return Some(NotFound);
      }
      var session := sessions[room];
      if session.status == Rotation.Ended {
        return Some(InvalidState);
      }
      var rounds := Rotation.EndRounds(session.rounds, now);
      assert rounds == Rotation.Finish(session, now).0.rounds;
      sessions := sessions[room := session.(status := Rotation.Ended, endedAt := Some(now), rounds := rounds)];
      rooms := rooms[room := rooms[room].(status := Completed)];
    }

    method GetMyCurrentRound(user: UserId, room: RoomId) returns (view: Option<Rotation.View>)
      ensures view == MyCurrentRound(Snapshot(), user, room)
    {
      if room !in sessions {
        return None;
      }
      var session := sessions[room];
      var k := Rotation.FindRound(session.rounds, session.current);
      var total := |session.rounds|;
      if k == total {
        return Some(Rotation.View(session.status, session.current, total, session.minutes, None, None, None));
      }
      var seats, phase := session.rounds[k].seats, session.rounds[k].status;
      var i := Rotation.FindSeat(seats, user);
      if i == |seats| {
        return Some(Rotation.View(session.status, session.current, total, session.minutes, Some(phase), None, None));
      }
      var other := if seats[i].a == user then seats[i].b else seats[i].a;
      var opponent := if other in profiles then Some(other) else None;
      view := Some(Rotation.View(session.status, session.current, total, session.minutes, Some(phase),
                                 Some(seats[i].table), opponent));
    }

    // ---- One entry point -----------------------------------------------------------------------------

    static predicate IsAccount(r: Request) {
      r.ToRegister? || r.ToSetActive? || r.ToSaveProfile? || r.ToSetPlanner? || r.ToCreateRoom? || r.ToUpdateRoom? ||
      r.ToPublishRoom? || r.ToListCredits?
    }

    /** Requests about accounts, profiles, planners and rooms. */
    method HandleAccount(r: Request, now: Time) returns (error: Option<Error>)
      requires IsAccount(r)
      modifies this
      ensures (Snapshot(), error) == Serve(old(Snapshot()), r, now)
    {
      match r
      case ToRegister(id, referrer) => error := RegisterUser(id, referrer);
      case ToSetActive(actor, id, active) => error := SetUserActive(actor, id, active);
      case ToSaveProfile(user, profile) => error := UpsertProfile(user, profile);
      case ToSetPlanner(planner, approved) => error := SetPlannerStatus(planner, approved);
      case ToCreateRoom(user, body) => error := CreateRoom(user, body);
      case ToUpdateRoom(user, room, patch) => error := UpdateRoom(user, room, patch);
      case ToPublishRoom(user, room) => error := PublishRoom(user, room);
      case ToListCredits(user) =>
        var listed;
        error, listed := ListMyCredits(user, now);
    }

    static predicate IsApplication(r: Request) {
      r.ToApply? || r.ToCancel? || r.ToApprove? || r.ToReject? || r.ToWaitlist? || r.ToMarkPaid?
    }

    /** Requests about applications. */
    method HandleApplication(r: Request, now: Time) returns (error: Option<Error>)
      requires IsApplication(r)
      modifies this
      ensures (Snapshot(), error) == Serve(old(Snapshot()), r, now)
    {
      hide Apply, Cancel, Approve, Reject, Waitlist, MarkPaid;
      match r
      case ToApply(user, room, message) => error := ApplyToRoom(user, room, message, now);
      case ToCancel(user, app) => error := CancelMyApplication(user, app, now);
      case ToApprove(user, app, note) => error := ApproveApplication(user, app, note, now);
      case ToReject(user, app, note) => error := RejectApplication(user, app, note, now);
      case ToWaitlist(user, app, note) => error := WaitlistApplication(user, app, note);
      case ToMarkPaid(user, app) => error := MarkApplicationPaid(user, app, now);
    }

    static predicate IsOperation(r: Request) {
      r.ToAssignPlanner? || r.ToConfirmRoom? || r.ToOpenCheckIn? || r.ToConfirmCheckIn? || r.ToMarkNoShow?
    }

    /** Requests about preparing the event. */
    method HandleOperation(r: Request, now: Time) returns (error: Option<Error>)
      requires IsOperation(r)
      modifies this
      ensures (Snapshot(), error) == Serve(old(Snapshot()), r, now)
    {
      hide AssignPlanner, ConfirmRoom, OpenCheckIn, ConfirmCheckIn, MarkNoShow;
      match r
      case ToAssignPlanner(room, planner) => error := AssignPlannerToRoom(room, planner);
      case ToConfirmRoom(planner, room) => error := ConfirmAssignedRoom(planner, room);
      case ToOpenCheckIn(planner, room, draw) =>
        var shown;
        error, shown := OpenRoomCheckIn(planner, room, draw);
      case ToConfirmCheckIn(planner, row) => error := ConfirmCheckInById(planner, row, now);
      case ToMarkNoShow(planner, row) => error := MarkNoShowById(planner, row);
    }

    static predicate IsRotation(r: Request) {
      r.ToStartSession? || r.ToNextRound? || r.ToEndSession?
    }

    /** Requests about the rotation. */
    method HandleRotation(r: Request, now: Time) returns (error: Option<Error>)
      requires IsRotation(r)
      modifies this
      ensures (Snapshot(), error) == Serve(old(Snapshot()), r, now)
    {
      match r
      case ToStartSession(planner, room, minutes) => error := StartRotation(planner, room, minutes, now);
      case ToNextRound(planner, room) => error := StartNextRound(planner, room, now);
      case ToEndSession(planner, room) => error := EndRotation(planner, room, now);
    }

    /** Any request at all has exactly the effect of one step of a run, keeps the cross-table invariant of the
        tables, and changes them only in the ways that `Grows` allows. */
    method Handle(r: Request, now: Time) returns (error: Option<Error>)
      requires Valid(Snapshot())
      modifies this
      ensures (Snapshot(), error) == Serve(old(Snapshot()), r, now)
      ensures Valid(Snapshot()) && Grows(old(Snapshot()), Snapshot())
    {
      hide Serve, Valid, Grows;
      if IsAccount(r) {
        error := HandleAccount(r, now);
      } else if IsApplication(r) {
        error := HandleApplication(r, now);
      } else if IsOperation(r) {
        error := HandleOperation(r, now);
      } else {
        error := HandleRotation(r, now);
      }
      LifecycleSteps.StepKeeps(old(Snapshot()), At(r, now));
    }
  }

  /** The lifetime of an object: after any sequence of requests, in any order and by anyone, its tables are those of
      the run, so whatever is proved of runs holds of the object, and every answer is the one of the run. */
  method ServeAll(events: seq<Event>) returns (services: Services, answers: seq<Option<Error>>)
    ensures fresh(services) && services.Snapshot() == Run(events) && Valid(services.Snapshot())
    ensures |answers| == |events|
    ensures forall i :: 0 <= i < |events| ==>
      answers[i] == Serve(Run(events[..i]), events[i].request, events[i].now).1
  {
    hide Serve, Valid, Grows;
    services := new Services();
    answers := [];
    LifecycleRuns.EmptyIsValid();
    for i := 0 to |events|
      invariant fresh(services) && services.Snapshot() == Run(events[..i]) && Valid(services.Snapshot())
      invariant |answers| == i
      invariant forall j :: 0 <= j < i ==>
        answers[j] == Serve(Run(events[..j]), events[j].request, events[j].now).1
    {
      assert events[..i + 1][..i] == events[..i];
      var answer := services.Handle(events[i].request, events[i].now);
      answers := answers + [answer];
    }
    assert events[..|events|] == events;
  }
}
