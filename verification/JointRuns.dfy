/** Choices made in the rooms of the lifecycle: what a request reads about its room comes from the same tables that
    hosts, planners and participants change. */
module JointRuns {
  import opened Types
  import opened LifecycleInvariants
  import L = Lifecycle
  import LifecycleRuns
  import LifecycleSteps
  import C = ChoiceService
  import ChoiceBatches
  import ChoiceTheorems
  import ChoiceView

  /** Who is checked in, as the choice service reads it. */
  function CheckedInUsers(rows: seq<L.CheckIn>, room: RoomId): set<UserId> {
    set i | 0 <= i < |rows| && rows[i].room == room && rows[i].status == L.CheckedIn :: rows[i].user
  }

  function ViewOf(s: L.State, room: RoomId): Option<C.RoomView> {
    if room >= |s.rooms| then None
    else Some(C.RoomView(s.rooms[room].status, s.rooms[room].host, CheckedInUsers(s.checkins, room),
                         map u | u in s.profiles :: s.profiles[u].gender))
  }

  datatype World = World(state: L.State, db: C.Db)

  datatype Request =
    | InLifecycle(event: L.Event)
    | ToSubmit(room: RoomId, user: UserId, items: seq<C.ChoiceItem>, now: Time)
    | ToPropose(user: UserId, pair: C.Pair, date: Option<Time>, place: Option<string>)

  function Step(w: World, r: Request): World {
    match r
    case InLifecycle(event) => w.(state := L.Step(w.state, event))
    case ToSubmit(room, user, items, now) =>
      w.(db := C.Submit(w.db, ViewOf(w.state, room), room, user, items, now).0)
    case ToPropose(user, pair, date, place) => w.(db := C.Propose(w.db, user, pair, date, place).0)
  }

  function Run(run: seq<Request>): World {
    if |run| == 0 then World(L.EMPTY, C.Db(map[], map[], []))
    else Step(Run(run[..|run| - 1]), run[|run| - 1])
  }

  // ---- Both parts are runs of their own --------------------------------------------------------------------

  function Events(run: seq<Request>): seq<L.Event> {
    if |run| == 0 then []
    else
      var front, last := run[..|run| - 1], run[|run| - 1];
      if last.InLifecycle? then Events(front) + [last.event] else Events(front)
  }

  function Choices(run: seq<Request>): seq<ChoiceTheorems.Request> {
    if |run| == 0 then []
    else
      var front, last := run[..|run| - 1], run[|run| - 1];
      match last
      case InLifecycle(_) => Choices(front)
      case ToSubmit(room, user, items, now) =>
        Choices(front) + [ChoiceTheorems.Submission(ViewOf(Run(front).state, room), room, user, items, now)]
      case ToPropose(user, pair, date, place) => Choices(front) + [ChoiceTheorems.AfterDate(user, pair, date, place)]
  }

  lemma EventNext(events: seq<L.Event>, e: L.Event)
    ensures L.Run(events + [e]) == L.Step(L.Run(events), e)
  {
    assert (events + [e])[..|events|] == events;
  }

  lemma ChoiceNext(choices: seq<ChoiceTheorems.Request>, r: ChoiceTheorems.Request)
    ensures ChoiceTheorems.Run(choices + [r]) == ChoiceTheorems.Serve(ChoiceTheorems.Run(choices), r)
  {
    assert (choices + [r])[..|choices|] == choices;
  }

  lemma BothStartEmpty()
    ensures L.Run([]) == L.EMPTY && ChoiceTheorems.Run([]) == C.Db(map[], map[], [])
  {
  }

  /** Interleaving changes nothing for either part, so whatever is proved of its runs holds here. */
  lemma {:induction false} BothPartsAreRuns(run: seq<Request>)
    ensures Run(run).state == L.Run(Events(run)) && Run(run).db == ChoiceTheorems.Run(Choices(run))
  {
    hide L.Step, L.Run, C.Submit, C.Propose, ViewOf, ChoiceTheorems.Run;
    BothStartEmpty();
    if |run| > 0 {
      var front, last := run[..|run| - 1], run[|run| - 1];
      BothPartsAreRuns(front);
      match last
      case InLifecycle(event) => EventNext(Events(front), event);
      case ToSubmit(room, user, items, now) =>
        var view := ViewOf(Run(front).state, room);
        ChoiceNext(Choices(front), ChoiceTheorems.Submission(view, room, user, items, now));
      case ToPropose(user, pair, date, place) =>
        ChoiceNext(Choices(front), ChoiceTheorems.AfterDate(user, pair, date, place));
    }
  }

  // ---- Who can be matched ------------------------------------------------------------------------------------

  /** The room's rotation has begun, and the user has a check-in in it. */
  predicate Attended(s: L.State, room: RoomId, user: UserId) {
    room < |s.rooms| && L.Rank(s.rooms[room].status) >= L.Rank(InProgress) && HasCheckIn(s.checkins, room, user)
  }

  ghost predicate Attested(w: World) {
    && (forall k :: k in w.db.choices ==> Attended(w.state, k.room, k.chooser) && Attended(w.state, k.room, k.chosen))
    && (forall p :: p in w.db.matches ==> Attended(w.state, p.room, p.a) && Attended(w.state, p.room, p.b))
  }

  lemma AttendedStays(s: L.State, s': L.State, room: RoomId, user: UserId)
    requires Grows(s, s') && Attended(s, room, user)
    ensures Attended(s', room, user)
  {
    var i :| 0 <= i < |s.checkins| && s.checkins[i].room == room && s.checkins[i].user == user;
    assert s'.checkins[i].room == room && s'.checkins[i].user == user;
    assert RoomGrows(s.rooms[room], s'.rooms[room]);
  }

  lemma LifecycleKeepsAttested(w: World, e: L.Event)
    requires Valid(w.state) && Attested(w)
    ensures Attested(Step(w, InLifecycle(e)))
  {
    hide Valid, Grows, L.Step, Attended;
    LifecycleSteps.StepKeeps(w.state, e);
    forall room, user | Attended(w.state, room, user) ensures Attended(L.Step(w.state, e), room, user) {
      AttendedStays(w.state, L.Step(w.state, e), room, user);
    }
  }

  /** The rows that a submission can add are the chooser's, about targets of the batch. */
  lemma SubmittedRows(db: C.Db, room: RoomId, user: UserId, items: seq<C.ChoiceItem>, now: Time)
    ensures var db' := C.Flush(db, C.Buffer(db, room, user, items, now));
      && (forall k :: k in db'.choices && k !in db.choices ==>
            k.room == room && k.chooser == user && exists i :: 0 <= i < |items| && items[i].chosen == k.chosen)
      && (forall p :: p in db'.matches && p !in db.matches ==>
            p == C.Canonical(room, user, C.Counterpart(p, user))
            && exists i :: 0 <= i < |items| && items[i].chosen == C.Counterpart(p, user))
  {
    hide C.Buffer;
    var ses := C.Buffer(db, room, user, items, now);
    forall k | k in C.Flush(db, ses).choices && k !in db.choices
      ensures k.room == room && k.chooser == user && exists i :: 0 <= i < |items| && items[i].chosen == k.chosen
    {
      NewChoice(db, room, user, items, now, k);
    }
    forall p | p in C.Flush(db, ses).matches && p !in db.matches
      ensures p == C.Canonical(room, user, C.Counterpart(p, user))
      ensures exists i :: 0 <= i < |items| && items[i].chosen == C.Counterpart(p, user)
    {
      NewMatch(db, room, user, items, now, p);
    }
  }

  lemma NewChoice(db: C.Db, room: RoomId, user: UserId, items: seq<C.ChoiceItem>, now: Time, k: C.Directed)
    requires k in C.Flush(db, C.Buffer(db, room, user, items, now)).choices && k !in db.choices
    ensures k.room == room && k.chooser == user && exists i :: 0 <= i < |items| && items[i].chosen == k.chosen
  {
    hide C.Buffer;
    var ses := C.Buffer(db, room, user, items, now);
    ChoiceView.InsertAllGet(ses.choices, ses.newChoices, k);
    ChoiceView.BufferChoice(db, room, user, items, now, k.chosen);
    ChoiceTheorems.PendingHas(ses.newChoices, k);
    ChoiceView.PendingMine(db, room, user, items, now);
    var kv :| kv in ses.newChoices && kv.0 == k;
    assert ChoiceView.Mine(kv, room, user);
    ChoiceView.NoAnswer(items, k.chosen);
    CountPositive(items, ChoiceView.About(k.chosen));
  }

  lemma NewMatch(db: C.Db, room: RoomId, user: UserId, items: seq<C.ChoiceItem>, now: Time, p: C.Pair)
    requires p in C.Flush(db, C.Buffer(db, room, user, items, now)).matches && p !in db.matches
    ensures p == C.Canonical(room, user, C.Counterpart(p, user))
    ensures exists i :: 0 <= i < |items| && items[i].chosen == C.Counterpart(p, user)
  {
    hide C.Buffer;
    var ses, t := C.Buffer(db, room, user, items, now), C.Counterpart(p, user);
    ChoiceView.InsertAllGet(ses.matches, ses.newMatches, p);
    ChoiceView.BufferMatch(db, room, user, items, now, t);
    ChoiceTheorems.PendingHas(ses.newMatches, p);
    ChoiceView.PendingMine(db, room, user, items, now);
    var kv :| kv in ses.newMatches && kv.0 == p;
    assert ChoiceView.MyPair(kv, room, user);
    CountPositive(items, ChoiceView.InterestedIn(t));
  }

  lemma ViewMeansAttended(s: L.State, room: RoomId, user: UserId, u: UserId)
    requires var view := ViewOf(s, room); C.Refusal(view, user).None? && u in view.value.checkedIn
    requires Valid(s)
    ensures Attended(s, room, u)
  {
    hide Valid;
    var i :| 0 <= i < |s.checkins| && s.checkins[i].room == room && s.checkins[i].status == L.CheckedIn
      && s.checkins[i].user == u;
  }

  lemma SubmissionKeepsAttested(w: World, room: RoomId, user: UserId, items: seq<C.ChoiceItem>, now: Time)
    requires Valid(w.state) && Attested(w)
    ensures Attested(Step(w, ToSubmit(room, user, items, now)))
  {
    hide Valid, Attended, C.Buffer, C.Flush, ViewOf, C.Flushable;
    var view := ViewOf(w.state, room);
    if C.Submit(w.db, view, room, user, items, now).1.Accepted? {
      var targets := C.ValidTargets(view.value, user);
      SubmittedRows(w.db, room, user, items, now);
      ViewMeansAttended(w.state, room, user, user);
      forall i | 0 <= i < |items| ensures Attended(w.state, room, items[i].chosen) {
        assert items[i].chosen in targets;
        ViewMeansAttended(w.state, room, user, items[i].chosen);
      }
    }
  }

  lemma {:induction false} ReachableIsAttested(run: seq<Request>)
    ensures Valid(Run(run).state) && Attested(Run(run))
  {
    hide Valid, L.Step, C.Submit, Attended, L.Run;
    BothPartsAreRuns(run);
    LifecycleRuns.ReachableIsValid(Events(run));
    if |run| > 0 {
      var front, last := run[..|run| - 1], run[|run| - 1];
      ReachableIsAttested(front);
      match last
      case InLifecycle(event) => LifecycleKeepsAttested(Run(front), event);
      case ToSubmit(room, user, items, now) => SubmissionKeepsAttested(Run(front), room, user, items, now);
      case ToPropose(_, _, _, _) =>
    }
  }

  /** The user has a check-in in the room, whose application is the user's own, CONFIRMED and the only one to it. */
  predicate Participated(s: L.State, room: RoomId, user: UserId) {
    exists i :: 0 <= i < |s.checkins| && s.checkins[i].room == room && s.checkins[i].user == user
      && CheckInOk(s.apps, s.checkins[i])
      && (forall k :: 0 <= k < |s.apps| && s.apps[k].room == room && s.apps[k].user == user ==> k == s.checkins[i].app)
  }

  lemma AttendedMeansParticipated(s: L.State, room: RoomId, user: UserId)
    requires Valid(s) && Attended(s, room, user)
    ensures Participated(s, room, user) && s.rooms[room].status in {InProgress, Completed}
  {
    hide SessionsOk, SeatsOk, BonusesOk, ReferralsOk, CreditsOk, EmittedOk;
    assert RoomOk(s.users.Keys, s.planners.Keys, s.rooms[room]);
    var i :| 0 <= i < |s.checkins| && s.checkins[i].room == room && s.checkins[i].user == user;
    assert CheckInOk(s.apps, s.checkins[i]);
  }

  /** Over every interleaving of lifecycle requests, submissions and proposals: both users of a match took part in its
      room through their own CONFIRMED application, and the room is IN_PROGRESS or COMPLETED, at every moment after.
      */
  lemma {:induction false} MatchedMeansParticipated(run: seq<Request>, p: C.Pair)
    requires p in Run(run).db.matches
    ensures var s := Run(run).state;
      && p.room < |s.rooms| && s.rooms[p.room].status in {InProgress, Completed}
      && Participated(s, p.room, p.a) && Participated(s, p.room, p.b)
  {
    hide Run, Valid, Participated;
    ReachableIsAttested(run);
    AttendedMeansParticipated(Run(run).state, p.room, p.a);
    AttendedMeansParticipated(Run(run).state, p.room, p.b);
  }

  /** And when no batch slips, the match is live exactly when both are interested in each other. */
  lemma {:induction false} MatchesAreExact(run: seq<Request>)
    requires ChoiceTheorems.NeverSlips(Choices(run))
    ensures ChoiceView.Exact(Run(run).db)
  {
    hide Run, Choices, ChoiceView.Exact, ChoiceTheorems.Run, ChoiceTheorems.NeverSlips;
    BothPartsAreRuns(run);
    ChoiceTheorems.ViewExactThroughoutIff(Choices(run));
  }

  // ---- Who may choose whom ---------------------------------------------------------------------------------

  predicate CheckedInAt(s: L.State, room: RoomId, user: UserId) {
    exists i :: 0 <= i < |s.checkins| && s.checkins[i].room == room && s.checkins[i].user == user
      && s.checkins[i].status == L.CheckedIn
  }

  /** Someone else who is checked in, with a profile of another gender. */
  predicate Choosable(s: L.State, room: RoomId, user: UserId, target: UserId)
    requires user in s.profiles
  {
    && target != user && target in s.profiles && s.profiles[target].gender != s.profiles[user].gender
    && CheckedInAt(s, room, target)
  }

  lemma ViewChecksIn(rows: seq<L.CheckIn>, room: RoomId, user: UserId)
    ensures user in CheckedInUsers(rows, room) <==>
      exists i :: 0 <= i < |rows| && rows[i].room == room && rows[i].user == user && rows[i].status == L.CheckedIn
  {
    if i :| 0 <= i < |rows| && rows[i].room == room && rows[i].user == user && rows[i].status == L.CheckedIn {
      assert rows[i].user in CheckedInUsers(rows, room);
    }
  }

  /** What a submission is answered, in terms of the lifecycle tables. */
  lemma AnswerOnTables(s: L.State, db: C.Db, room: RoomId, user: UserId, items: seq<C.ChoiceItem>, now: Time)
    ensures var out := C.Submit(db, ViewOf(s, room), room, user, items, now).1;
      out == if room >= |s.rooms| then C.Failed(C.NotFound)
             else if s.rooms[room].status !in {InProgress, Completed} then C.Failed(C.InvalidState)
             else if user !in s.profiles || !CheckedInAt(s, room, user) then C.Failed(C.Forbidden)
             else if exists i :: 0 <= i < |items| && !Choosable(s, room, user, items[i].chosen)
             then C.Failed(C.InvalidTarget)
             else if ChoiceView.AnyRepeats(db, room, user, items) then C.Failed(C.IntegrityError)
             else C.Accepted(|items|, C.Buffer(db, room, user, items, now).newMutual)
  {
    hide C.Buffer, C.Flush, C.Flushable, ChoiceView.AnyRepeats, CheckedInUsers, CheckedInAt;
    var view := ViewOf(s, room);
    ChoiceView.AcceptedIff(db, view, room, user, items, now);
    ViewChecksIn(s.checkins, room, user);
    CheckedInMeans(s, room, user);
    if room < |s.rooms| && user in s.profiles {
      forall i | 0 <= i < |items|
        ensures items[i].chosen in C.ValidTargets(view.value, user) <==> Choosable(s, room, user, items[i].chosen)
      {
        CheckedInMeans(s, room, items[i].chosen);
      }
    }
  }

  lemma CheckedInMeans(s: L.State, room: RoomId, user: UserId)
    ensures user in CheckedInUsers(s.checkins, room) <==> CheckedInAt(s, room, user)
  {
    ViewChecksIn(s.checkins, room, user);
  }

  lemma {:induction false} DistinctAnswer(items: seq<C.ChoiceItem>, i: nat)
    requires ChoiceView.DistinctTargets(items) && i < |items|
    ensures ChoiceView.LastAnswer(items, items[i].chosen) == Some(C.ChoiceRow(items[i].kind, items[i].note))
  {
    if i < |items| - 1 {
      DistinctAnswer(items[..|items| - 1], i);
    }
  }

  lemma {:induction false} NoAnswerAbout(items: seq<C.ChoiceItem>, t: UserId)
    requires forall i :: 0 <= i < |items| ==> items[i].chosen != t
    ensures ChoiceView.LastAnswer(items, t) == None
  {
    if |items| > 0 {
      NoAnswerAbout(items[..|items| - 1], t);
    }
  }

  /** The answer is not one of the chooser's about a target of the batch. */
  predicate Apart(k: C.Directed, room: RoomId, user: UserId, items: seq<C.ChoiceItem>) {
    k.room != room || k.chooser != user || forall i :: 0 <= i < |items| ==> items[i].chosen != k.chosen
  }

  /** Exactly the answers of the batch are stored. */
  ghost predicate StoresAnswers(db: C.Db, db': C.Db, room: RoomId, user: UserId, items: seq<C.ChoiceItem>) {
    && ChoiceBatches.Stored(db', room, user, items)
    && forall k :: Apart(k, room, user, items) ==> C.Lookup(db'.choices, k) == C.Lookup(db.choices, k)
  }

  lemma AnswersStored(db: C.Db, room: RoomId, user: UserId, items: seq<C.ChoiceItem>, now: Time)
    requires ChoiceView.DistinctTargets(items)
    ensures StoresAnswers(db, C.Flush(db, C.Buffer(db, room, user, items, now)), room, user, items)
  {
    hide C.Buffer, C.Flush;
    var db' := C.Flush(db, C.Buffer(db, room, user, items, now));
    forall i | 0 <= i < |items|
      ensures C.Lookup(db'.choices, C.Directed(room, user, items[i].chosen))
           == Some(C.ChoiceRow(items[i].kind, items[i].note))
    {
      ChoiceView.CommittedChoice(db, room, user, items, now, items[i].chosen);
      DistinctAnswer(items, i);
    }
    forall k: C.Directed | Apart(k, room, user, items)
      ensures C.Lookup(db'.choices, k) == C.Lookup(db.choices, k)
    {
      if k.room != room || k.chooser != user {
        ChoiceView.CommitFrame(db, room, user, items, now, k, C.Pair(room + 1, user, user));
      } else {
        ChoiceView.CommittedChoice(db, room, user, items, now, k.chosen);
        NoAnswerAbout(items, k.chosen);
      }
    }
  }

  /** Over every interleaving: a submission with distinct targets is accepted, with all its items, if and only if the
      room exists and is IN_PROGRESS or COMPLETED, the chooser has a profile and is checked in there, and every target
      is someone else who is checked in there with a profile of another gender; and the other answers in that order.
      Accepted, it stores exactly these answers, touches no other, and counts the matches that have become live;
      refused, it changes nothing. */
  lemma {:induction false} SubmissionOutcome(run: seq<Request>, room: RoomId, user: UserId, items: seq<C.ChoiceItem>,
      now: Time)
    requires ChoiceView.DistinctTargets(items)
    ensures var s, db := Run(run).state, Run(run).db;
      var (db', out) := C.Submit(db, ViewOf(s, room), room, user, items, now);
      && Step(Run(run), ToSubmit(room, user, items, now)) == World(s, db')
      && (if room >= |s.rooms| then out == C.Failed(C.NotFound)
          else if s.rooms[room].status !in {InProgress, Completed} then out == C.Failed(C.InvalidState)
          else if user !in s.profiles || !CheckedInAt(s, room, user) then out == C.Failed(C.Forbidden)
          else if exists i :: 0 <= i < |items| && !Choosable(s, room, user, items[i].chosen)
          then out == C.Failed(C.InvalidTarget)
          else
            && out == C.Accepted(|items|, |ChoiceBatches.LiveSet(db') - ChoiceBatches.LiveSet(db)|)
            && StoresAnswers(db, db', room, user, items))
      && (out.Failed? ==> db' == db)
  {
    hide Run, C.Buffer, C.Flush, C.Flushable, C.Sequential, ChoiceView.AnyRepeats, ChoiceView.AnyStale, Choosable,
         CheckedInAt, ChoiceBatches.LiveSet, L.Step, ViewOf, ChoiceView.DistinctTargets, StoresAnswers;
    var s, db := Run(run).state, Run(run).db;
    AnswerOnTables(s, db, room, user, items, now);
    ChoiceTheorems.DistinctBatchIsClean(db, room, user, items, now);
    ChoiceView.AcceptedIff(db, ViewOf(s, room), room, user, items, now);
    if C.Submit(db, ViewOf(s, room), room, user, items, now).1.Accepted? {
      AnswersStored(db, room, user, items, now);
      ChoiceBatches.DistinctSubmit(db, ViewOf(s, room).value, room, user, items, now);
      ChoiceBatches.NewMutualCountsNewLive(db, room, user, items, now);
    }
  }

  /** Over every interleaving in which no batch slips: a proposal is accepted if and only if the match exists, the
      user is one of the two and both are still interested in each other. It then adds one proposal and marks the
      match. */
  lemma {:induction false} ProposalOutcome(run: seq<Request>, user: UserId, p: C.Pair, date: Option<Time>,
      place: Option<string>)
    requires ChoiceTheorems.NeverSlips(Choices(run))
    ensures var db := Run(run).db;
      var (db', error) := C.Propose(db, user, p, date, place);
      && error == (if p !in db.matches then Some(C.NotFound)
                   else if user != p.a && user != p.b then Some(C.Forbidden)
                   else if !ChoiceView.BothInterested(db, p) then Some(C.InvalidState)
                   else None)
      && (error.Some? ==> db' == db)
      && (error == None ==>
            && db'.choices == db.choices && db'.proposals == db.proposals + [C.Proposal(p, user, date, place)]
            && db'.matches == db.matches[p := C.MatchRow(C.AfterProposed, db.matches[p].visibleAt)])
  {
    hide Run, Choices, ChoiceView.Exact, ChoiceTheorems.Run, ChoiceTheorems.NeverSlips, ChoiceView.BothInterested;
    MatchesAreExact(run);
    if p in Run(run).db.matches {
      ChoiceBatches.LiveMeansMutual(Run(run).db, p);
    }
  }
}
