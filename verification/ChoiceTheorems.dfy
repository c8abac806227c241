/** What `submit_choices` and `propose_after_date` guarantee over whole runs. */
module ChoiceTheorems {
  import opened Types
  import opened ChoiceService
  import opened ChoiceView

  // ---- One request keeps the view exact, or exactly when it does not --------------------------

  predicate Involves(p: Pair, room: RoomId, user: UserId) {
    p.room == room && (p.a == user || p.b == user)
  }

  lemma PairAfterCommit(db: Db, room: RoomId, user: UserId, items: seq<ChoiceItem>, now: Time, p: Pair)
    requires Exact(db) && NotSelf(items, user) && p.a < p.b
    requires Flushable(Buffer(db, room, user, items, now))
    ensures var db' := Flush(db, Buffer(db, room, user, items, now));
      var stale := Involves(p, room, user) && Stale(db, room, user, items, Counterpart(p, user));
      && (Live(db', p) <==> BothInterested(db', p) || stale)
      && !(BothInterested(db', p) && stale)
      && (p in db'.matches ==>
            db'.matches[p].visibleAt.Some? && db'.matches[p].status in {Mutual, NoMatch, AfterProposed})
      && (p in db'.matches && db'.matches[p].status == AfterProposed ==>
            p in db.matches && db.matches[p].status == AfterProposed)
      && (p in db.matches ==> p in db'.matches && db'.matches[p].visibleAt == db.matches[p].visibleAt)
  {
    hide Stale, Buffer, Flushable, Proposed;
    var db' := Flush(db, Buffer(db, room, user, items, now));
    assert Live(db, p) <==> BothInterested(db, p);
    assert p in db.matches ==>
      db.matches[p].visibleAt.Some? && db.matches[p].status in {Mutual, NoMatch, AfterProposed};
    if Involves(p, room, user) {
      var t := Counterpart(p, user);
      var elsewhere := Pair(room + 1, p.a, p.b);
      assert Canonical(room, user, t) == p;
      CommittedMatch(db, room, user, items, now, t);
      CommittedChoice(db, room, user, items, now, t);
      CommitFrame(db, room, user, items, now, Directed(room, t, user), elsewhere);
    } else {
      CommitFrame(db, room, user, items, now, Directed(p.room, p.a, p.b), p);
      CommitFrame(db, room, user, items, now, Directed(p.room, p.b, p.a), p);
    }
  }

  lemma OnlyCanonicalRows(db: Db, room: RoomId, user: UserId, items: seq<ChoiceItem>, now: Time, p: Pair)
    requires Exact(db) && NotSelf(items, user)
    requires p in Flush(db, Buffer(db, room, user, items, now)).matches
    ensures p.a < p.b
  {
    var ses, t := Buffer(db, room, user, items, now), Counterpart(p, user);
    InsertAllGet(ses.matches, ses.newMatches, p);
    BufferMatch(db, room, user, items, now, t);
    if p !in db.matches {
      PendingHas(ses.newMatches, p);
      PendingMine(db, room, user, items, now);
      var kv :| kv in ses.newMatches && kv.0 == p;
      assert MyPair(kv, room, user);
      CountPositive(items, InterestedIn(t));
    }
  }

  lemma {:induction false} PendingHas<K, V>(s: seq<(K, V)>, k: K)
    requires LastPending(s, k).Some?
    ensures exists kv :: kv in s && kv.0 == k
  {
    if s[|s| - 1].0 == k {
      assert s[|s| - 1] in s;
    } else {
      PendingHas(s[..|s| - 1], k);
    }
  }

  /** The exact condition, in terms of the tables before the request: from an exact view, a request leaves it
      exact unless its batch commits and some target is stale. Refused and rolled-back requests are covered. */
  lemma SubmitKeepsViewExactIff(db: Db, view: Option<RoomView>, room: RoomId, user: UserId,
      items: seq<ChoiceItem>, now: Time)
    requires Exact(db)
    ensures var (db', out) := Submit(db, view, room, user, items, now);
      Exact(db') <==> !(Commits(db, view, room, user, items) && AnyStale(db, room, user, items))
  {
    hide AnyRepeats;
    var (db', out) := Submit(db, view, room, user, items, now);
    AcceptedIff(db, view, room, user, items, now);
    if out.Accepted? {
      assert NotSelf(items, user);
      forall p: Pair | p.a < p.b
        ensures var stale := Involves(p, room, user) && Stale(db, room, user, items, Counterpart(p, user));
          && (Live(db', p) <==> BothInterested(db', p) || stale) && !(BothInterested(db', p) && stale)
          && (p in db'.matches ==>
                db'.matches[p].visibleAt.Some? && db'.matches[p].status in {Mutual, NoMatch, AfterProposed})
          && (p in db'.matches && db'.matches[p].status == AfterProposed ==> Proposed(db', p))
      {
        PairAfterCommit(db, room, user, items, now, p);
        if p in db'.matches && db'.matches[p].status == AfterProposed {
          assert Proposed(db, p);
        }
      }
      forall p | p in db'.matches ensures p.a < p.b {
        OnlyCanonicalRows(db, room, user, items, now, p);
      }
      assert WellFormed(db');
      if AnyStale(db, room, user, items) {
        var i :| 0 <= i < |items| && Stale(db, room, user, items, items[i].chosen);
        var p := Canonical(room, user, items[i].chosen);
        assert Counterpart(p, user) == items[i].chosen;
        assert Live(db', p) && !BothInterested(db', p);
      } else {
        forall p: Pair | Involves(p, room, user) ensures !Stale(db, room, user, items, Counterpart(p, user)) {
          StaleIsInBatch(db, room, user, items, Counterpart(p, user));
        }
      }
    }
  }

  lemma StaleIsInBatch(db: Db, room: RoomId, user: UserId, items: seq<ChoiceItem>, t: UserId)
    ensures Stale(db, room, user, items, t) ==> AnyStale(db, room, user, items)
  {
    CountPositive(items, InterestedIn(t));
  }

  /** Proposing never breaks the view. */
  lemma ProposeKeepsViewExact(db: Db, user: UserId, p: Pair, date: Option<Time>, place: Option<string>)
    requires Exact(db)
    ensures Exact(Propose(db, user, p, date, place).0)
  {
    var (db', e) := Propose(db, user, p, date, place);
    if e.None? {
      forall q | q in db'.matches && db'.matches[q].status == AfterProposed ensures Proposed(db', q) {
        if q == p {
          assert db'.proposals[|db.proposals|].pair == p;
        } else {
          assert Proposed(db, q);
          var i :| 0 <= i < |db.proposals| && db.proposals[i].pair == q && db.proposals[i].proposer in {q.a, q.b};
          assert db'.proposals[i] == db.proposals[i];
        }
      }
      forall q: Pair | q.a < q.b ensures Live(db', q) <==> BothInterested(db', q) {
        assert Live(db, q) <==> BothInterested(db, q);
      }
    }
  }

  /** Distinct targets are enough: such a batch never fails on a constraint and is never stale. */
  lemma DistinctBatchIsClean(db: Db, room: RoomId, user: UserId, items: seq<ChoiceItem>, now: Time)
    requires DistinctTargets(items)
    ensures Flushable(Buffer(db, room, user, items, now)) && !AnyStale(db, room, user, items)
  {
    forall t ensures !Repeats(db, room, user, items, t) && !Stale(db, room, user, items, t) {
      DistinctOnce(items, t);
      NoAnswer(items, t);
    }
    FlushableIff(db, room, user, items, now);
  }

  lemma {:induction false} DistinctOnce(items: seq<ChoiceItem>, t: UserId)
    requires DistinctTargets(items)
    ensures CountIf(items, About(t)) <= 1
  {
    if |items| > 0 {
      DistinctOnce(items[..|items| - 1], t);
      CountPositive(items[..|items| - 1], About(t));
    }
  }

  // ---- Runs ------------------------------------------------------------------------------------

  datatype Request =
    | Submission(view: Option<RoomView>, room: RoomId, user: UserId, items: seq<ChoiceItem>, now: Time)
    | AfterDate(user: UserId, pair: Pair, date: Option<Time>, place: Option<string>)

  function Serve(db: Db, r: Request): Db {
    match r
    case Submission(view, room, user, items, now) => Submit(db, view, room, user, items, now).0
    case AfterDate(user, pair, date, place) => Propose(db, user, pair, date, place).0
  }

  function Run(run: seq<Request>): Db {
    if |run| == 0 then Db(map[], map[], []) else Serve(Run(run[..|run| - 1]), run[|run| - 1])
  }

  /** A batch that will commit and has a stale target. */
  predicate Slips(db: Db, r: Request) {
    r.Submission? && Commits(db, r.view, r.room, r.user, r.items) && AnyStale(db, r.room, r.user, r.items)
  }

  ghost predicate ExactThroughout(run: seq<Request>) {
    Exact(Run(run)) && (|run| > 0 ==> ExactThroughout(run[..|run| - 1]))
  }

  predicate NeverSlips(run: seq<Request>) {
    |run| > 0 ==> NeverSlips(run[..|run| - 1]) && !Slips(Run(run[..|run| - 1]), run[|run| - 1])
  }

  /** Over every run from the empty tables, with any mix of users, rooms, changed minds, proposals and
      repeated targets: the view is exact at every moment if and only if no request slips. */
  lemma {:induction false} ViewExactThroughoutIff(run: seq<Request>)
    ensures ExactThroughout(run) <==> NeverSlips(run)
  {
    if |run| > 0 {
      var before, r := Run(run[..|run| - 1]), run[|run| - 1];
      ViewExactThroughoutIff(run[..|run| - 1]);
      if Exact(before) {
        match r {
          case Submission(view, room, user, items, now) =>
            SubmitKeepsViewExactIff(before, view, room, user, items, now);
          case AfterDate(user, pair, date, place) =>
            ProposeKeepsViewExact(before, user, pair, date, place);
        }
      }
    }
  }

  predicate DistinctBatch(r: Request) {
    r.Submission? ==> DistinctTargets(r.items)
  }

  /** In particular, clients that name each target once per batch always see an exact view. */
  lemma {:induction false} ViewExactOnDistinctBatches(run: seq<Request>)
    requires forall r :: r in run ==> DistinctBatch(r)
    ensures Exact(Run(run))
  {
    if |run| > 0 {
      var before, r := Run(run[..|run| - 1]), run[|run| - 1];
      ViewExactOnDistinctBatches(run[..|run| - 1]);
      assert r in run;
      match r {
        case Submission(view, room, user, items, now) =>
          DistinctBatchIsClean(before, room, user, items, now);
          SubmitKeepsViewExactIff(before, view, room, user, items, now);
        case AfterDate(user, pair, date, place) =>
          ProposeKeepsViewExact(before, user, pair, date, place);
      }
    }
  }

  /** The slip exists: when the other side is interested and no match row exists yet, a batch that says
      INTERESTED and then takes it back commits, and leaves a live match behind. */
  lemma WithdrawnInOneBatch(db: Db, view: RoomView, room: RoomId, user: UserId, t: UserId,
      now: Time) returns (items: seq<ChoiceItem>)
    requires Exact(db) && Refusal(Some(view), user).None? && t in ValidTargets(view, user)
    requires Wants(db.choices, room, t, user) && Canonical(room, user, t) !in db.matches
    requires Directed(room, user, t) in db.choices
    ensures var (db', out) := Submit(db, Some(view), room, user, items, now);
      out == Accepted(2, 1) && !Exact(db') && Live(db', Canonical(room, user, t)) && !Wants(db'.choices, room, user, t)
  {
    var yes, no := ChoiceItem(t, Interested, None), ChoiceItem(t, NotInterested, None);
    items := [yes, no];
    WithdrawnBuffer(db, room, user, yes, no, now);
    assert items[..1] == [yes] && [yes][..0] == [];
    assert LastAnswer(items, t) == Some(ChoiceRow(NotInterested, None));
    assert InterestedIn(t)(items[0]);
    CountPositive(items, InterestedIn(t));
    assert Stale(db, room, user, items, items[0].chosen);
    assert AllValid(ValidTargets(view, user), items);
    CommittedMatch(db, room, user, items, now, t);
    CommittedChoice(db, room, user, items, now, t);
    SubmitKeepsViewExactIff(db, Some(view), room, user, items, now);
  }

  lemma WithdrawnBuffer(db: Db, room: RoomId, user: UserId, yes: ChoiceItem, no: ChoiceItem, now: Time)
    requires yes.kind == Interested && no.kind == NotInterested && yes.chosen == no.chosen
    requires Wants(db.choices, room, yes.chosen, user) && Canonical(room, user, yes.chosen) !in db.matches
    requires Directed(room, user, yes.chosen) in db.choices
    ensures var ses := Buffer(db, room, user, [yes, no], now);
      Flushable(ses) && ses.newMutual == 1
  {
    assert [yes, no][..1] == [yes] && [yes][..0] == [];
    var ses1 := BufferItem(db.choices, Session(db.choices, db.matches, [], [], 0), room, user, yes, now);
    assert Buffer(db, room, user, [yes], now) == ses1;
    assert Buffer(db, room, user, [yes, no], now) == BufferItem(db.choices, ses1, room, user, no, now);
  }

  // ---- Buffered equals sequential ----------------------------------------------------------------

  /** Any batch that commits and is not stale has the effect of the simple loop in which every write
      is visible at once: same choices, same matches, same count. */
  lemma {:induction false} BufferedRefinesSequential(db: Db, room: RoomId, user: UserId, items: seq<ChoiceItem>,
      now: Time)
    requires NotSelf(items, user)
    requires Flushable(Buffer(db, room, user, items, now)) && !AnyStale(db, room, user, items)
    ensures var ses := Buffer(db, room, user, items, now);
      (Flush(db, ses), ses.newMutual) == Sequential(db, room, user, items, now)
  {
    hide Repeats, Stale, AnyStale, Flushable, BufferItem, SeqItem, SeqGain, Lookup, LastPending, Wants, Canonical;
    if |items| > 0 {
      var n := |items| - 1;
      CleanPrefix(db, room, user, items, now);
      assert items[..n] + [items[n]] == items;
      BufferedRefinesSequential(db, room, user, items[..n], now);
      SameLookups(db, room, user, items[..n], items[n], now);
      FlushStep(db, Buffer(db, room, user, items[..n], now), room, user, items[n], now);
    }
  }

  /** A clean batch is clean at each of its items. */
  lemma CleanPrefix(db: Db, room: RoomId, user: UserId, items: seq<ChoiceItem>, now: Time)
    requires |items| > 0 && Flushable(Buffer(db, room, user, items, now)) && !AnyStale(db, room, user, items)
    ensures var front, t := items[..|items| - 1], items[|items| - 1].chosen;
      && Flushable(Buffer(db, room, user, front, now)) && !AnyStale(db, room, user, front)
      && !Repeats(db, room, user, items, t) && !Stale(db, room, user, items, t) && !Stale(db, room, user, front, t)
  {
    var front := items[..|items| - 1];
    FlushableIff(db, room, user, items, now);
    FlushableIff(db, room, user, front, now);
    forall t ensures !Repeats(db, room, user, front, t) && !Stale(db, room, user, front, t) {
      assert !Repeats(db, room, user, items, t);
      StaleIsInBatch(db, room, user, items, t);
      AnswerInterested(front, t);
    }
  }

  /** Before an item of a clean batch, whatever is pending about its target is invisible but harmless:
      the buffered lookups agree with the flushed tables wherever they decide anything. */
  lemma SameLookups(db: Db, room: RoomId, user: UserId, items: seq<ChoiceItem>, item: ChoiceItem, now: Time)
    requires NotSelf(items, user) && item.chosen != user
    requires !Repeats(db, room, user, items + [item], item.chosen)
    requires !Stale(db, room, user, items + [item], item.chosen) && !Stale(db, room, user, items, item.chosen)
    ensures var ses, key, p := Buffer(db, room, user, items, now), Directed(room, user, item.chosen),
        Canonical(room, user, item.chosen);
      && Lookup(ses.choices, key) == Lookup(Flush(db, ses).choices, key)
      && Lookup(ses.matches, p) == Lookup(Flush(db, ses).matches, p)
      && LastPending(ses.newChoices, key) == None && LastPending(ses.newMatches, p) == None
      && (Wants(db.choices, room, item.chosen, user) <==> Wants(Flush(db, ses).choices, room, item.chosen, user))
  {
    var ses, t := Buffer(db, room, user, items, now), item.chosen;
    BufferChoice(db, room, user, items, now, t);
    BufferMatch(db, room, user, items, now, t);
    InsertAllGet(ses.choices, ses.newChoices, Directed(room, user, t));
    InsertAllGet(ses.matches, ses.newMatches, Canonical(room, user, t));
    CommitFrame(db, room, user, items, now, Directed(room, t, user), Pair(room + 1, user, t));
    assert (items + [item])[..|items|] == items;
    NoAnswer(items, t);
    AnswerInterested(items, t);
  }

  lemma {:induction false} InsertAllUpdate<K, V>(m: map<K, V>, s: seq<(K, V)>, k: K, v: V)
    requires LastPending(s, k) == None
    ensures InsertAll(m[k := v], s) == InsertAll(m, s)[k := v]
  {
    if |s| > 0 {
      InsertAllUpdate(m, s[..|s| - 1], k, v);
    }
  }

  lemma FlushStep(db: Db, ses: Session, room: RoomId, user: UserId, item: ChoiceItem, now: Time)
    requires var key, p := Directed(room, user, item.chosen), Canonical(room, user, item.chosen);
      && Lookup(ses.choices, key) == Lookup(Flush(db, ses).choices, key)
      && Lookup(ses.matches, p) == Lookup(Flush(db, ses).matches, p)
      && LastPending(ses.newChoices, key) == None && LastPending(ses.newMatches, p) == None
      && (Wants(db.choices, room, item.chosen, user) <==> Wants(Flush(db, ses).choices, room, item.chosen, user))
    ensures var ses' := BufferItem(db.choices, ses, room, user, item, now);
      && Flush(db, ses') == SeqItem(Flush(db, ses), room, user, item, now)
      && ses'.newMutual == ses.newMutual + SeqGain(Flush(db, ses), room, user, item, now)
  {
    var key, p := Directed(room, user, item.chosen), Canonical(room, user, item.chosen);
    var row := ChoiceRow(item.kind, item.note);
    var ses' := BufferItem(db.choices, ses, room, user, item, now);
    InsertAllUpdate(ses.choices, ses.newChoices, key, row);
    assert (ses.newChoices + [(key, row)])[..|ses.newChoices|] == ses.newChoices;
    assert InsertAll(ses'.choices, ses'.newChoices) == InsertAll(ses.choices, ses.newChoices)[key := row];
    var m' := MatchAfter(Lookup(ses.choices, key), Wants(db.choices, room, item.chosen, user),
                         Lookup(ses.matches, p), item.kind, now);
    if m'.Some? {
      InsertAllUpdate(ses.matches, ses.newMatches, p, m'.value);
      assert (ses.newMatches + [(p, m'.value)])[..|ses.newMatches|] == ses.newMatches;
      assert InsertAll(ses'.matches, ses'.newMatches) == InsertAll(ses.matches, ses.newMatches)[p := m'.value];
    }
  }

  lemma OneItemKeepsExact(db: Db, room: RoomId, user: UserId, item: ChoiceItem, now: Time)
    requires Exact(db) && item.chosen != user
    ensures Exact(SeqItem(db, room, user, item, now))
  {
    hide Exact, Stale, Repeats, SeqItem, BufferItem, Flush;
    var view := RoomView(InProgress, user, {user, item.chosen}, map[user := Male, item.chosen := Female]);
    DistinctBatchIsClean(db, room, user, [item], now);
    BufferedRefinesSequential(db, room, user, [item], now);
    SubmitKeepsViewExactIff(db, Some(view), room, user, [item], now);
    assert [item][..0] == [];
    assert Sequential(db, room, user, [], now).0 == db;
  }

  lemma {:induction false} SequentialKeepsExact(db: Db, room: RoomId, user: UserId, items: seq<ChoiceItem>, now: Time)
    requires Exact(db) && NotSelf(items, user)
    ensures Exact(Sequential(db, room, user, items, now).0)
  {
    hide Exact, SeqItem, SeqGain;
    if |items| > 0 {
      var n := |items| - 1;
      SequentialKeepsExact(db, room, user, items[..n], now);
      OneItemKeepsExact(Sequential(db, room, user, items[..n], now).0, room, user, items[n], now);
    }
  }

  /** For any batch that commits, repeats included: the buffered request equals the simple loop if and only if
      no target is stale. */
  lemma BufferedEqualsSequentialIff(db: Db, room: RoomId, user: UserId, items: seq<ChoiceItem>, now: Time)
    requires Exact(db) && NotSelf(items, user) && Flushable(Buffer(db, room, user, items, now))
    ensures var ses := Buffer(db, room, user, items, now);
      (Flush(db, ses), ses.newMutual) == Sequential(db, room, user, items, now) <==> !AnyStale(db, room, user, items)
  {
    hide Buffer, Sequential, Flush, Flushable, BothInterested, Wants;
    SequentialKeepsExact(db, room, user, items, now);
    if !AnyStale(db, room, user, items) {
      BufferedRefinesSequential(db, room, user, items, now);
    } else {
      var i :| 0 <= i < |items| && Stale(db, room, user, items, items[i].chosen);
      var p := Canonical(room, user, items[i].chosen);
      assert Counterpart(p, user) == items[i].chosen;
      PairAfterCommit(db, room, user, items, now, p);
    }
  }
}
