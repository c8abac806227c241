/** Consequences for clients: order inside a batch, counts, resubmission, visibility and listing. */
module ChoiceBatches {
  import opened Types
  import opened ChoiceService
  import opened ChoiceView
  import opened ChoiceTheorems

  // ---- Order does not matter ------------------------------------------------------------------

  /** An item leaves everything an item on another target reads as it was. */
  lemma ItemIsLocal(db: Db, room: RoomId, user: UserId, x: ChoiceItem, t: UserId, now: Time)
    requires x.chosen != t && x.chosen != user && t != user
    ensures var db', p := SeqItem(db, room, user, x, now), Canonical(room, user, t);
      && Lookup(db'.choices, Directed(room, user, t)) == Lookup(db.choices, Directed(room, user, t))
      && Lookup(db'.matches, p) == Lookup(db.matches, p)
      && (Wants(db'.choices, room, t, user) <==> Wants(db.choices, room, t, user))
  {
    assert Canonical(room, user, x.chosen) != Canonical(room, user, t);
  }

  lemma ItemsCommute(db: Db, room: RoomId, user: UserId, x: ChoiceItem, y: ChoiceItem, now: Time)
    requires x.chosen != y.chosen && x.chosen != user && y.chosen != user
    ensures var dx, dy := SeqItem(db, room, user, x, now), SeqItem(db, room, user, y, now);
      && SeqItem(dx, room, user, y, now) == SeqItem(dy, room, user, x, now)
      && SeqGain(db, room, user, x, now) == SeqGain(dy, room, user, x, now)
      && SeqGain(db, room, user, y, now) == SeqGain(dx, room, user, y, now)
  {
    hide MatchAfter, Gain, Wants;
    ItemIsLocal(db, room, user, x, y.chosen, now);
    ItemIsLocal(db, room, user, y, x.chosen, now);
    var dx, dy := SeqItem(db, room, user, x, now), SeqItem(db, room, user, y, now);
    var dxy, dyx := SeqItem(dx, room, user, y, now), SeqItem(dy, room, user, x, now);
    assert dxy.choices == dyx.choices;
    assert dxy.matches == dyx.matches;
  }

  lemma SequentialSnoc(db: Db, room: RoomId, user: UserId, items: seq<ChoiceItem>, x: ChoiceItem, now: Time)
    ensures var (d, n) := Sequential(db, room, user, items, now);
      Sequential(db, room, user, items + [x], now)
      == (SeqItem(d, room, user, x, now), n + SeqGain(d, room, user, x, now))
  {
    assert (items + [x])[..|items|] == items;
  }

  lemma SwapLast(db: Db, room: RoomId, user: UserId, items: seq<ChoiceItem>, x: ChoiceItem, y: ChoiceItem, now: Time)
    requires x.chosen != y.chosen && x.chosen != user && y.chosen != user
    ensures Sequential(db, room, user, items + [x] + [y], now) == Sequential(db, room, user, items + [y] + [x], now)
  {
    SequentialSnoc(db, room, user, items, x, now);
    SequentialSnoc(db, room, user, items, y, now);
    SequentialSnoc(db, room, user, items + [x], y, now);
    SequentialSnoc(db, room, user, items + [y], x, now);
    ItemsCommute(Sequential(db, room, user, items, now).0, room, user, x, y, now);
  }

  lemma SameThenSame(db: Db, room: RoomId, user: UserId, xs: seq<ChoiceItem>, ys: seq<ChoiceItem>, y: ChoiceItem,
      now: Time)
    requires Sequential(db, room, user, xs, now) == Sequential(db, room, user, ys, now)
    ensures Sequential(db, room, user, xs + [y], now) == Sequential(db, room, user, ys + [y], now)
  {
    SequentialSnoc(db, room, user, xs, y, now);
    SequentialSnoc(db, room, user, ys, y, now);
  }

  lemma {:induction false} MoveToEnd(db: Db, room: RoomId, user: UserId, items: seq<ChoiceItem>, j: nat, now: Time)
    requires j < |items| && DistinctTargets(items) && NotSelf(items, user)
    ensures Sequential(db, room, user, items, now)
         == Sequential(db, room, user, items[..j] + items[j + 1..] + [items[j]], now)
  {
    var n := |items| - 1;
    if j == n {
      assert items[..j] + items[j + 1..] + [items[j]] == items;
    } else {
      var x, y, front := items[j], items[n], items[..n];
      var rest := items[..j] + front[j + 1..];
      assert front[..j] + front[j + 1..] + [front[j]] == rest + [x];
      assert front + [y] == items && items[..j] + items[j + 1..] == rest + [y];
      MoveToEnd(db, room, user, front, j, now);
      SameThenSame(db, room, user, front, rest + [x], y, now);
      SwapLast(db, room, user, rest, x, y, now);
    }
  }

  /** Take the last element of one batch out of a permutation of it. */
  lemma RemoveLast(xs: seq<ChoiceItem>, ys: seq<ChoiceItem>) returns (j: nat)
    requires multiset(xs) == multiset(ys) && |xs| > 0
    ensures j < |ys| && ys[j] == xs[|xs| - 1]
    ensures multiset(xs[..|xs| - 1]) == multiset(ys[..j] + ys[j + 1..])
  {
    var n := |xs| - 1;
    assert xs == xs[..n] + [xs[n]];
    assert xs[n] in multiset(ys);
    j :| 0 <= j < |ys| && ys[j] == xs[n];
    assert ys == ys[..j] + [ys[j]] + ys[j + 1..];
    calc {
      multiset(ys[..j] + ys[j + 1..]);
      multiset(ys) - multiset{ys[j]};
      multiset(xs) - multiset{xs[n]};
      multiset(xs[..n]);
    }
  }

  lemma {:induction false} SequentialPermutes(db: Db, room: RoomId, user: UserId, xs: seq<ChoiceItem>,
      ys: seq<ChoiceItem>, now: Time)
    requires multiset(xs) == multiset(ys)
    requires DistinctTargets(ys) && NotSelf(ys, user)
    ensures Sequential(db, room, user, xs, now) == Sequential(db, room, user, ys, now)
  {
    if |xs| == 0 {
      assert |multiset(ys)| == 0;
    } else {
      var n := |xs| - 1;
      var j := RemoveLast(xs, ys);
      var rest := ys[..j] + ys[j + 1..];
      MoveToEnd(db, room, user, ys, j, now);
      SequentialPermutes(db, room, user, xs[..n], rest, now);
      SameThenSame(db, room, user, xs[..n], rest, xs[n], now);
      assert xs == xs[..n] + [xs[n]];
    }
  }

  lemma OthersDiffer(ys: seq<ChoiceItem>, j: nat, x: ChoiceItem)
    requires j < |ys| && DistinctTargets(ys) && x in ys[..j] + ys[j + 1..]
    ensures x.chosen != ys[j].chosen
  {
    var k :| 0 <= k < |ys| - 1 && (ys[..j] + ys[j + 1..])[k] == x;
    assert x == if k < j then ys[k] else ys[k + 1];
  }

  lemma SameMembers(xs: seq<ChoiceItem>, ys: seq<ChoiceItem>)
    requires multiset(xs) == multiset(ys)
    ensures forall item :: item in xs <==> item in ys
  {
    assert forall item :: item in xs <==> item in multiset(xs);
    assert forall item :: item in ys <==> item in multiset(ys);
  }

  lemma {:induction false} DistinctPermutes(xs: seq<ChoiceItem>, ys: seq<ChoiceItem>)
    requires multiset(xs) == multiset(ys) && DistinctTargets(ys)
    ensures DistinctTargets(xs)
    ensures forall item :: item in xs <==> item in ys
  {
    SameMembers(xs, ys);
    if |xs| > 0 {
      var n := |xs| - 1;
      var j := RemoveLast(xs, ys);
      var rest := ys[..j] + ys[j + 1..];
      DistinctPermutes(xs[..n], rest);
      forall i | 0 <= i < n ensures xs[i].chosen != xs[n].chosen {
        assert xs[..n][i] in rest;
        OthersDiffer(ys, j, xs[i]);
      }
      forall a, b | 0 <= a < b < n ensures xs[a].chosen != xs[b].chosen {
        assert xs[..n][a].chosen != xs[..n][b].chosen;
      }
    }
  }

  lemma DistinctSubmit(db: Db, view: RoomView, room: RoomId, user: UserId, items: seq<ChoiceItem>, now: Time)
    requires Refusal(Some(view), user).None? && AllValid(ValidTargets(view, user), items) && DistinctTargets(items)
    ensures var (d, n) := Sequential(db, room, user, items, now);
      NotSelf(items, user) && Submit(db, Some(view), room, user, items, now) == (d, Accepted(|items|, n))
  {
    DistinctBatchIsClean(db, room, user, items, now);
    BufferedRefinesSequential(db, room, user, items, now);
  }

  /** For distinct targets, every permutation of a batch leaves the same tables and answers the same. */
  lemma OrderOfBatchIsIrrelevant(db: Db, view: Option<RoomView>, room: RoomId, user: UserId, xs: seq<ChoiceItem>,
      ys: seq<ChoiceItem>, now: Time)
    requires multiset(xs) == multiset(ys) && DistinctTargets(ys)
    ensures Submit(db, view, room, user, xs, now) == Submit(db, view, room, user, ys, now)
  {
    DistinctPermutes(xs, ys);
    assert |xs| == |multiset(xs)| == |multiset(ys)| == |ys|;
    if Refusal(view, user).None? {
      var targets := ValidTargets(view.value, user);
      assert AllValid(targets, xs) <==> (forall item :: item in xs ==> item.chosen in targets);
      assert AllValid(targets, ys) <==> (forall item :: item in ys ==> item.chosen in targets);
      if AllValid(targets, ys) {
        DistinctSubmit(db, view.value, room, user, xs, now);
        DistinctSubmit(db, view.value, room, user, ys, now);
        SequentialPermutes(db, room, user, xs, ys, now);
      }
    }
  }

  // ---- Counting matches ------------------------------------------------------------------------

  ghost function LiveSet(db: Db): set<Pair> {
    set p | p in db.matches && LiveStatus(db.matches[p].status)
  }

  /** The live matches a batch withdraws from. */
  ghost function Withdrawn(db: Db, room: RoomId, user: UserId, items: seq<ChoiceItem>): set<Pair> {
    set p | p in LiveSet(db) && Involves(p, room, user)
            && LastAnswer(items, Counterpart(p, user)).Some?
            && LastAnswer(items, Counterpart(p, user)).value.kind != Interested
  }

  lemma {:induction false} UntouchedMatch(db: Db, room: RoomId, user: UserId, items: seq<ChoiceItem>, now: Time,
      t: UserId)
    requires NotSelf(items, user) && t != user && forall i :: 0 <= i < |items| ==> items[i].chosen != t
    ensures var p := Canonical(room, user, t);
      Lookup(Sequential(db, room, user, items, now).0.matches, p) == Lookup(db.matches, p)
  {
    if |items| > 0 {
      var n := |items| - 1;
      UntouchedMatch(db, room, user, items[..n], now, t);
      ItemIsLocal(Sequential(db, room, user, items[..n], now).0, room, user, items[n], t, now);
    }
  }

  /** `new_mutual` is exactly the number of matches that were not live before and are after. */
  lemma {:induction false} NewMutualCountsNewLive(db: Db, room: RoomId, user: UserId, items: seq<ChoiceItem>, now: Time)
    requires DistinctTargets(items) && NotSelf(items, user)
    ensures var (d, n) := Sequential(db, room, user, items, now);
      n == |LiveSet(d) - LiveSet(db)|
  {
    hide MatchAfter, Wants;
    if |items| == 0 {
      assert LiveSet(db) - LiveSet(db) == {};
    } else {
      var k := |items| - 1;
      var item, p := items[k], Canonical(room, user, items[k].chosen);
      var (d, n) := Sequential(db, room, user, items[..k], now);
      NewMutualCountsNewLive(db, room, user, items[..k], now);
      UntouchedMatch(db, room, user, items[..k], now, item.chosen);
      OneItemLive(d, room, user, item, now);
      CountOneMore(LiveSet(db), LiveSet(d), LiveSet(SeqItem(d, room, user, item, now)), p);
    }
  }

  lemma CountOneMore<T>(before: set<T>, mid: set<T>, after: set<T>, p: T)
    requires p in mid <==> p in before
    requires forall q :: q != p ==> (q in after <==> q in mid)
    ensures |after - before| == |mid - before| + if p in after && p !in mid then 1 else 0
  {
    if p in after && p !in mid {
      assert after - before == (mid - before) + {p};
    } else {
      assert after - before == mid - before;
    }
  }

  lemma OneItemLive(d: Db, room: RoomId, user: UserId, item: ChoiceItem, now: Time)
    ensures var d', p := SeqItem(d, room, user, item, now), Canonical(room, user, item.chosen);
      && (forall q :: q != p ==> (q in LiveSet(d') <==> q in LiveSet(d)))
      && (SeqGain(d, room, user, item, now) == 1 <==> p in LiveSet(d') && p !in LiveSet(d))
  {
  }

  /** Conservation: live matches after = live before + new_mutual - withdrawn. */
  lemma MatchesAreConserved(db: Db, view: RoomView, room: RoomId, user: UserId, items: seq<ChoiceItem>, now: Time)
    requires Exact(db) && DistinctTargets(items)
    requires Refusal(Some(view), user).None? && AllValid(ValidTargets(view, user), items)
    ensures var (db', out) := Submit(db, Some(view), room, user, items, now);
      && out.Accepted?
      && Withdrawn(db, room, user, items) == LiveSet(db) - LiveSet(db')
      && |LiveSet(db')| == |LiveSet(db)| + out.newMutual - |Withdrawn(db, room, user, items)|
  {
    DistinctSubmit(db, view, room, user, items, now);
    DistinctBatchIsClean(db, room, user, items, now);
    NewMutualCountsNewLive(db, room, user, items, now);
    var (db', out) := Submit(db, Some(view), room, user, items, now);
    WithdrawnMatches(db, room, user, items, now);
    assert db' == Flush(db, Buffer(db, room, user, items, now));
    hide Submit, Sequential, Buffer, Flush, Exact, LiveSet, Withdrawn;
    ExchangeCounts(LiveSet(db), LiveSet(db'));
  }

  lemma ExchangeCounts<T>(before: set<T>, after: set<T>)
    ensures |after| == |before| + |after - before| - |before - after|
  {
    assert after == (after - before) + (after * before) && before == (before - after) + (after * before);
    assert |after| == |after - before| + |after * before| && |before| == |before - after| + |after * before|;
  }

  lemma WithdrawnMatches(db: Db, room: RoomId, user: UserId, items: seq<ChoiceItem>, now: Time)
    requires Exact(db) && NotSelf(items, user)
    requires Flushable(Buffer(db, room, user, items, now)) && !AnyStale(db, room, user, items)
    ensures Withdrawn(db, room, user, items) == LiveSet(db) - LiveSet(Flush(db, Buffer(db, room, user, items, now)))
  {
    var db' := Flush(db, Buffer(db, room, user, items, now));
    forall p | p in LiveSet(db) ensures p !in LiveSet(db') <==> p in Withdrawn(db, room, user, items) {
      WithdrawnMatch(db, room, user, items, now, p);
    }
  }

  lemma WithdrawnMatch(db: Db, room: RoomId, user: UserId, items: seq<ChoiceItem>, now: Time, p: Pair)
    requires Exact(db) && NotSelf(items, user) && p in LiveSet(db)
    requires Flushable(Buffer(db, room, user, items, now)) && !AnyStale(db, room, user, items)
    ensures p !in LiveSet(Flush(db, Buffer(db, room, user, items, now))) <==> p in Withdrawn(db, room, user, items)
  {
    assert Live(db, p) && BothInterested(db, p);
    if Involves(p, room, user) {
      var t := Counterpart(p, user);
      assert Canonical(room, user, t) == p;
      StaleIsInBatch(db, room, user, items, t);
      CommittedMatch(db, room, user, items, now, t);
    } else {
      CommitFrame(db, room, user, items, now, Directed(room + 1, user, user), p);
    }
  }

  // ---- Resubmission -------------------------------------------------------------------------------

  predicate Settled(db: Db, room: RoomId, user: UserId, item: ChoiceItem) {
    && Lookup(db.choices, Directed(room, user, item.chosen)) == Some(ChoiceRow(item.kind, item.note))
    && (item.kind == Interested && Wants(db.choices, room, item.chosen, user) ==>
          var m := Lookup(db.matches, Canonical(room, user, item.chosen));
          m.Some? && m.value.status != NoMatch)
  }

  lemma {:induction false} BatchSettles(db: Db, room: RoomId, user: UserId, items: seq<ChoiceItem>, now: Time)
    requires DistinctTargets(items) && NotSelf(items, user)
    ensures forall i :: 0 <= i < |items| ==> Settled(Sequential(db, room, user, items, now).0, room, user, items[i])
  {
    if |items| > 0 {
      var n := |items| - 1;
      var d := Sequential(db, room, user, items[..n], now).0;
      BatchSettles(db, room, user, items[..n], now);
      forall i | 0 <= i < n ensures Settled(SeqItem(d, room, user, items[n], now), room, user, items[i]) {
        assert items[..n][i] == items[i];
        ItemIsLocal(d, room, user, items[n], items[i].chosen, now);
      }
    }
  }

  lemma {:induction false} SettledBatchIsSilent(db: Db, room: RoomId, user: UserId, items: seq<ChoiceItem>, now: Time)
    requires NotSelf(items, user)
    requires forall i :: 0 <= i < |items| ==> Settled(db, room, user, items[i])
    ensures Sequential(db, room, user, items, now) == (db, 0)
  {
    if |items| > 0 {
      var n := |items| - 1;
      SettledBatchIsSilent(db, room, user, items[..n], now);
      var key, p := Directed(room, user, items[n].chosen), Canonical(room, user, items[n].chosen);
      assert Settled(db, room, user, items[n]);
      assert db.choices[key := db.choices[key]] == db.choices;
      assert p in db.matches ==> db.matches[p := db.matches[p]] == db.matches;
    }
  }

  /** Submitting the same batch again, whenever nothing else has happened since, changes nothing and reports no new
      match. */
  lemma RepeatIsSilent(db: Db, view: RoomView, room: RoomId, user: UserId, items: seq<ChoiceItem>,
      now: Time, later: Time)
    requires DistinctTargets(items)
    requires Refusal(Some(view), user).None? && AllValid(ValidTargets(view, user), items)
    ensures var db' := Submit(db, Some(view), room, user, items, now).0;
      Submit(db', Some(view), room, user, items, later) == (db', Accepted(|items|, 0))
  {
    DistinctSubmit(db, view, room, user, items, now);
    var db' := Submit(db, Some(view), room, user, items, now).0;
    DistinctSubmit(db', view, room, user, items, later);
    BatchSettles(db, room, user, items, now);
    SettledBatchIsSilent(db', room, user, items, later);
  }

  // ---- Visibility -------------------------------------------------------------------------------

  predicate KeepsVisibility(db: Db, matches: map<Pair, MatchRow>) {
    forall p :: p in db.matches && db.matches[p].visibleAt.Some? ==>
      p in matches && matches[p].visibleAt == db.matches[p].visibleAt
  }

  lemma {:induction false} BufferKeepsVisibility(db: Db, room: RoomId, user: UserId, items: seq<ChoiceItem>, now: Time)
    ensures var ses := Buffer(db, room, user, items, now);
      && ses.matches.Keys == db.matches.Keys
      && KeepsVisibility(db, ses.matches)
      && forall kv :: kv in ses.newMatches ==> kv.0 !in db.matches
  {
    if |items| > 0 {
      BufferKeepsVisibility(db, room, user, items[..|items| - 1], now);
    }
  }

  lemma RequestKeepsVisibility(db: Db, r: Request)
    ensures KeepsVisibility(db, Serve(db, r).matches)
  {
    if r.Submission? {
      var ses := Buffer(db, r.room, r.user, r.items, r.now);
      BufferKeepsVisibility(db, r.room, r.user, r.items, r.now);
      forall p | p in db.matches && db.matches[p].visibleAt.Some?
        ensures Lookup(InsertAll(ses.matches, ses.newMatches), p) == Lookup(ses.matches, p)
      {
        NotPending(ses.newMatches, p);
        InsertAllGet(ses.matches, ses.newMatches, p);
      }
    }
  }

  /** Once a match has its time of visibility, no downgrade, re-promotion or proposal moves it. */
  lemma {:induction false} VisibilityNeverMoves(run: seq<Request>, more: seq<Request>)
    ensures KeepsVisibility(Run(run), Run(run + more).matches)
  {
    if |more| == 0 {
      assert run + more == run;
    } else {
      var n := |more| - 1;
      VisibilityNeverMoves(run, more[..n]);
      assert (run + more)[..|run + more| - 1] == run + more[..n];
      RequestKeepsVisibility(Run(run + more[..n]), more[n]);
    }
  }

  // ---- What a participant is shown ------------------------------------------------------------

  lemma ListedIsMutual(db: Db, room: RoomId, host: bool, user: UserId, v: UserId, now: Time)
    requires Exact(db) && v != user
    ensures var p := Canonical(room, user, v);
      (exists q :: q in db.matches && Listed(db, room, host, user, q, now) && Counterpart(q, user) == v)
      <==> (&& Wants(db.choices, room, user, v) && Wants(db.choices, room, v, user)
            && p in db.matches && db.matches[p].visibleAt.Some?
            && (host || db.matches[p].visibleAt.value <= now))
    ensures forall q :: q in db.matches && Listed(db, room, host, user, q, now) && Counterpart(q, user) == v ==>
      q == Canonical(room, user, v)
  {
    var p := Canonical(room, user, v);
    assert Live(db, p) <==> BothInterested(db, p);
    assert Counterpart(p, user) == v;
    if p in db.matches && Listed(db, room, host, user, p, now) {
      assert Live(db, p);
    }
  }

  lemma NeverSlipsIsExact(run: seq<Request>)
    requires NeverSlips(run)
    ensures Exact(Run(run))
  {
    hide Exact;
    ViewExactThroughoutIff(run);
  }

  /** The chooser's stored answers are those of the batch. */
  predicate Stored(db: Db, room: RoomId, user: UserId, items: seq<ChoiceItem>) {
    forall i :: 0 <= i < |items| ==>
      Lookup(db.choices, Directed(room, user, items[i].chosen)) == Some(ChoiceRow(items[i].kind, items[i].note))
  }

  lemma StoredIsSettled(db: Db, room: RoomId, user: UserId, items: seq<ChoiceItem>)
    requires Exact(db) && NotSelf(items, user) && Stored(db, room, user, items)
    ensures forall i :: 0 <= i < |items| ==> Settled(db, room, user, items[i])
  {
    forall i | 0 <= i < |items| ensures Settled(db, room, user, items[i]) {
      var p := Canonical(room, user, items[i].chosen);
      assert Live(db, p) <==> BothInterested(db, p);
    }
  }

  /** After any run in which no request slips, whatever others did in between, submitting answers that are stored
      already changes nothing and reports no new match. */
  lemma {:induction false} ResubmissionIsSilent(run: seq<Request>, view: RoomView, room: RoomId, user: UserId,
      items: seq<ChoiceItem>, later: Time)
    requires NeverSlips(run) && DistinctTargets(items) && Stored(Run(run), room, user, items)
    requires Refusal(Some(view), user).None? && AllValid(ValidTargets(view, user), items)
    ensures Submit(Run(run), Some(view), room, user, items, later) == (Run(run), Accepted(|items|, 0))
  {
    hide Run, NeverSlips, Exact, Stored, Submit, Sequential;
    NeverSlipsIsExact(run);
    DistinctSubmit(Run(run), view, room, user, items, later);
    StoredIsSettled(Run(run), room, user, items);
    SettledBatchIsSilent(Run(run), room, user, items, later);
  }

  /** In every run in which no request slips, the list shows `v` exactly when both answered INTERESTED and the
      embargo does not apply, and it shows `v` through one row only. */
  lemma {:induction false} ListShowsMutualInterest(run: seq<Request>, room: RoomId, host: bool, user: UserId,
      v: UserId, now: Time)
    requires NeverSlips(run) && v != user
    ensures var db, p := Run(run), Canonical(room, user, v);
      (exists q :: q in db.matches && Listed(db, room, host, user, q, now) && Counterpart(q, user) == v)
      <==> (&& Wants(db.choices, room, user, v) && Wants(db.choices, room, v, user)
            && p in db.matches && db.matches[p].visibleAt.Some?
            && (host || db.matches[p].visibleAt.value <= now))
    ensures var db := Run(run);
      forall q :: q in db.matches && Listed(db, room, host, user, q, now) && Counterpart(q, user) == v ==>
        q == Canonical(room, user, v)
  {
    hide Run, NeverSlips, Exact, Listed, Wants;
    NeverSlipsIsExact(run);
    ListedIsMutual(Run(run), room, host, user, v, now);
  }

  /** A row that a request creates becomes visible 24 hours after it. */
  lemma NewRowEmbargo(db: Db, r: Request, p: Pair)
    requires p !in db.matches && p in Serve(db, r).matches
    ensures r.Submission? && Serve(db, r).matches[p].visibleAt == Some(r.now + EMBARGO)
  {
    if r.Submission? {
      var ses, t := Buffer(db, r.room, r.user, r.items, r.now), Counterpart(p, r.user);
      InsertAllGet(ses.matches, ses.newMatches, p);
      BufferMatch(db, r.room, r.user, r.items, r.now, t);
      PendingHas(ses.newMatches, p);
      PendingMine(db, r.room, r.user, r.items, r.now);
      var kv :| kv in ses.newMatches && kv.0 == p;
      assert MyPair(kv, r.room, r.user);
    }
  }

  /** From the request that creates a match on, whatever is submitted or proposed next, either side is shown it
      exactly while both are interested: the host at once, the other from 24 hours after its creation on,
      however often it was withdrawn and revived in between. */
  lemma {:induction false} EmbargoHolds(run: seq<Request>, r: Request, more: seq<Request>, p: Pair, host: bool,
      reader: UserId, later: Time)
    requires NeverSlips(run + [r] + more) && (reader == p.a || reader == p.b)
    requires p !in Run(run).matches && p in Run(run + [r]).matches
    ensures r.Submission?
    ensures var db := Run(run + [r] + more);
      && p in db.matches
      && (Listed(db, p.room, host, reader, p, later) <==>
            BothInterested(db, p) && (host || later >= r.now + 24 * HOUR))
  {
    hide Exact, NeverSlips, Serve, BothInterested;
    assert (run + [r])[..|run|] == run;
    NewRowEmbargo(Run(run), r, p);
    VisibilityNeverMoves(run + [r], more);
    NeverSlipsIsExact(run + [r] + more);
    LiveMeansMutual(Run(run + [r] + more), p);
  }

  lemma LiveMeansMutual(db: Db, p: Pair)
    requires Exact(db) && p in db.matches
    ensures Live(db, p) <==> BothInterested(db, p)
    ensures db.matches[p].status in {Mutual, NoMatch, AfterProposed}
  {
  }

  /** An accepted proposal on the match. */
  predicate Proposes(before: seq<Request>, r: Request, p: Pair) {
    r.AfterDate? && r.pair == p && Propose(Run(before), r.user, r.pair, r.date, r.place).1 == None
  }

  predicate ProposedAt(run: seq<Request>, k: nat, p: Pair) {
    k < |run| && Proposes(run[..k], run[k], p)
  }

  lemma ProposalStep(before: seq<Request>, r: Request, p: Pair)
    ensures HasProposal(Serve(Run(before), r).proposals, p) <==>
      HasProposal(Run(before).proposals, p) || Proposes(before, r, p)
  {
    hide Run, Buffer, Flushable, InsertAll;
    var db, db' := Run(before), Serve(Run(before), r);
    if Proposes(before, r, p) {
      assert db'.proposals[|db.proposals|].pair == p;
    }
    if i :| 0 <= i < |db.proposals| && db.proposals[i].pair == p {
      assert db'.proposals[i].pair == p;
    }
  }

  /** In the list a match is marked exactly when a proposal was accepted on it at some moment of the run, and it names
      the other of the two. */
  lemma {:induction false} SummaryTellsProposals(run: seq<Request>, p: Pair, user: UserId)
    requires p in Run(run).matches && (user == p.a || user == p.b)
    ensures var shown := SummaryOf(Run(run), user, p);
      && (shown.afterProposed <==> exists k: nat :: ProposedAt(run, k, p))
      && {user, shown.counterpart} == {p.a, p.b} && shown.status == Run(run).matches[p].status
  {
    hide Run, HasProposal;
    ProposalsAreRemembered(run, p);
  }

  lemma {:induction false} ProposalsAreRemembered(run: seq<Request>, p: Pair)
    ensures HasProposal(Run(run).proposals, p) <==> exists k: nat :: ProposedAt(run, k, p)
  {
    hide Proposes, Serve;
    if |run| > 0 {
      var n := |run| - 1;
      ProposalsAreRemembered(run[..n], p);
      ProposalStep(run[..n], run[n], p);
      forall k: nat | k < n ensures ProposedAt(run, k, p) <==> ProposedAt(run[..n], k, p) {
        assert run[..n][..k] == run[..k];
      }
      if Proposes(run[..n], run[n], p) {
        assert ProposedAt(run, n, p);
      }
      if k: nat :| ProposedAt(run[..n], k, p) {
        assert ProposedAt(run, k, p);
      }
      if k: nat :| ProposedAt(run, k, p) {
        assert k < n ==> ProposedAt(run[..n], k, p);
      }
    }
  }

  // ---- A run in which the view stops being exact ---------------------------------------------------

  lemma SingleSubmit(db: Db, view: RoomView, room: RoomId, user: UserId, item: ChoiceItem, now: Time)
    requires Refusal(Some(view), user).None? && item.chosen in ValidTargets(view, user)
    ensures Submit(db, Some(view), room, user, [item], now).0 == SeqItem(db, room, user, item, now)
  {
    DistinctSubmit(db, view, room, user, [item], now);
    assert [item][..0] == [];
    assert Sequential(db, room, user, [], now).0 == db;
  }

  /** User 2 wants user 1, who answers MAYBE and later INTERESTED and NOT_INTERESTED in one batch. */
  lemma {:induction false} SlipIsReachable() returns (run: seq<Request>)
    ensures !Exact(Run(run)) && !NeverSlips(run)
  {
    hide Exact, NeverSlips, BufferItem, Flush;
    var view := RoomView(InProgress, 1, {1, 2}, map[1 := Male, 2 := Female]);
    var yes, maybe := ChoiceItem(1, Interested, None), ChoiceItem(2, Maybe, None);
    var r1, r2 := Submission(Some(view), 0, 2, [yes], 0), Submission(Some(view), 0, 1, [maybe], 0);
    var db1 := SeqItem(Db(map[], map[], []), 0, 2, yes, 0);
    var db2 := SeqItem(db1, 0, 1, maybe, 0);
    assert [r1, r2][..1] == [r1] && [r1][..0] == [];
    SingleSubmit(Run([]), view, 0, 2, yes, 0);
    assert Run([r1]) == db1;
    SingleSubmit(db1, view, 0, 1, maybe, 0);
    assert Run([r1, r2]) == db2;
    ViewExactOnDistinctBatches([r1, r2]);
    var items := WithdrawnInOneBatch(db2, view, 0, 1, 2, 0);
    var r3 := Submission(Some(view), 0, 1, items, 0);
    run := [r1, r2] + [r3];
    assert run[..2] == [r1, r2];
    assert Run(run) == Submit(db2, Some(view), 0, 1, items, 0).0;
    if NeverSlips(run) {
      NeverSlipsIsExact(run);
    }
  }
}
