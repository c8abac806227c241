/** The match table is a view of the choice table: when requests keep it exact, and what follows. */
module ChoiceView {
  import opened Types
  import opened ChoiceService

  predicate Live(db: Db, p: Pair) {
    p in db.matches && LiveStatus(db.matches[p].status)
  }

  predicate BothInterested(db: Db, p: Pair) {
    Wants(db.choices, p.room, p.a, p.b) && Wants(db.choices, p.room, p.b, p.a)
  }

  /** Rows are canonical, so an unordered pair has at most one; only three statuses occur. */
  ghost predicate WellFormed(db: Db) {
    && (forall p :: p in db.matches ==>
          p.a < p.b && db.matches[p].visibleAt.Some? && db.matches[p].status in {Mutual, NoMatch, AfterProposed})
    && (forall p :: p in db.matches && db.matches[p].status == AfterProposed ==> Proposed(db, p))
  }

  ghost predicate Proposed(db: Db, p: Pair) {
    exists i :: 0 <= i < |db.proposals| && db.proposals[i].pair == p && db.proposals[i].proposer in {p.a, p.b}
  }

  /** The view is exact: live matches are the pairs interested in each other. */
  ghost predicate Exact(db: Db) {
    && WellFormed(db)
    && (forall p: Pair :: p.a < p.b ==> (Live(db, p) <==> BothInterested(db, p)))
  }

  // ---- What a batch asks of one target -----------------------------------------------------

  function About(t: UserId): ChoiceItem -> bool {
    (item: ChoiceItem) => item.chosen == t
  }

  function InterestedIn(t: UserId): ChoiceItem -> bool {
    (item: ChoiceItem) => item.chosen == t && item.kind == Interested
  }

  /** The last answer the batch gives about `t`. */
  function LastAnswer(items: seq<ChoiceItem>, t: UserId): Option<ChoiceRow> {
    if |items| == 0 then None
    else
      var item := items[|items| - 1];
      if item.chosen == t then Some(ChoiceRow(item.kind, item.note)) else LastAnswer(items[..|items| - 1], t)
  }

  /** The batch would create a match row for `t` and then withdraw the interest in the same request,
      when the row is still pending and the withdrawal cannot find it. */
  predicate Stale(db: Db, room: RoomId, user: UserId, items: seq<ChoiceItem>, t: UserId) {
    && Wants(db.choices, room, t, user)
    && Canonical(room, user, t) !in db.matches
    && CountIf(items, InterestedIn(t)) > 0
    && LastAnswer(items, t).Some? && LastAnswer(items, t).value.kind != Interested
  }

  /** The rows that would be inserted twice. */
  predicate Repeats(db: Db, room: RoomId, user: UserId, items: seq<ChoiceItem>, t: UserId) {
    || (Directed(room, user, t) !in db.choices && CountIf(items, About(t)) > 1)
    || (Wants(db.choices, room, t, user) && Canonical(room, user, t) !in db.matches
        && CountIf(items, InterestedIn(t)) > 1)
  }

  predicate AnyStale(db: Db, room: RoomId, user: UserId, items: seq<ChoiceItem>) {
    exists i :: 0 <= i < |items| && Stale(db, room, user, items, items[i].chosen)
  }

  predicate AnyRepeats(db: Db, room: RoomId, user: UserId, items: seq<ChoiceItem>) {
    exists i :: 0 <= i < |items| && Repeats(db, room, user, items, items[i].chosen)
  }

  /** What a client can check before it submits: the request is not refused, every target is valid and no row
      would be inserted twice. */
  predicate Commits(db: Db, view: Option<RoomView>, room: RoomId, user: UserId, items: seq<ChoiceItem>) {
    && Refusal(view, user).None?
    && AllValid(ValidTargets(view.value, user), items)
    && !AnyRepeats(db, room, user, items)
  }

  predicate DistinctTargets(items: seq<ChoiceItem>) {
    forall i, j :: 0 <= i < j < |items| ==> items[i].chosen != items[j].chosen
  }

  predicate NotSelf(items: seq<ChoiceItem>, user: UserId) {
    forall i :: 0 <= i < |items| ==> items[i].chosen != user
  }

  // ---- Pending rows ----------------------------------------------------------------------------

  function HasKey<K(==), V>(k: K): ((K, V)) -> bool {
    (kv: (K, V)) => kv.0 == k
  }

  function LastPending<K(==), V>(s: seq<(K, V)>, k: K): Option<V> {
    if |s| == 0 then None
    else if s[|s| - 1].0 == k then Some(s[|s| - 1].1)
    else LastPending(s[..|s| - 1], k)
  }

  lemma {:induction false} InsertAllGet<K, V>(m: map<K, V>, s: seq<(K, V)>, k: K)
    ensures Lookup(InsertAll(m, s), k) == OrElse(LastPending(s, k), Lookup(m, k))
  {
    if |s| > 0 {
      InsertAllGet(m, s[..|s| - 1], k);
    }
  }

  lemma {:induction false} DistinctMeansOnce<K, V>(s: seq<(K, V)>)
    ensures DistinctKeys(s) <==> forall k :: CountIf(s, HasKey(k)) <= 1
  {
    if |s| > 0 {
      var n, k0 := |s| - 1, s[|s| - 1].0;
      DistinctMeansOnce(s[..n]);
      CountPositive(s[..n], HasKey(k0));
      if DistinctKeys(s) {
        forall k ensures CountIf(s, HasKey(k)) <= 1 {
          assert CountIf(s[..n], HasKey(k)) <= 1;
        }
      }
      if forall k :: CountIf(s, HasKey(k)) <= 1 {
        forall k ensures CountIf(s[..n], HasKey(k)) <= 1 {
          assert CountIf(s, HasKey(k)) <= 1;
        }
        assert CountIf(s, HasKey(k0)) <= 1;
      }
    }
  }

  // ---- The loop, one row at a time ---------------------------------------------------------

  /** The choice row of `t` after the loop: a loaded row holds the last answer, and a missing row
      has one pending copy for every item on `t`. */
  lemma {:induction false} BufferChoice(db: Db, room: RoomId, user: UserId, items: seq<ChoiceItem>, now: Time,
      t: UserId)
    ensures var ses, key := Buffer(db, room, user, items, now), Directed(room, user, t);
      && ses.choices.Keys == db.choices.Keys
      && CountIf(ses.newChoices, HasKey(key)) == (if key in db.choices then 0 else CountIf(items, About(t)))
      && LastPending(ses.newChoices, key) == (if key in db.choices then None else LastAnswer(items, t))
      && (key in db.choices ==>
            Lookup(ses.choices, key) == OrElse(LastAnswer(items, t), Lookup(db.choices, key)))
  {
    if |items| > 0 {
      var n := |items| - 1;
      var ses := Buffer(db, room, user, items[..n], now);
      BufferChoice(db, room, user, items[..n], now, t);
      var kv := (Directed(room, user, items[n].chosen), ChoiceRow(items[n].kind, items[n].note));
      CountAppend(ses.newChoices, kv, HasKey(Directed(room, user, t)));
      assert (ses.newChoices + [kv])[..|ses.newChoices|] == ses.newChoices;
    }
  }

  /** How one pass changes the rows of a pair: loaded rows stay loaded, and a missing row gets a pending
      copy exactly for an interested item on a target who is interested too. */
  lemma ItemOnMatch(stored: map<Directed, ChoiceRow>, ses: Session, room: RoomId, user: UserId, item: ChoiceItem,
                    now: Time, t: UserId)
    ensures var ses', p := BufferItem(stored, ses, room, user, item, now), Canonical(room, user, t);
      var adds := InterestedIn(t)(item) && Wants(stored, room, t, user) && p !in ses.matches;
      && ses'.matches.Keys == ses.matches.Keys
      && CountIf(ses'.newMatches, HasKey(p)) == CountIf(ses.newMatches, HasKey(p)) + (if adds then 1 else 0)
      && LastPending(ses'.newMatches, p)
         == (if adds then Some(MatchRow(Mutual, Some(now + EMBARGO))) else LastPending(ses.newMatches, p))
  {
    var ses' := BufferItem(stored, ses, room, user, item, now);
    var q := Canonical(room, user, item.chosen);
    assert q == Canonical(room, user, t) <==> item.chosen == t;
    if ses'.newMatches != ses.newMatches {
      var kv := (q, MatchRow(Mutual, Some(now + EMBARGO)));
      assert ses'.newMatches == ses.newMatches + [kv];
      CountAppend(ses.newMatches, kv, HasKey(Canonical(room, user, t)));
      assert (ses.newMatches + [kv])[..|ses.newMatches|] == ses.newMatches;
    }
  }

  /** The match row of `t` after the loop: loaded rows stay loaded, and a missing row has one
      pending copy for every interested item on a target who is interested too. */
  lemma {:induction false} BufferMatch(db: Db, room: RoomId, user: UserId, items: seq<ChoiceItem>, now: Time, t: UserId)
    ensures var ses, p := Buffer(db, room, user, items, now), Canonical(room, user, t);
      var copies := if Wants(db.choices, room, t, user) && p !in db.matches then CountIf(items, InterestedIn(t)) else 0;
      && ses.matches.Keys == db.matches.Keys
      && CountIf(ses.newMatches, HasKey(p)) == copies
      && LastPending(ses.newMatches, p) == (if copies > 0 then Some(MatchRow(Mutual, Some(now + EMBARGO))) else None)
  {
    if |items| > 0 {
      var n := |items| - 1;
      BufferMatch(db, room, user, items[..n], now, t);
      ItemOnMatch(db.choices, Buffer(db, room, user, items[..n], now), room, user, items[n], now, t);
      hide BufferItem, Wants, Canonical, LastPending;
    }
  }

  /** A loaded match row follows the answers: its time of visibility never moves, and it is live
      exactly when the answer that stands and the reverse one are both INTERESTED. */
  lemma {:induction false} BufferLoaded(db: Db, room: RoomId, user: UserId, items: seq<ChoiceItem>, now: Time,
      t: UserId)
    requires Exact(db) && t != user && Canonical(room, user, t) in db.matches
    requires Directed(room, user, t) in db.choices || CountIf(items, About(t)) <= 1
    ensures var ses, p := Buffer(db, room, user, items, now), Canonical(room, user, t);
      var answer := OrElse(LastAnswer(items, t), Lookup(db.choices, Directed(room, user, t)));
      && p in ses.matches
      && ses.matches[p].visibleAt == db.matches[p].visibleAt
      && ses.matches[p].status in {Mutual, NoMatch, AfterProposed}
      && (ses.matches[p].status == AfterProposed ==> db.matches[p].status == AfterProposed)
      && (LiveStatus(ses.matches[p].status) <==>
            Wants(db.choices, room, t, user) && answer.Some? && answer.value.kind == Interested)
  {
    hide BufferItem, Wants, Exact, LastPending, Canonical, HasKey;
    LoadedAtFirst(db, room, user, t);
    if |items| > 0 {
      var n := |items| - 1;
      BufferLoaded(db, room, user, items[..n], now, t);
      BufferChoice(db, room, user, items[..n], now, t);
      NoAnswer(items[..n], t);
      ItemOnLoaded(db.choices, Buffer(db, room, user, items[..n], now), room, user, items[n], now, t);
    }
  }

  lemma LoadedAtFirst(db: Db, room: RoomId, user: UserId, t: UserId)
    requires Exact(db) && t != user && Canonical(room, user, t) in db.matches
    ensures var m, answer := db.matches[Canonical(room, user, t)], Lookup(db.choices, Directed(room, user, t));
      && m.visibleAt.Some? && m.status in {Mutual, NoMatch, AfterProposed}
      && (LiveStatus(m.status) <==>
            Wants(db.choices, room, t, user) && answer.Some? && answer.value.kind == Interested)
  {
    var p := Canonical(room, user, t);
    assert Live(db, p) <==> BothInterested(db, p);
  }

  /** One pass moves a loaded match row of its own target only, by the answer before and after. */
  lemma ItemOnLoaded(stored: map<Directed, ChoiceRow>, ses: Session, room: RoomId, user: UserId, item: ChoiceItem,
                     now: Time, t: UserId)
    requires Canonical(room, user, t) in ses.matches
    ensures var ses', p := BufferItem(stored, ses, room, user, item, now), Canonical(room, user, t);
      && p in ses'.matches
      && (item.chosen != t ==> ses'.matches[p] == ses.matches[p])
      && (item.chosen == t ==>
            Some(ses'.matches[p]) == MatchAfter(Lookup(ses.choices, Directed(room, user, t)), Wants(stored, room,
                t, user),
                                                Some(ses.matches[p]), item.kind, now))
  {
    assert Canonical(room, user, item.chosen) == Canonical(room, user, t) <==> item.chosen == t;
  }

  lemma {:induction false} NoAnswer(items: seq<ChoiceItem>, t: UserId)
    ensures LastAnswer(items, t) == None <==> CountIf(items, About(t)) == 0
    ensures CountIf(items, InterestedIn(t)) <= CountIf(items, About(t))
    ensures CountIf(items, About(t)) == 1 ==>
      (CountIf(items, InterestedIn(t)) == 1 <==> LastAnswer(items, t).value.kind == Interested)
  {
    if |items| > 0 {
      NoAnswer(items[..|items| - 1], t);
    }
  }

  /** Pending rows only concern this chooser in this room. */
  predicate Mine(kv: (Directed, ChoiceRow), room: RoomId, user: UserId) {
    kv.0 == Directed(room, user, kv.0.chosen)
  }

  predicate MyPair(kv: (Pair, MatchRow), room: RoomId, user: UserId) {
    kv.0 == Canonical(room, user, Counterpart(kv.0, user))
  }

  lemma {:induction false} PendingMine(db: Db, room: RoomId, user: UserId, items: seq<ChoiceItem>, now: Time)
    ensures forall kv :: kv in Buffer(db, room, user, items, now).newChoices ==> Mine(kv, room, user)
    ensures forall kv :: kv in Buffer(db, room, user, items, now).newMatches ==> MyPair(kv, room, user)
  {
    if |items| > 0 {
      PendingMine(db, room, user, items[..|items| - 1], now);
    }
  }

  /** A key that occurs twice among the pending rows names the target it is about. */
  lemma RepeatedChoice(db: Db, room: RoomId, user: UserId, items: seq<ChoiceItem>, now: Time) returns (t: UserId)
    requires !DistinctKeys(Buffer(db, room, user, items, now).newChoices)
    ensures CountIf(Buffer(db, room, user, items, now).newChoices, HasKey(Directed(room, user, t))) > 1
  {
    var s := Buffer(db, room, user, items, now).newChoices;
    DistinctMeansOnce(s);
    var k: Directed :| CountIf(s, HasKey(k)) > 1;
    CountPositive(s, HasKey(k));
    var i :| 0 <= i < |s| && HasKey(k)(s[i]);
    PendingMine(db, room, user, items, now);
    assert s[i] in s && Mine(s[i], room, user);
    t := k.chosen;
  }

  lemma RepeatedMatch(db: Db, room: RoomId, user: UserId, items: seq<ChoiceItem>, now: Time) returns (t: UserId)
    requires !DistinctKeys(Buffer(db, room, user, items, now).newMatches)
    ensures CountIf(Buffer(db, room, user, items, now).newMatches, HasKey(Canonical(room, user, t))) > 1
  {
    var s := Buffer(db, room, user, items, now).newMatches;
    DistinctMeansOnce(s);
    var p: Pair :| CountIf(s, HasKey(p)) > 1;
    CountPositive(s, HasKey(p));
    var i :| 0 <= i < |s| && HasKey(p)(s[i]);
    PendingMine(db, room, user, items, now);
    assert s[i] in s && MyPair(s[i], room, user);
    t := Counterpart(p, user);
  }

  lemma RepeatsIff(db: Db, room: RoomId, user: UserId, items: seq<ChoiceItem>, now: Time, t: UserId)
    ensures Repeats(db, room, user, items, t) <==>
      CountIf(Buffer(db, room, user, items, now).newChoices, HasKey(Directed(room, user, t))) > 1
      || CountIf(Buffer(db, room, user, items, now).newMatches, HasKey(Canonical(room, user, t))) > 1
  {
    BufferChoice(db, room, user, items, now, t);
    BufferMatch(db, room, user, items, now, t);
  }

  /** The flush succeeds exactly when no row is inserted twice, which the tables before the request
      and the batch decide. */
  lemma FlushableIff(db: Db, room: RoomId, user: UserId, items: seq<ChoiceItem>, now: Time)
    ensures Flushable(Buffer(db, room, user, items, now)) <==> forall t :: !Repeats(db, room, user, items, t)
  {
    var ses := Buffer(db, room, user, items, now);
    if t :| Repeats(db, room, user, items, t) {
      RepeatsIff(db, room, user, items, now, t);
      DistinctMeansOnce(ses.newChoices);
      DistinctMeansOnce(ses.newMatches);
    } else if !DistinctKeys(ses.newChoices) {
      var t := RepeatedChoice(db, room, user, items, now);
      RepeatsIff(db, room, user, items, now, t);
    } else if !DistinctKeys(ses.newMatches) {
      var t := RepeatedMatch(db, room, user, items, now);
      RepeatsIff(db, room, user, items, now, t);
    }
  }

  /** The check made beforehand decides whether the request commits. */
  lemma AcceptedIff(db: Db, view: Option<RoomView>, room: RoomId, user: UserId, items: seq<ChoiceItem>, now: Time)
    ensures Submit(db, view, room, user, items, now).1.Accepted? <==> Commits(db, view, room, user, items)
  {
    hide Flush, Buffer, Flushable, Repeats;
    FlushableIff(db, room, user, items, now);
    forall t ensures Repeats(db, room, user, items, t) ==> AnyRepeats(db, room, user, items) {
      RepeatsIsInBatch(db, room, user, items, t);
    }
  }

  lemma RepeatsIsInBatch(db: Db, room: RoomId, user: UserId, items: seq<ChoiceItem>, t: UserId)
    ensures Repeats(db, room, user, items, t) ==> AnyRepeats(db, room, user, items)
  {
    CountPositive(items, About(t));
    CountPositive(items, InterestedIn(t));
    if i :| 0 <= i < |items| && items[i].chosen == t {
      assert Repeats(db, room, user, items, t) ==> Repeats(db, room, user, items, items[i].chosen);
    }
  }

  // ---- The committed tables ------------------------------------------------------------------

  /** After a commit, the answer about `t` is the batch's last one, or the old one. */
  lemma CommittedChoice(db: Db, room: RoomId, user: UserId, items: seq<ChoiceItem>, now: Time, t: UserId)
    ensures Lookup(Flush(db, Buffer(db, room, user, items, now)).choices, Directed(room, user, t))
         == OrElse(LastAnswer(items, t), Lookup(db.choices, Directed(room, user, t)))
  {
    var ses := Buffer(db, room, user, items, now);
    BufferChoice(db, room, user, items, now, t);
    InsertAllGet(ses.choices, ses.newChoices, Directed(room, user, t));
  }

  /** After a commit, the match of `t` is live exactly when both sides are interested, unless `t` is stale. */
  lemma CommittedMatch(db: Db, room: RoomId, user: UserId, items: seq<ChoiceItem>, now: Time, t: UserId)
    requires Exact(db) && t != user && Flushable(Buffer(db, room, user, items, now))
    ensures var p, m := Canonical(room, user, t),
                        Lookup(Flush(db, Buffer(db, room, user, items, now)).matches, Canonical(room, user, t));
      var answer := OrElse(LastAnswer(items, t), Lookup(db.choices, Directed(room, user, t)));
      var mutual := Wants(db.choices, room, t, user) && answer.Some? && answer.value.kind == Interested;
      && (m.Some? ==> m.value.visibleAt.Some? && m.value.status in {Mutual, NoMatch, AfterProposed})
      && (m.Some? && m.value.status == AfterProposed ==>
            p in db.matches && db.matches[p].status == AfterProposed)
      && (p in db.matches ==> m.Some? && m.value.visibleAt == db.matches[p].visibleAt)
      && (m.Some? && LiveStatus(m.value.status) <==> mutual || Stale(db, room, user, items, t))
      && !(mutual && Stale(db, room, user, items, t))
  {
    var ses, p := Buffer(db, room, user, items, now), Canonical(room, user, t);
    FlushableIff(db, room, user, items, now);
    assert !Repeats(db, room, user, items, t);
    BufferMatch(db, room, user, items, now, t);
    InsertAllGet(ses.matches, ses.newMatches, p);
    if p in db.matches {
      BufferLoaded(db, room, user, items, now, t);
    } else {
      assert Live(db, p) <==> BothInterested(db, p);
      AnswerInterested(items, t);
    }
  }

  lemma {:induction false} AnswerInterested(items: seq<ChoiceItem>, t: UserId)
    ensures LastAnswer(items, t).Some? && LastAnswer(items, t).value.kind == Interested ==>
      CountIf(items, InterestedIn(t)) > 0
    ensures CountIf(items, InterestedIn(t)) > 0 ==> LastAnswer(items, t).Some?
  {
    if |items| > 0 {
      AnswerInterested(items[..|items| - 1], t);
    }
  }

  /** Rows of other choosers, other rooms and other pairs are untouched by a commit. */
  lemma CommitFrame(db: Db, room: RoomId, user: UserId, items: seq<ChoiceItem>, now: Time, k: Directed, p: Pair)
    requires k.room != room || k.chooser != user
    requires p.room != room || (p.a != user && p.b != user)
    ensures var db' := Flush(db, Buffer(db, room, user, items, now));
      Lookup(db'.choices, k) == Lookup(db.choices, k) && Lookup(db'.matches, p) == Lookup(db.matches, p)
  {
    var ses := Buffer(db, room, user, items, now);
    PendingMine(db, room, user, items, now);
    NotPending(ses.newChoices, k);
    NotPending(ses.newMatches, p);
    InsertAllGet(ses.choices, ses.newChoices, k);
    InsertAllGet(ses.matches, ses.newMatches, p);
    BufferFrame(db, room, user, items, now, k, p);
  }

  lemma {:induction false} NotPending<K, V>(s: seq<(K, V)>, k: K)
    requires forall kv :: kv in s ==> kv.0 != k
    ensures LastPending(s, k) == None
  {
    if |s| > 0 {
      NotPending(s[..|s| - 1], k);
    }
  }

  lemma {:induction false} BufferFrame(db: Db, room: RoomId, user: UserId, items: seq<ChoiceItem>, now: Time,
      k: Directed, p: Pair)
    requires k.room != room || k.chooser != user
    requires p.room != room || (p.a != user && p.b != user)
    ensures var ses := Buffer(db, room, user, items, now);
      Lookup(ses.choices, k) == Lookup(db.choices, k) && Lookup(ses.matches, p) == Lookup(db.matches, p)
  {
    if |items| > 0 {
      BufferFrame(db, room, user, items[..|items| - 1], now, k, p);
    }
  }
}
