/** Mutual choices and the match table derived from them (app/services/choice_service.py).

    A request works on an ORM session that does not autoflush: a row that was loaded is changed
    in memory and the change is seen by later lookups, but a row that was added stays in a pending
    list, invisible to every later lookup, until the flush at the end of the request. */
module ChoiceService {
  import opened Types

  datatype ChoiceType = Interested | NotInterested | Maybe
  datatype MatchStatus = Pending | Mutual | OneSided | NoMatch | AfterProposed | AfterConfirmed | Closed

  /** Unique keys of the two tables. A pair is also the identity of its match row. */
  datatype Directed = Directed(room: RoomId, chooser: UserId, chosen: UserId)
  datatype Pair = Pair(room: RoomId, a: UserId, b: UserId)

  datatype ChoiceRow = ChoiceRow(kind: ChoiceType, note: Option<string>)
  datatype MatchRow = MatchRow(status: MatchStatus, visibleAt: Option<Time>)
  datatype Proposal = Proposal(pair: Pair, proposer: UserId, date: Option<Time>, place: Option<string>)
  datatype ChoiceItem = ChoiceItem(chosen: UserId, kind: ChoiceType, note: Option<string>)

  /** What a request reads about its room; a gender is present for every user with a profile. */
  datatype RoomView =
    RoomView(status: RoomStatus, host: UserId, checkedIn: set<UserId>, gender: map<UserId, Gender>)

  datatype Error = NotFound | Forbidden | InvalidState | InvalidTarget | IntegrityError
  datatype Outcome = Accepted(accepted: nat, newMutual: nat) | Failed(error: Error)

  datatype Db =
    Db(choices: map<Directed, ChoiceRow>, matches: map<Pair, MatchRow>, proposals: seq<Proposal>)

  /** The in-memory side of one request: loaded rows, pending rows and the running count. */
  datatype Session = Session(
    choices: map<Directed, ChoiceRow>,
    matches: map<Pair, MatchRow>,
    newChoices: seq<(Directed, ChoiceRow)>,
    newMatches: seq<(Pair, MatchRow)>,
    newMutual: nat)

  const EMBARGO: Time := 24 * HOUR

  function Canonical(room: RoomId, u: UserId, v: UserId): Pair {
    if u < v then Pair(room, u, v) else Pair(room, v, u)
  }

  predicate LiveStatus(s: MatchStatus) { s == Mutual || s == AfterProposed }

  predicate Wants(choices: map<Directed, ChoiceRow>, room: RoomId, u: UserId, v: UserId) {
    Directed(room, u, v) in choices && choices[Directed(room, u, v)].kind == Interested
  }

  function Lookup<K, V>(m: map<K, V>, k: K): Option<V> {
    if k in m then Some(m[k]) else None
  }

  /** The match row of a pair after one item: `reverse` is whether the other side is interested,
      `prev` the chooser's previous answer and `m` the row that a lookup returns. */
  function MatchAfter(prev: Option<ChoiceRow>, reverse: bool, m: Option<MatchRow>, kind: ChoiceType, now: Time)
    : Option<MatchRow>
  {
    if kind == Interested then
      if !reverse then m
      else if m == None then Some(MatchRow(Mutual, Some(now + EMBARGO)))
      else if m.value.status == NoMatch then
        Some(MatchRow(Mutual, if m.value.visibleAt == None then Some(now + EMBARGO) else m.value.visibleAt))
      else m
    else if prev.Some? && prev.value.kind == Interested && m.Some? && LiveStatus(m.value.status) then
      Some(m.value.(status := NoMatch))
    else m
  }

  /** A row was created or revived: this is what `new_mutual` counts. */
  function Gain(before: Option<MatchRow>, after: Option<MatchRow>): nat {
    if before != after && after.Some? && after.value.status == Mutual then 1 else 0
  }

  // ---- One request as the source runs it -------------------------------------------------

  /** One pass of the loop. `stored` is the choice table as the database has it, which is what the
      filter on the reverse choice's type is evaluated on. */
  function BufferItem(stored: map<Directed, ChoiceRow>, ses: Session, room: RoomId, user: UserId,
                      item: ChoiceItem, now: Time): Session
  {
    var key, p := Directed(room, user, item.chosen), Canonical(room, user, item.chosen);
    var row := ChoiceRow(item.kind, item.note);
    var m := Lookup(ses.matches, p);
    var m' := MatchAfter(Lookup(ses.choices, key), Wants(stored, room, item.chosen, user), m, item.kind, now);
    Session(
      if key in ses.choices then ses.choices[key := row] else ses.choices,
      if m.Some? then ses.matches[p := m'.value] else ses.matches,
      if key in ses.choices then ses.newChoices else ses.newChoices + [(key, row)],
      if m.None? && m'.Some? then ses.newMatches + [(p, m'.value)] else ses.newMatches,
      ses.newMutual + Gain(m, m'))
  }

  function Buffer(db: Db, room: RoomId, user: UserId, items: seq<ChoiceItem>, now: Time): Session {
    if |items| == 0 then Session(db.choices, db.matches, [], [], 0)
    else BufferItem(db.choices, Buffer(db, room, user, items[..|items| - 1], now), room, user,
                    items[|items| - 1], now)
  }

  lemma BufferNothing(db: Db, room: RoomId, user: UserId, items: seq<ChoiceItem>, now: Time)
    ensures Buffer(db, room, user, items[..0], now) == Session(db.choices, db.matches, [], [], 0)
  {
  }

  lemma BufferNext(db: Db, room: RoomId, user: UserId, items: seq<ChoiceItem>, i: nat, now: Time)
    requires i < |items|
    ensures Buffer(db, room, user, items[..i + 1], now)
         == BufferItem(db.choices, Buffer(db, room, user, items[..i], now), room, user, items[i], now)
  {
    assert items[..i + 1][..i] == items[..i];
  }

  predicate DistinctKeys<K(==), V>(s: seq<(K, V)>) {
    forall i, j :: 0 <= i < j < |s| ==> s[i].0 != s[j].0
  }

  /** The unique constraints, which the flush enforces on the pending rows. */
  predicate Flushable(ses: Session) {
    DistinctKeys(ses.newChoices) && DistinctKeys(ses.newMatches)
  }

  function InsertAll<K, V>(m: map<K, V>, s: seq<(K, V)>): map<K, V> {
    if |s| == 0 then m else InsertAll(m, s[..|s| - 1])[s[|s| - 1].0 := s[|s| - 1].1]
  }

  function Flush(db: Db, ses: Session): Db {
    db.(choices := InsertAll(ses.choices, ses.newChoices), matches := InsertAll(ses.matches, ses.newMatches))
  }

  /** The checks made before the loop, in the source's order. */
  function Refusal(view: Option<RoomView>, user: UserId): Option<Error> {
    if view.None? then Some(NotFound)
    else if view.value.status != InProgress && view.value.status != Completed then Some(InvalidState)
    else if user !in view.value.gender then Some(Forbidden)
    else if user !in view.value.checkedIn then Some(Forbidden)
    else None
  }

  function ValidTargets(view: RoomView, user: UserId): set<UserId>
    requires user in view.gender
  {
    set t | t in view.checkedIn && t in view.gender && view.gender[t] != view.gender[user] && t != user
  }

  predicate AllValid(targets: set<UserId>, items: seq<ChoiceItem>) {
    forall i :: 0 <= i < |items| ==> items[i].chosen in targets
  }

  /** The effect of one request: it commits wholly or leaves the tables unchanged. */
  function Submit(db: Db, view: Option<RoomView>, room: RoomId, user: UserId, items: seq<ChoiceItem>, now: Time)
    : (Db, Outcome)
  {
    if Refusal(view, user).Some? then (db, Failed(Refusal(view, user).value))
    else if !AllValid(ValidTargets(view.value, user), items) then (db, Failed(InvalidTarget))
    else
      var ses := Buffer(db, room, user, items, now);
      if Flushable(ses) then (Flush(db, ses), Accepted(|items|, ses.newMutual))
      else (db, Failed(IntegrityError))
  }

  function Propose(db: Db, user: UserId, p: Pair, date: Option<Time>, place: Option<string>): (Db, Option<Error>) {
    if p !in db.matches then (db, Some(NotFound))
    else if user != p.a && user != p.b then (db, Some(Forbidden))
    else if !LiveStatus(db.matches[p].status) then (db, Some(InvalidState))
    else (Db(db.choices, db.matches[p := db.matches[p].(status := AfterProposed)],
             db.proposals + [Proposal(p, user, date, place)]), None)
  }

  // ---- The reference: every write is visible at once --------------------------------------

  function SeqItem(db: Db, room: RoomId, user: UserId, item: ChoiceItem, now: Time): Db {
    var key, p := Directed(room, user, item.chosen), Canonical(room, user, item.chosen);
    var m' := MatchAfter(Lookup(db.choices, key), Wants(db.choices, room, item.chosen, user),
                         Lookup(db.matches, p), item.kind, now);
    db.(choices := db.choices[key := ChoiceRow(item.kind, item.note)],
        matches := if m'.Some? then db.matches[p := m'.value] else db.matches)
  }

  function SeqGain(db: Db, room: RoomId, user: UserId, item: ChoiceItem, now: Time): nat {
    var p := Canonical(room, user, item.chosen);
    Gain(Lookup(db.matches, p), Lookup(SeqItem(db, room, user, item, now).matches, p))
  }

  function Sequential(db: Db, room: RoomId, user: UserId, items: seq<ChoiceItem>, now: Time): (Db, nat) {
    if |items| == 0 then (db, 0)
    else
      var (d, n) := Sequential(db, room, user, items[..|items| - 1], now);
      var item := items[|items| - 1];
      (SeqItem(d, room, user, item, now), n + SeqGain(d, room, user, item, now))
  }

  // ---- Reading ------------------------------------------------------------------------------

  predicate Listed(db: Db, room: RoomId, host: bool, user: UserId, p: Pair, now: Time)
    requires p in db.matches
  {
    && p.room == room && (p.a == user || p.b == user)
    && db.matches[p].status in {Mutual, AfterProposed, AfterConfirmed}
    && (host || db.matches[p].visibleAt == None || db.matches[p].visibleAt.value <= now)
  }

  function Counterpart(p: Pair, user: UserId): UserId {
    if p.a == user then p.b else p.a
  }

  /** What is shown of a match; the counterpart's profile texts are left out. */
  datatype Summary = Summary(pair: Pair, status: MatchStatus, counterpart: UserId, afterProposed: bool)

  predicate HasProposal(proposals: seq<Proposal>, p: Pair) {
    exists i :: 0 <= i < |proposals| && proposals[i].pair == p
  }

  function SummaryOf(db: Db, user: UserId, p: Pair): Summary
    requires p in db.matches
  {
    Summary(p, db.matches[p].status, Counterpart(p, user), HasProposal(db.proposals, p))
  }

  // ---- The service --------------------------------------------------------------------------

  class ChoiceStore {
    var choices: map<Directed, ChoiceRow>
    var matches: map<Pair, MatchRow>
    var proposals: seq<Proposal>

    ghost function Snapshot(): Db
      reads this
    {
      Db(choices, matches, proposals)
    }

    constructor ()
      ensures Snapshot() == Db(map[], map[], [])
    {
      choices, matches, proposals := map[], map[], [];
    }

    /** The part of the loop that creates, revives or downgrades the match of one pair. */
    static method UpdateMatch(loaded: map<Pair, MatchRow>, pending: seq<(Pair, MatchRow)>, p: Pair,
                              prev: Option<ChoiceRow>, reverse: bool, kind: ChoiceType, now: Time)
      returns (rows: map<Pair, MatchRow>, newMatches: seq<(Pair, MatchRow)>, gained: nat)
      ensures var m, m' := Lookup(loaded, p), MatchAfter(prev, reverse, Lookup(loaded, p), kind, now);
        && rows == (if m.Some? then loaded[p := m'.value] else loaded)
        && newMatches == (if m.None? && m'.Some? then pending + [(p, m'.value)] else pending)
        && gained == Gain(m, m')
    {
      rows, newMatches, gained := loaded, pending, 0;
      if kind == Interested {
        if reverse {
          if p !in rows {
            newMatches := newMatches + [(p, MatchRow(Mutual, Some(now + EMBARGO)))];
            gained := 1;
          } else if rows[p].status == NoMatch {
            var visibleAt := if rows[p].visibleAt == None then Some(now + EMBARGO) else rows[p].visibleAt;
            rows := rows[p := MatchRow(Mutual, visibleAt)];
            gained := 1;
          }
        }
      } else if prev.Some? && prev.value.kind == Interested {
        if p in rows && LiveStatus(rows[p].status) {
          rows := rows[p := rows[p].(status := NoMatch)];
        }
      }
    }

    method SubmitChoices(view: Option<RoomView>, room: RoomId, user: UserId, items: seq<ChoiceItem>, now: Time)
      returns (out: Outcome)
      modifies this
      ensures (Snapshot(), out) == Submit(old(Snapshot()), view, room, user, items, now)
    {
      hide MatchAfter, Gain, Wants, Canonical, InsertAll, Buffer, Flushable, ValidTargets;
      BufferNothing(Snapshot(), room, user, items, now);
      var refusal := Refusal(view, user);
      if refusal.Some? {
        return Failed(refusal.value);
      }
      var targets := ValidTargets(view.value, user);
      var loaded, rows := choices, matches;
      var newChoices: seq<(Directed, ChoiceRow)> := [];
      var newMatches: seq<(Pair, MatchRow)> := [];
      var accepted: nat, newMutual: nat := 0, 0;
      for i := 0 to |items|
        invariant accepted == i
        invariant AllValid(targets, items[..i])
        invariant Session(loaded, rows, newChoices, newMatches, newMutual)
               == Buffer(old(Snapshot()), room, user, items[..i], now)
        invariant Snapshot() == old(Snapshot())
      {
        var item := items[i];
        BufferNext(old(Snapshot()), room, user, items, i, now);
        if item.chosen !in targets {
          assert !AllValid(targets, items);
          return Failed(InvalidTarget);
        }
        var key := Directed(room, user, item.chosen);
        var existing := Lookup(loaded, key);
        if existing.None? {
          newChoices := newChoices + [(key, ChoiceRow(item.kind, item.note))];
        } else {
          loaded := loaded[key := ChoiceRow(item.kind, item.note)];
        }
        accepted := accepted + 1;
        var reverse := Wants(choices, room, item.chosen, user);
        var gained: nat;
        rows, newMatches, gained :=
          UpdateMatch(rows, newMatches, Canonical(room, user, item.chosen), existing, reverse, item.kind, now);
        newMutual := newMutual + gained;
      }
      assert items[..|items|] == items;
      var ses := Session(loaded, rows, newChoices, newMatches, newMutual);
      if !Flushable(ses) {
        return Failed(IntegrityError);
      }
      choices, matches := InsertAll(loaded, newChoices), InsertAll(rows, newMatches);
      out := Accepted(accepted, newMutual);
    }

    method ProposeAfterDate(user: UserId, p: Pair, date: Option<Time>, place: Option<string>)
      returns (error: Option<Error>)
      modifies this`matches, this`proposals
      ensures (Snapshot(), error) == Propose(old(Snapshot()), user, p, date, place)
    {
      if p !in matches {
        return Some(NotFound);
      }
      if user != p.a && user != p.b {
        return Some(Forbidden);
      }
      if !LiveStatus(matches[p].status) {
        return Some(InvalidState);
      }
      proposals := proposals + [Proposal(p, user, date, place)];
      if matches[p].status == Mutual {
        matches := matches[p := matches[p].(status := AfterProposed)];
      }
      assert matches == old(matches)[p := old(matches)[p].(status := AfterProposed)];
      error := None;
    }

    /** The rows of the query, each once; a query has no fixed order. */
    method VisibleMatches(isHost: bool, room: RoomId, user: UserId, now: Time) returns (rows: seq<Pair>)
      ensures forall i, j :: 0 <= i < j < |rows| ==> rows[i] != rows[j]
      ensures forall p :: p in rows <==> p in matches && Listed(Snapshot(), room, isHost, user, p, now)
    {
      rows := [];
      var todo := matches.Keys;
      while todo != {}
        invariant todo <= matches.Keys
        invariant forall i, j :: 0 <= i < j < |rows| ==> rows[i] != rows[j]
        invariant forall p :: p in rows <==>
          p in matches && p !in todo && Listed(Snapshot(), room, isHost, user, p, now)
        decreases todo
      {
        var p :| p in todo;
        todo := todo - {p};
        if p.room == room && (p.a == user || p.b == user)
           && matches[p].status in {Mutual, AfterProposed, AfterConfirmed}
           && (isHost || matches[p].visibleAt == None || matches[p].visibleAt.value <= now)
        {
          rows := rows + [p];
        }
      }
    }

    /** The matches a participant is shown, each once, with the counterpart and whether a date was proposed. */
    method ListMyMatches(view: Option<RoomView>, room: RoomId, user: UserId, now: Time)
      returns (error: Option<Error>, shown: seq<Summary>)
      ensures error == (if view.None? then Some(NotFound)
                        else if user !in view.value.checkedIn then Some(Forbidden) else None)
      ensures error.Some? ==> shown == []
      ensures forall i :: 0 <= i < |shown| ==>
        shown[i].pair in matches && shown[i] == SummaryOf(Snapshot(), user, shown[i].pair)
      ensures forall i, j :: 0 <= i < j < |shown| ==> shown[i].pair != shown[j].pair
      ensures error.None? ==>
        forall p :: p in matches && Listed(Snapshot(), room, view.value.host == user, user, p, now) <==>
          exists i :: 0 <= i < |shown| && shown[i].pair == p
    {
      shown := [];
      if view.None? {
        return Some(NotFound), [];
      }
      if user !in view.value.checkedIn {
        return Some(Forbidden), [];
      }
      error := None;
      var rows := VisibleMatches(view.value.host == user, room, user, now);
      assert forall k :: 0 <= k < |rows| ==> rows[k] in rows;
      for k := 0 to |rows|
        invariant |shown| == k
        invariant forall i :: 0 <= i < k ==> shown[i] == SummaryOf(Snapshot(), user, rows[i])
      {
        var p := rows[k];
        var counterpart := if p.a == user then p.b else p.a;
        shown := shown + [Summary(p, matches[p].status, counterpart, HasProposal(proposals, p))];
      }
      forall p | p in rows ensures exists i :: 0 <= i < |shown| && shown[i].pair == p {
        var k :| 0 <= k < |rows| && rows[k] == p;
        assert shown[k].pair == p;
      }
    }
  }
}
