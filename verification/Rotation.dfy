/** The round-robin schedule and the session that plays it (app/services/rotation_service.py). */
module Rotation {
  import opened Types

  datatype Seat = Seat(table: nat, a: UserId, b: UserId)

  datatype RoundStatus = Pending | Active | Done
  datatype SessionStatus = NotStarted | Running | Paused | Ended

  /** A round row together with its seat rows, which are only ever reached through the round. */
  datatype Round = Round(number: nat, status: RoundStatus, startsAt: Time, endsAt: Option<Time>, seats: seq<Seat>)

  datatype Session = Session(
    status: SessionStatus, current: nat, minutes: int, startedAt: Time, endedAt: Option<Time>, rounds: seq<Round>)

  datatype Refusal = NotRunning | LastRound | AlreadyEnded

  // ---- The schedule --------------------------------------------------------------------------

  /** `(i + r) % n` for positions below `n`. */
  function Wrap(n: nat, i: nat, r: nat): (k: nat)
    requires i < n && r < n
    ensures k < n
  {
    if i + r < n then i + r else i + r - n
  }

  lemma WrapIsModulo(n: nat, i: nat, r: nat)
    requires i < n && r < n
    ensures Wrap(n, i, r) == (i + r) % n
  {
    var x := i + r;
    var q := x / n;
    assert x == q * n + x % n;
    MultipleBounds(q, n);
  }

  lemma MultipleBounds(q: int, n: int)
    requires n > 0
    ensures q >= 2 ==> q * n >= 2 * n
    ensures q < 0 ==> q * n <= -n
    ensures q == 1 ==> q * n == n
  {
  }

  function SeatAt(males: seq<UserId>, females: seq<UserId>, r: nat, i: nat): Seat
    requires |males| == |females| && i < |males| && r < |males|
  {
    Seat(i + 1, males[i], females[Wrap(|males|, i, r)])
  }

  function SeatsOf(males: seq<UserId>, females: seq<UserId>, r: nat): (seats: seq<Seat>)
    requires |males| == |females| && r < |males|
    ensures |seats| == |males|
    ensures forall i :: 0 <= i < |males| ==> seats[i] == SeatAt(males, females, r, i)
  {
    seq(|males|, i requires 0 <= i < |males| => SeatAt(males, females, r, i))
  }

  /** The nested loops of the source. */
  method RoundRobinPairs(males: seq<UserId>, females: seq<UserId>) returns (rounds: seq<seq<Seat>>)
    requires |males| == |females|
    ensures |rounds| == |males|
    ensures forall r :: 0 <= r < |rounds| ==> rounds[r] == SeatsOf(males, females, r)
  {
    var n := |males|;
    rounds := [];
    for r := 0 to n
      invariant |rounds| == r
      invariant forall k :: 0 <= k < r ==> rounds[k] == SeatsOf(males, females, k)
    {
      var seats: seq<Seat> := [];
      for i := 0 to n
        invariant |seats| == i
        invariant forall k :: 0 <= k < i ==> seats[k] == SeatAt(males, females, r, k)
      {
        WrapIsModulo(n, i, r);
        seats := seats + [Seat(i + 1, males[i], females[(i + r) % n])];
      }
      assert seats == SeatsOf(males, females, r);
      rounds := rounds + [seats];
    }
  }

  // ---- The session as a value -----------------------------------------------------------------

  function RoundAt(males: seq<UserId>, females: seq<UserId>, r: nat, startedAt: Time, minutes: int): Round
    requires |males| == |females| && r < |males|
  {
    Round(r + 1, if r == 0 then Active else Pending,
          startedAt + minutes * MINUTE * r, Some(startedAt + minutes * MINUTE * (r + 1)),
          SeatsOf(males, females, r))
  }

  function Started(males: seq<UserId>, females: seq<UserId>, startedAt: Time, minutes: int): Session
    requires |males| == |females|
  {
    Session(Running, 1, minutes, startedAt, None,
            seq(|males|, r requires 0 <= r < |males| => RoundAt(males, females, r, startedAt, minutes)))
  }

  /** The position of the first round with a given number, or `|rounds|`. */
  function Find(rounds: seq<Round>, number: nat): (k: nat)
    ensures k <= |rounds|
    ensures k < |rounds| ==> rounds[k].number == number
    ensures forall j :: 0 <= j < k ==> rounds[j].number != number
  {
    if |rounds| == 0 || rounds[0].number == number then 0 else 1 + Find(rounds[1..], number)
  }

  function Close(rounds: seq<Round>, number: nat, now: Time): seq<Round> {
    var k := Find(rounds, number);
    if k < |rounds| then rounds[k := rounds[k].(status := Done, endsAt := Some(now))] else rounds
  }

  function Open(rounds: seq<Round>, number: nat, now: Time, minutes: int): seq<Round> {
    var k := Find(rounds, number);
    if k < |rounds| then
      rounds[k := rounds[k].(status := Active, startsAt := now, endsAt := Some(now + minutes * MINUTE))]
    else rounds
  }

  /** `next_round` once the session is found: the refusal, or the advanced session. */
  function Advance(s: Session, now: Time): (Session, Option<Refusal>) {
    if s.status != Running then (s, Some(NotRunning))
    else if s.current >= |s.rounds| then (s, Some(LastRound))
    else (s.(rounds := Open(Close(s.rounds, s.current, now), s.current + 1, now, s.minutes),
             current := s.current + 1), None)
  }

  function EndRound(r: Round, now: Time): Round {
    if r.status != Done then r.(status := Done, endsAt := Some(if r.endsAt.Some? then r.endsAt.value else now))
    else r
  }

  function Finish(s: Session, now: Time): (Session, Option<Refusal>) {
    if s.status == Ended then (s, Some(AlreadyEnded))
    else (s.(status := Ended, endedAt := Some(now),
             rounds := seq(|s.rounds|, k requires 0 <= k < |s.rounds| => EndRound(s.rounds[k], now))), None)
  }

  // ---- Reading ----------------------------------------------------------------------------------

  datatype View = View(
    status: SessionStatus, current: nat, total: nat, minutes: int, roundStatus: Option<RoundStatus>,
    table: Option<nat>, opponent: Option<UserId>)

  predicate SitsAt(seat: Seat, user: UserId) { seat.a == user || seat.b == user }

  /** The position of the first seat of a user, or `|seats|`. */
  function FindSeat(seats: seq<Seat>, user: UserId): (k: nat)
    ensures k <= |seats|
    ensures k < |seats| ==> SitsAt(seats[k], user)
    ensures forall j :: 0 <= j < k ==> !SitsAt(seats[j], user)
  {
    if |seats| == 0 || SitsAt(seats[0], user) then 0 else 1 + FindSeat(seats[1..], user)
  }

  /** `get_my_current_round` for a session; `known` are the users with a profile. */
  function MyRound(s: Session, user: UserId, known: set<UserId>): View {
    var k := Find(s.rounds, s.current);
    if k == |s.rounds| then View(s.status, s.current, |s.rounds|, s.minutes, None, None, None)
    else
      var seats, phase := s.rounds[k].seats, Some(s.rounds[k].status);
      var i := FindSeat(seats, user);
      if i == |seats| then View(s.status, s.current, |s.rounds|, s.minutes, phase, None, None)
      else
        var other := if seats[i].a == user then seats[i].b else seats[i].a;
        View(s.status, s.current, |s.rounds|, s.minutes, phase, Some(seats[i].table),
             if other in known then Some(other) else None)
  }

  // ---- The loops behind the values -------------------------------------------------------------

  method BuildRounds(males: seq<UserId>, females: seq<UserId>, startedAt: Time, minutes: int)
    returns (rounds: seq<Round>)
    requires |males| == |females|
    ensures rounds == Started(males, females, startedAt, minutes).rounds
  {
    var pairs := RoundRobinPairs(males, females);
    var duration := minutes * MINUTE;
    rounds := [];
    for r := 0 to |pairs|
      invariant |rounds| == r
      invariant forall k :: 0 <= k < r ==> rounds[k] == RoundAt(males, females, k, startedAt, minutes)
    {
      var seats: seq<Seat> := [];
      for i := 0 to |pairs[r]|
        invariant seats == pairs[r][..i]
      {
        seats := seats + [Seat(pairs[r][i].table, pairs[r][i].a, pairs[r][i].b)];
      }
      assert seats == pairs[r];
      rounds := rounds + [Round(r + 1, if r == 0 then Active else Pending,
                                startedAt + duration * r, Some(startedAt + duration * (r + 1)), seats)];
    }
  }

  method FindRound(rounds: seq<Round>, number: nat) returns (k: nat)
    ensures k == Find(rounds, number)
  {
    k := 0;
    while k < |rounds| && rounds[k].number != number
      invariant k <= |rounds|
      invariant Find(rounds, number) == k + Find(rounds[k..], number)
    {
      assert rounds[k..][1..] == rounds[k + 1..];
      k := k + 1;
    }
  }

  method EndRounds(rounds: seq<Round>, now: Time) returns (done: seq<Round>)
    ensures |done| == |rounds|
    ensures forall k :: 0 <= k < |rounds| ==> done[k] == EndRound(rounds[k], now)
  {
    done := rounds;
    for k := 0 to |rounds|
      invariant |done| == |rounds|
      invariant forall j :: 0 <= j < k ==> done[j] == EndRound(rounds[j], now)
      invariant forall j :: k <= j < |rounds| ==> done[j] == rounds[j]
    {
      if done[k].status != Done {
        var endsAt := if done[k].endsAt.Some? then done[k].endsAt.value else now;
        done := done[k := done[k].(status := Done, endsAt := Some(endsAt))];
      }
    }
  }
}
