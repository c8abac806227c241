/** Credits: how they are issued, expire, and turn into a discount (app/services/credit_service.py). */
module CreditService {
  import opened Types

  datatype CreditKind = FixedAmount | Percent
  datatype CreditStatus = ActiveCredit | Used | Expired | Voided
  datatype CreditSource = ViableHostBonus | ReferralHost | ReferralFriend | ManualGrant

  datatype Credit = Credit(
    user: UserId, kind: CreditKind, amount: Option<int>, percent: Option<int>, cap: Option<int>,
    status: CreditStatus, source: CreditSource, sourceRoom: Option<RoomId>, sourceUser: Option<UserId>,
    expiresAt: Time)

  const DEFAULT_EXPIRY: Time := 90 * DAY
  const VIABLE_HOST_PERCENT := 30
  const VIABLE_HOST_MAX_KRW := 10_000
  const REFERRAL_HOST_AMOUNT_KRW := 3_000
  const REFERRAL_FRIEND_AMOUNT_KRW := 3_000
  const MAX_REFERRAL_BONUSES_PER_HOST := 5

  // ---- Issuing --------------------------------------------------------------------------------

  function HostBonus(host: UserId, room: RoomId, now: Time): Credit {
    Credit(host, Percent, None, Some(VIABLE_HOST_PERCENT), Some(VIABLE_HOST_MAX_KRW), ActiveCredit,
           ViableHostBonus, Some(room), None, now + DEFAULT_EXPIRY)
  }

  function ReferrerCredit(referrer: UserId, friend: UserId, now: Time): Credit {
    Credit(referrer, FixedAmount, Some(REFERRAL_HOST_AMOUNT_KRW), None, None, ActiveCredit,
           ReferralHost, None, Some(friend), now + DEFAULT_EXPIRY)
  }

  function FriendCredit(referrer: UserId, friend: UserId, now: Time): Credit {
    Credit(friend, FixedAmount, Some(REFERRAL_FRIEND_AMOUNT_KRW), None, None, ActiveCredit,
           ReferralFriend, None, Some(referrer), now + DEFAULT_EXPIRY)
  }

  function IsBonus(host: UserId, room: RoomId): Credit -> bool {
    (c: Credit) => c.user == host && c.source == ViableHostBonus && c.sourceRoom == Some(room)
  }

  function IsReferrerPair(referrer: UserId, friend: UserId): Credit -> bool {
    (c: Credit) => c.user == referrer && c.source == ReferralHost && c.sourceUser == Some(friend)
  }

  function IsFriendPair(referrer: UserId, friend: UserId): Credit -> bool {
    (c: Credit) => c.user == friend && c.source == ReferralFriend && c.sourceUser == Some(referrer)
  }

  function IsReferrerCredit(referrer: UserId): Credit -> bool {
    (c: Credit) => c.user == referrer && c.source == ReferralHost
  }

  /** At most one bonus per host and room. */
  function IssueBonus(credits: seq<Credit>, host: UserId, room: RoomId, now: Time): seq<Credit> {
    if CountIf(credits, IsBonus(host, room)) > 0 then credits else credits + [HostBonus(host, room, now)]
  }

  /** Both credits of a referral, at most once per pair and five times per referrer. */
  function IssuePair(credits: seq<Credit>, referrer: UserId, friend: UserId, now: Time): seq<Credit> {
    if CountIf(credits, IsReferrerPair(referrer, friend)) > 0 then credits
    else if CountIf(credits, IsReferrerCredit(referrer)) >= MAX_REFERRAL_BONUSES_PER_HOST then credits
    else credits + [ReferrerCredit(referrer, friend, now), FriendCredit(referrer, friend, now)]
  }

  function ExpireOne(c: Credit, user: UserId, now: Time): Credit {
    if c.user == user && c.status == ActiveCredit && c.expiresAt <= now then c.(status := Expired) else c
  }

  function ExpireAll(credits: seq<Credit>, user: UserId, now: Time): (r: seq<Credit>)
    ensures |r| == |credits| && forall i :: 0 <= i < |credits| ==> r[i] == ExpireOne(credits[i], user, now)
  {
    seq(|credits|, i requires 0 <= i < |credits| => ExpireOne(credits[i], user, now))
  }

  /** The credits of a user in reverse order of issue. */
  function NewestFirst(credits: seq<Credit>, user: UserId): seq<Credit> {
    if |credits| == 0 then []
    else
      var last := credits[|credits| - 1];
      (if last.user == user then [last] else []) + NewestFirst(credits[..|credits| - 1], user)
  }

  /** `active_credits`: held by the user, ACTIVE and not yet overdue. */
  function IsActive(user: UserId, now: Time): Credit -> bool {
    (c: Credit) => c.user == user && c.status == ActiveCredit && c.expiresAt > now
  }

  // ---- Discounts --------------------------------------------------------------------------------

  function Min(a: int, b: int): int { if a <= b then a else b }

  /** Division truncated toward zero, as `int(a / b)` does for `b > 0` when the quotient is exact enough. */
  function TruncDiv(a: int, b: int): int
    requires b > 0
  {
    if a >= 0 then a / b else -(-a / b)
  }

  function EstimateDiscount(c: Credit, price: int): int {
    if c.kind == FixedAmount then Min(if c.amount.Some? then c.amount.value else 0, price)
    else if c.percent.Some? && c.percent.value != 0 then
      var raw := TruncDiv(price * c.percent.value, 100);
      Min(if c.cap.Some? then Min(raw, c.cap.value) else raw, price)
    else 0
  }

  /** Position `i` is the first to attain the largest discount, which is positive. */
  predicate FirstBest(credits: seq<Credit>, price: int, i: nat, discount: int)
    requires i < |credits|
  {
    && EstimateDiscount(credits[i], price) == discount > 0
    && (forall j :: 0 <= j < |credits| ==> EstimateDiscount(credits[j], price) <= discount)
    && (forall j :: 0 <= j < i ==> EstimateDiscount(credits[j], price) < discount)
  }

  /** The loop of `best_discount`: the first credit with the largest positive discount, or none. */
  method BestDiscount(credits: seq<Credit>, price: int) returns (best: Option<Credit>, discount: int)
    ensures best == None ==> discount == 0 && forall c :: c in credits ==> EstimateDiscount(c, price) <= 0
    ensures best.Some? ==> exists i :: 0 <= i < |credits| && credits[i] == best.value && FirstBest(credits,
        price, i, discount)
    ensures discount == BestAmount(credits, price)
  {
    best, discount := None, 0;
    ghost var at: nat := 0;
    for k := 0 to |credits|
      invariant discount >= 0
      invariant discount == BestAmount(credits[..k], price)
      invariant forall j :: 0 <= j < k ==> EstimateDiscount(credits[j], price) <= discount
      invariant best == None ==> discount == 0
      invariant best.Some? ==> at < k && credits[at] == best.value && FirstBest(credits[..k], price, at, discount)
    {
      assert credits[..k + 1][..k] == credits[..k];
      var d := EstimateDiscount(credits[k], price);
      if d > discount {
        best, discount := Some(credits[k]), d;
        at := k;
      }
    }
    assert credits[..|credits|] == credits;
  }

  /** The amount of the best discount. */
  function BestAmount(credits: seq<Credit>, price: int): int {
    if |credits| == 0 then 0
    else
      var d, rest := EstimateDiscount(credits[|credits| - 1], price), BestAmount(credits[..|credits| - 1], price);
      if d > rest then d else rest
  }
}
