/** Identifiers, clock values and enumerations shared by every component. */
module Types {
  datatype Option<+T> = None | Some(value: T)

  function OrElse<T>(a: Option<T>, b: Option<T>): Option<T> {
    if a.Some? then a else b
  }

  /** UUIDs, abstracted to a totally ordered type: only equality and order are ever used. */
  type UserId = int
  type RoomId = nat
  type PlannerId = int

  /** Instants and durations in microseconds, the resolution of the source's datetimes. */
  type Time = int
  const MINUTE: Time := 60_000_000
  const HOUR: Time := 60 * MINUTE
  const DAY: Time := 24 * HOUR

  lemma ClockUnits()
    ensures MINUTE == 60_000_000 && HOUR == 3_600_000_000 && DAY == 86_400_000_000
  {
  }

  datatype Gender = Male | Female | Other

  datatype RoomStatus =
    | Draft | Published | Recruiting | Viable | Assigned | Confirmed | InProgress | Completed | Cancelled

  /** The position of the first element of `s` that satisfies `f`, or `|s|`. */
  function FirstIndex<T>(s: seq<T>, f: T -> bool): (k: nat)
    ensures k <= |s|
    ensures k < |s| ==> f(s[k])
    ensures forall j :: 0 <= j < k ==> !f(s[j])
  {
    if |s| == 0 || f(s[0]) then 0 else 1 + FirstIndex(s[1..], f)
  }

  /** The elements of `s` that satisfy `f`, in order. */
  function Filter<T>(s: seq<T>, f: T -> bool): seq<T> {
    if |s| == 0 then []
    else Filter(s[..|s| - 1], f) + if f(s[|s| - 1]) then [s[|s| - 1]] else []
  }

  lemma {:induction false} FilterSame<T>(s: seq<T>, f: T -> bool, g: T -> bool)
    requires forall i :: 0 <= i < |s| ==> (f(s[i]) <==> g(s[i]))
    ensures Filter(s, f) == Filter(s, g)
  {
    if |s| > 0 {
      FilterSame(s[..|s| - 1], f, g);
    }
  }

  lemma {:induction false} FilterMembers<T>(s: seq<T>, f: T -> bool)
    ensures forall x :: x in Filter(s, f) <==> x in s && f(x)
  {
    if |s| > 0 {
      FilterMembers(s[..|s| - 1], f);
      assert s == s[..|s| - 1] + [s[|s| - 1]];
    }
  }

  /** Number of elements of `s` that satisfy `f`. */
  function CountIf<T>(s: seq<T>, f: T -> bool): nat {
    if |s| == 0 then 0
    else CountIf(s[..|s| - 1], f) + if f(s[|s| - 1]) then 1 else 0
  }

  lemma CountAppend<T>(s: seq<T>, x: T, f: T -> bool)
    ensures CountIf(s + [x], f) == CountIf(s, f) + if f(x) then 1 else 0
  {
    assert (s + [x])[..|s|] == s;
  }

  lemma {:induction false} CountUpdate<T>(s: seq<T>, i: nat, x: T, f: T -> bool)
    requires i < |s|
    ensures CountIf(s[i := x], f) + (if f(s[i]) then 1 else 0) == CountIf(s, f) + if f(x) then 1 else 0
  {
    if i == |s| - 1 {
      assert s[i := x][..i] == s[..i];
    } else {
      assert s[i := x][..|s| - 1] == s[..|s| - 1][i := x];
      CountUpdate(s[..|s| - 1], i, x, f);
    }
  }

  function Positions<T>(s: seq<T>, f: T -> bool): set<nat> {
    set k: nat | k < |s| && f(s[k])
  }

  /** Counting is the number of positions. */
  lemma {:induction false} CountIsSize<T>(s: seq<T>, f: T -> bool)
    ensures CountIf(s, f) == |Positions(s, f)|
  {
    if |s| == 0 {
      assert Positions(s, f) == {};
    } else {
      var n := |s| - 1;
      CountIsSize(s[..n], f);
      assert Positions(s, f) == Positions(s[..n], f) + if f(s[n]) then {n} else {};
    }
  }

  /** A longer list whose elements satisfy at least as much counts at least as many. */
  lemma {:induction false} CountMonotone<T>(s: seq<T>, t: seq<T>, f: T -> bool, g: T -> bool)
    requires |s| <= |t|
    requires forall i :: 0 <= i < |s| && f(s[i]) ==> g(t[i])
    ensures CountIf(s, f) <= CountIf(t, g)
  {
    if |s| < |t| {
      CountMonotone(s, t[..|t| - 1], f, g);
    } else if |s| > 0 {
      CountMonotone(s[..|s| - 1], t[..|t| - 1], f, g);
    }
  }

  lemma CountSame<T>(s: seq<T>, t: seq<T>, f: T -> bool, g: T -> bool)
    requires |s| == |t|
    requires forall i :: 0 <= i < |s| ==> (f(s[i]) <==> g(t[i]))
    ensures CountIf(s, f) == CountIf(t, g)
  {
    CountMonotone(s, t, f, g);
    CountMonotone(t, s, g, f);
  }

  lemma {:induction false} CountPositive<T>(s: seq<T>, f: T -> bool)
    ensures CountIf(s, f) > 0 <==> exists i :: 0 <= i < |s| && f(s[i])
  {
    if |s| > 0 {
      CountPositive(s[..|s| - 1], f);
      if i :| 0 <= i < |s| && f(s[i]) {
        assert i < |s| - 1 ==> s[..|s| - 1][i] == s[i];
      }
    }
  }
}
