/** The pruned deques decide exactly as the full log of accepted requests would. */
module RateLimiterTheorems {
  import opened Types
  import opened RateLimiter

  // ---- Rules -----------------------------------------------------------------------------------

  predicate StartsWith(path: string, prefix: string) {
    |prefix| <= |path| && path[..|prefix|] == prefix
  }

  /** The rule of a path is that of the first prefix it starts with. */
  lemma {:induction false} FirstPrefixRules(rules: Rules, path: string, i: nat)
    requires i < |rules| && StartsWith(path, rules[i].0)
    requires forall j :: 0 <= j < i ==> !StartsWith(path, rules[j].0)
    ensures MatchRule(rules, path) == Some(rules[i].1)
  {
    if i > 0 {
      assert !StartsWith(path, rules[0].0);
      FirstPrefixRules(rules[1..], path, i - 1);
    }
  }

  /** A path without a rule is never limited, and leaves every deque alone. */
  lemma {:induction false} NoPrefixPasses(rules: Rules, buckets: Buckets, r: HttpRequest, now: real)
    requires forall j :: 0 <= j < |rules| ==> !StartsWith(r.path, rules[j].0)
    ensures MatchRule(rules, r.path) == None && Dispatch(rules, buckets, r, now) == (buckets, Passed)
  {
    if |rules| > 0 {
      assert !StartsWith(r.path, rules[0].0);
      NoPrefixPasses(rules[1..], buckets, r, now);
    }
  }

  // ---- One deque -------------------------------------------------------------------------------

  predicate Ordered(s: seq<real>) {
    forall i, j :: 0 <= i < j < |s| ==> s[i] <= s[j]
  }

  function AtLeast(t: real): real -> bool {
    (x: real) => x >= t
  }

  function Within(a: real, b: real): real -> bool {
    (x: real) => a <= x <= b
  }

  lemma {:induction false} PruneAgain(s: seq<real>, c: real, c': real)
    requires c <= c'
    ensures Prune(Prune(s, c), c') == Prune(s, c')
  {
    if |s| > 0 && s[0] < c {
      PruneAgain(s[1..], c, c');
    }
  }

  lemma {:induction false} PruneAppend(s: seq<real>, x: real, c: real)
    ensures Prune(s + [x], c) == if Prune(s, c) == [] && x < c then [] else Prune(s, c) + [x]
  {
    if |s| > 0 {
      assert (s + [x])[1..] == s[1..] + [x];
      if s[0] < c {
        PruneAppend(s[1..], x, c);
      }
    }
  }

  lemma {:induction false} PruneShrinks(s: seq<real>, c: real)
    ensures |Prune(s, c)| <= |s| && forall x :: x in Prune(s, c) ==> x in s
    ensures |s| > 0 && s[0] < c ==> |Prune(s, c)| < |s|
    ensures |Prune(s, c)| > 0 ==> Prune(s, c)[0] >= c
  {
    if |s| > 0 && s[0] < c {
      PruneShrinks(s[1..], c);
    }
  }

  lemma {:induction false} NothingPruned(s: seq<real>, c: real)
    requires Ordered(s)
    ensures Prune(s, c) == [] <==> |s| == 0 || s[|s| - 1] < c
  {
    if |s| > 0 && s[0] < c {
      NothingPruned(s[1..], c);
    }
  }

  /** On an ordered log pruning keeps exactly the entries from the cutoff on. */
  lemma {:induction false} PruneCounts(s: seq<real>, c: real)
    requires Ordered(s)
    ensures |Prune(s, c)| == CountIf(s, AtLeast(c))
  {
    if |s| > 0 {
      var n := |s| - 1;
      assert s == s[..n] + [s[n]];
      PruneCounts(s[..n], c);
      PruneAppend(s[..n], s[n], c);
      NothingPruned(s[..n], c);
    }
  }

  // ---- Runs on one deque -----------------------------------------------------------------------

  /** The deque and the full log of accepted times after requests at `times`. */
  function Deque(rule: Rule, times: seq<real>): seq<real> {
    if |times| == 0 then [] else Judge(rule, Deque(rule, times[..|times| - 1]), times[|times| - 1]).0
  }

  predicate Passes(rule: Rule, before: seq<real>, now: real) {
    Judge(rule, Deque(rule, before), now).1 == Passed
  }

  function Accepted(rule: Rule, times: seq<real>): seq<real> {
    if |times| == 0 then []
    else
      var before, now := times[..|times| - 1], times[|times| - 1];
      if Passes(rule, before, now) then Accepted(rule, before) + [now] else Accepted(rule, before)
  }

  lemma {:induction false} AcceptedIsOrdered(rule: Rule, times: seq<real>)
    requires Ordered(times)
    ensures Ordered(Accepted(rule, times)) && forall x :: x in Accepted(rule, times) ==> x in times
  {
    hide Judge, Deque;
    if |times| > 0 {
      var n := |times| - 1;
      AcceptedIsOrdered(rule, times[..n]);
      var log := Accepted(rule, times[..n]);
      forall k | 0 <= k < |log| ensures log[k] <= times[n] {
        assert log[k] in log;
        var i :| 0 <= i < n && times[..n][i] == log[k];
      }
    }
  }

  /** From the last cutoff on, the deque and the full log agree. */
  lemma {:induction false} DequeAgrees(rule: Rule, times: seq<real>, c: real)
    requires Ordered(times) && (|times| > 0 ==> times[|times| - 1] - rule.window <= c)
    ensures Prune(Deque(rule, times), c) == Prune(Accepted(rule, times), c)
  {
    if |times| > 0 {
      var n := |times| - 1;
      var deque, log, now := Deque(rule, times[..n]), Accepted(rule, times[..n]), times[n];
      DequeAgrees(rule, times[..n], c);
      var kept := Prune(deque, now - rule.window);
      PruneAgain(deque, now - rule.window, c);
      PruneAppend(kept, now, c);
      PruneAppend(log, now, c);
    }
  }

  /** With a window that is not negative, the deque is the suffix of the log from the last cutoff on. */
  lemma DequeIsSuffixOfLog(rule: Rule, times: seq<real>)
    requires Ordered(times) && |times| > 0 && rule.window >= 0.0
    ensures Deque(rule, times) == Prune(Accepted(rule, times), times[|times| - 1] - rule.window)
  {
    hide Judge, Prune;
    var n := |times| - 1;
    DequeAgrees(rule, times[..n], times[n] - rule.window);
    SuffixStep(rule, Deque(rule, times[..n]), Accepted(rule, times[..n]), times[n], times[n] - rule.window);
  }

  lemma SuffixStep(rule: Rule, deque: seq<real>, log: seq<real>, now: real, cut: real)
    requires cut == now - rule.window && now >= cut && Prune(deque, cut) == Prune(log, cut)
    ensures var (kept, decision) := Judge(rule, deque, now);
      kept == Prune(if decision == Passed then log + [now] else log, cut)
  {
    PruneAppend(log, now, cut);
  }

  lemma OrderedPrefix(times: seq<real>, now: real)
    requires Ordered(times + [now])
    ensures Ordered(times) && forall i :: 0 <= i < |times| ==> times[i] <= now
  {
    var all := times + [now];
    assert all[|times|] == now;
    forall i | 0 <= i < |times| ensures times[i] <= now {
      assert all[i] == times[i];
    }
    forall i, j | 0 <= i < j < |times| ensures times[i] <= times[j] {
      assert all[i] == times[i] && all[j] == times[j];
    }
  }

  /** Every decision is the one the full log calls for. */
  lemma PassesIff(rule: Rule, times: seq<real>, now: real)
    requires Ordered(times + [now])
    ensures var log, cut := Accepted(rule, times), now - rule.window;
      && Ordered(times) && Ordered(log) && (forall x :: x in log ==> x <= now)
      && Prune(Deque(rule, times), cut) == Prune(log, cut)
      && |Prune(log, cut)| == CountIf(log, AtLeast(cut))
      && (Passes(rule, times, now) <==> CountIf(log, AtLeast(cut)) < rule.maxRequests)
  {
    hide Deque, Accepted;
    OrderedPrefix(times, now);
    AcceptedIsOrdered(rule, times);
    forall x | x in Accepted(rule, times) ensures x <= now {
      var i :| 0 <= i < |times| && times[i] == x;
    }
    DequeAgrees(rule, times, now - rule.window);
    PruneCounts(Accepted(rule, times), now - rule.window);
  }

  /** No closed interval as long as the window contains more accepted requests than allowed. */
  lemma {:induction false} IntervalBound(rule: Rule, times: seq<real>, t: real)
    requires Ordered(times)
    ensures CountIf(Accepted(rule, times), Within(t, t + rule.window))
         <= if rule.maxRequests > 0 then rule.maxRequests else 0
  {
    hide Judge, Deque, Prune;
    if |times| > 0 {
      var n := |times| - 1;
      var log, now := Accepted(rule, times[..n]), times[n];
      IntervalBound(rule, times[..n], t);
      assert times[..n] + [now] == times;
      PassesIff(rule, times[..n], now);
      CountAppend(log, now, Within(t, t + rule.window));
      if t <= now <= t + rule.window {
        CountMonotone(log, log, Within(t, t + rule.window), AtLeast(now - rule.window));
      }
    }
  }

  /** When a request does not pass, exactly the allowed number is in the window; the wait it is told counts
      from the oldest of them, is never clamped and is at least one second. */
  lemma LimitedIsFull(rule: Rule, times: seq<real>, now: real)
    requires Ordered(times + [now]) && rule.maxRequests >= 1 && !Passes(rule, times, now)
    ensures var kept := Prune(Accepted(rule, times), now - rule.window);
      && |kept| == rule.maxRequests && rule.window - (now - kept[0]) >= 0.0
      && Judge(rule, Deque(rule, times), now).1 == Limited((rule.window - (now - kept[0])).Floor + 1)
  {
    hide Deque, Accepted;
    var log, cut := Accepted(rule, times), now - rule.window;
    PassesIff(rule, times, now);
    IntervalBound(rule, times, cut);
    forall i | 0 <= i < |log| && AtLeast(cut)(log[i]) ensures Within(cut, cut + rule.window)(log[i]) {
      assert log[i] in log;
    }
    CountMonotone(log, log, AtLeast(cut), Within(cut, cut + rule.window));
    PruneShrinks(log, cut);
  }

  /** Waiting as told is enough, as long as nothing else is accepted in between. */
  lemma WaitIsEnough(rule: Rule, times: seq<real>, now: real, more: seq<real>, later: real)
    requires Ordered(times + [now]) && Ordered(more + [later]) && rule.maxRequests >= 1
    requires Judge(rule, Deque(rule, times), now).1.Limited?
    requires Accepted(rule, more) == Accepted(rule, times)
    requires later >= now + Judge(rule, Deque(rule, times), now).1.retryAfter as real
    ensures Passes(rule, more, later)
  {
    hide Deque, Accepted, CountIf;
    var log, cut, cut' := Accepted(rule, times), now - rule.window, later - rule.window;
    LimitedIsFull(rule, times, now);
    PassesIff(rule, more, later);
    var kept := Prune(log, cut);
    PruneAgain(log, cut, cut');
    PruneShrinks(kept, cut');
  }

  /** A request that did not pass leaves no trace in the log. */
  lemma {:induction false} RejectionLeavesNoTrace(rule: Rule, times: seq<real>, now: real, more: seq<real>)
    requires Ordered(times + [now] + more) && !Passes(rule, times, now)
    ensures Accepted(rule, times + [now] + more) == Accepted(rule, times + more)
  {
    hide Judge, Deque, Prune, CountIf;
    if |more| == 0 {
      assert times + [now] + more == times + [now] && times + more == times;
      assert (times + [now])[..|times|] == times;
    } else {
      var n := |more| - 1;
      var last, with, without := more[n], times + [now] + more[..n], times + more[..n];
      assert times + [now] + more == with + [last] && times + more == without + [last];
      assert (with + [last])[..|with|] == with && (without + [last])[..|without|] == without;
      assert forall i :: 0 <= i < |without + [last]| ==>
        (without + [last])[i] == (with + [last])[if i < |times| then i else i + 1];
      RejectionLeavesNoTrace(rule, times, now, more[..n]);
      PassesIff(rule, with, last);
      PassesIff(rule, without, last);
    }
  }

  // ---- Runs over all keys --------------------------------------------------------------------------

  datatype Arrival = Arrival(request: HttpRequest, now: real)

  function After(rules: Rules, run: seq<Arrival>): Buckets {
    if |run| == 0 then map[]
    else Dispatch(rules, After(rules, run[..|run| - 1]), run[|run| - 1].request, run[|run| - 1].now).0
  }

  function DecisionOn(rules: Rules, before: seq<Arrival>, a: Arrival): Decision {
    Dispatch(rules, After(rules, before), a.request, a.now).1
  }

  /** The request is under some rule and has this key: other requests never touch its deque. */
  predicate Governed(rules: Rules, r: HttpRequest, key: string) {
    Key(r) == key && MatchRule(rules, r.path).Some?
  }

  /** The full log of a key: the times of all requests the middleware ever accepted on it. */
  function Log(rules: Rules, run: seq<Arrival>, key: string): seq<real> {
    if |run| == 0 then []
    else
      var before, last := run[..|run| - 1], run[|run| - 1];
      if Governed(rules, last.request, key) && DecisionOn(rules, before, last) == Passed
      then Log(rules, before, key) + [last.now]
      else Log(rules, before, key)
  }

  /** The times of all requests on a key. */
  function Times(rules: Rules, run: seq<Arrival>, key: string): seq<real> {
    if |run| == 0 then []
    else
      var before, last := run[..|run| - 1], run[|run| - 1];
      if Governed(rules, last.request, key) then Times(rules, before, key) + [last.now] else Times(rules, before, key)
  }

  predicate Nondecreasing(run: seq<Arrival>) {
    forall i, j :: 0 <= i < j < |run| ==> run[i].now <= run[j].now
  }

  /** No two rules share the key: its requests are under this rule, or under none. */
  predicate UnderRule(rules: Rules, run: seq<Arrival>, key: string, rule: Rule) {
    forall a :: a in run && Governed(rules, a.request, key) ==> MatchRule(rules, a.request.path) == Some(rule)
  }

  /** Without a colon in the paths, a key names the client and the path, so one rule covers it. */
  lemma ColonFreeKeysHaveOneRule(rules: Rules, run: seq<Arrival>, r: HttpRequest, rule: Rule)
    requires ':' !in r.path && MatchRule(rules, r.path) == Some(rule)
    requires forall a :: a in run ==> ':' !in a.request.path
    ensures UnderRule(rules, run, Key(r), rule)
  {
    forall a | a in run && Governed(rules, a.request, Key(r)) ensures a.request == r {
      KeyNamesRequest(a.request, r);
    }
  }

  lemma KeyNamesRequest(r: HttpRequest, q: HttpRequest)
    requires Key(r) == Key(q) && ':' !in r.path && ':' !in q.path
    ensures r == q
  {
    var k := Key(r);
    ColonPosition(r, |q.client|);
    ColonPosition(q, |r.client|);
    assert r.client == k[..|r.client|] && r.path == k[|r.client| + 1..];
    assert q.client == k[..|q.client|] && q.path == k[|q.client| + 1..];
  }

  /** A colon after the separator belongs to the path. */
  lemma ColonPosition(r: HttpRequest, i: nat)
    requires i < |Key(r)| && Key(r)[i] == ':'
    ensures i <= |r.client| || ':' in r.path
  {
    if i > |r.client| {
      assert Key(r)[i] == r.path[i - |r.client| - 1];
    }
  }

  /** Each key runs on its own deque. */
  lemma {:induction false} KeyRunsAlone(rules: Rules, run: seq<Arrival>, key: string, rule: Rule)
    requires UnderRule(rules, run, key, rule)
    ensures Get(After(rules, run), key) == Deque(rule, Times(rules, run, key))
    ensures Log(rules, run, key) == Accepted(rule, Times(rules, run, key))
  {
    hide Judge;
    if |run| > 0 {
      var n, last := |run| - 1, run[|run| - 1];
      assert last in run;
      KeyRunsAlone(rules, run[..n], key, rule);
      if Governed(rules, last.request, key) {
        var times := Times(rules, run[..n], key);
        assert (times + [last.now])[..|times|] == times;
      }
    }
  }

  lemma {:induction false} TimesOrdered(rules: Rules, run: seq<Arrival>, key: string)
    requires Nondecreasing(run)
    ensures Ordered(Times(rules, run, key))
    ensures |run| > 0 ==>
      forall k :: 0 <= k < |Times(rules, run, key)| ==> Times(rules, run, key)[k] <= run[|run| - 1].now
  {
    if |run| > 0 {
      TimesOrdered(rules, run[..|run| - 1], key);
    }
  }

  /** The case of one more arrival on the key. */
  lemma Arriving(rules: Rules, run: seq<Arrival>, a: Arrival, rule: Rule)
    requires Nondecreasing(run + [a]) && UnderRule(rules, run, Key(a.request), rule)
    requires MatchRule(rules, a.request.path) == Some(rule)
    ensures var times := Times(rules, run, Key(a.request));
      && Ordered(times + [a.now])
      && Get(After(rules, run), Key(a.request)) == Deque(rule, times)
      && Log(rules, run, Key(a.request)) == Accepted(rule, times)
      && DecisionOn(rules, run, a) == Judge(rule, Deque(rule, times), a.now).1
  {
    hide Judge, Deque, Accepted;
    var key := Key(a.request);
    assert (run + [a])[..|run|] == run && (run + [a])[|run|] == a;
    assert forall x :: x in run ==> x in run + [a];
    TimesOrdered(rules, run + [a], key);
    KeyRunsAlone(rules, run, key, rule);
    assert a in run + [a];
  }

  /** On every run, a request passes iff fewer than the allowed number were accepted on its key at times from
      `now - window` on, counting in the full log. */
  lemma DecisionFollowsLog(rules: Rules, run: seq<Arrival>, a: Arrival, rule: Rule)
    requires Nondecreasing(run + [a]) && UnderRule(rules, run, Key(a.request), rule)
    requires MatchRule(rules, a.request.path) == Some(rule)
    ensures DecisionOn(rules, run, a) == Passed
       <==> CountIf(Log(rules, run, Key(a.request)), AtLeast(a.now - rule.window)) < rule.maxRequests
  {
    hide Judge, Deque, Accepted;
    Arriving(rules, run, a, rule);
    PassesIff(rule, Times(rules, run, Key(a.request)), a.now);
  }

  /** The deque of a key is the suffix of its full log from the last cutoff on. */
  lemma BucketIsSuffixOfLog(rules: Rules, run: seq<Arrival>, key: string, rule: Rule)
    requires Nondecreasing(run) && UnderRule(rules, run, key, rule) && rule.window >= 0.0
    ensures var times := Times(rules, run, key);
      Get(After(rules, run), key)
      == if |times| == 0 then [] else Prune(Log(rules, run, key), times[|times| - 1] - rule.window)
  {
    hide Judge, Accepted, Log, Prune, Dispatch;
    KeyRunsAlone(rules, run, key, rule);
    TimesOrdered(rules, run, key);
    if |Times(rules, run, key)| > 0 {
      DequeIsSuffixOfLog(rule, Times(rules, run, key));
    }
  }

  /** Hence no closed interval as long as the window holds more than the allowed number of accepted requests. */
  lemma WindowBound(rules: Rules, run: seq<Arrival>, key: string, rule: Rule, t: real)
    requires Nondecreasing(run) && UnderRule(rules, run, key, rule)
    ensures CountIf(Log(rules, run, key), Within(t,
        t + rule.window)) <= if rule.maxRequests > 0 then rule.maxRequests else 0
  {
    hide Deque, Accepted;
    KeyRunsAlone(rules, run, key, rule);
    TimesOrdered(rules, run, key);
    IntervalBound(rule, Times(rules, run, key), t);
  }

  /** A limited request finds its window exactly full, and the wait it is told runs from the oldest entry. */
  lemma LimitedMeansFull(rules: Rules, run: seq<Arrival>, a: Arrival, rule: Rule)
    requires Nondecreasing(run + [a]) && UnderRule(rules, run + [a], Key(a.request), rule)
    requires rule.maxRequests >= 1 && DecisionOn(rules, run, a) != Passed
    ensures var kept := Prune(Log(rules, run, Key(a.request)), a.now - rule.window);
      && |kept| == rule.maxRequests && rule.window - (a.now - kept[0]) >= 0.0
      && DecisionOn(rules, run, a) == Limited((rule.window - (a.now - kept[0])).Floor + 1)
  {
    hide Judge, Deque, Accepted;
    Arriving(rules, run, a, rule);
    LimitedIsFull(rule, Times(rules, run, Key(a.request)), a.now);
  }

  lemma {:induction false} NothingAllowed(rule: Rule, times: seq<real>)
    requires rule.maxRequests <= 0
    ensures Deque(rule, times) == []
  {
    if |times| > 0 {
      NothingAllowed(rule, times[..|times| - 1]);
    }
  }

  /** The middleware fails on an empty deque exactly under a rule that allows no request at all. */
  lemma CrashesIff(rules: Rules, run: seq<Arrival>, a: Arrival, rule: Rule)
    requires Nondecreasing(run + [a]) && UnderRule(rules, run, Key(a.request), rule)
    requires MatchRule(rules, a.request.path) == Some(rule)
    ensures DecisionOn(rules, run, a) == Crashed <==> rule.maxRequests <= 0
  {
    hide Deque, Accepted;
    Arriving(rules, run, a, rule);
    if rule.maxRequests <= 0 {
      NothingAllowed(rule, Times(rules, run, Key(a.request)));
    } else if DecisionOn(rules, run, a) != Passed {
      LimitedIsFull(rule, Times(rules, run, Key(a.request)), a.now);
    }
  }

  /** Waiting the Retry-After seconds is enough: if nothing is accepted on the key in between, the next
      request on it passes. */
  lemma RetryAfterSuffices(rules: Rules, run: seq<Arrival>, a: Arrival, later: seq<Arrival>, b: Arrival, rule: Rule)
    requires Nondecreasing(run + [a]) && UnderRule(rules, run + [a], Key(a.request), rule)
    requires Nondecreasing(later + [b]) && UnderRule(rules, later + [b], Key(a.request), rule)
    requires run + [a] <= later && Key(b.request) == Key(a.request) && rule.maxRequests >= 1
    requires DecisionOn(rules, run, a).Limited?
    requires Log(rules, later, Key(a.request)) == Log(rules, run, Key(a.request))
    requires b.now >= a.now + DecisionOn(rules, run, a).retryAfter as real
    ensures DecisionOn(rules, later, b) == Passed
  {
    hide Judge, Deque, Accepted;
    Arriving(rules, run, a, rule);
    assert b in later + [b];
    if Governed(rules, b.request, Key(a.request)) {
      Arriving(rules, later, b, rule);
      WaitIsEnough(rule, Times(rules, run, Key(a.request)), a.now, Times(rules, later, Key(a.request)), b.now);
    }
  }

  lemma {:induction false} TimesSplit(rules: Rules, run: seq<Arrival>, more: seq<Arrival>, key: string)
    ensures Times(rules, run + more, key) == Times(rules, run, key) + Times(rules, more, key)
  {
    if |more| == 0 {
      assert run + more == run;
    } else {
      var n := |more| - 1;
      assert (run + more)[..|run + more| - 1] == run + more[..n];
      TimesSplit(rules, run, more[..n], key);
    }
  }

  lemma OneArrival(rules: Rules, a: Arrival, key: string)
    ensures Times(rules, [a], key) == if Governed(rules, a.request, key) then [a.now] else []
  {
    assert [a][..0] == [];
  }

  /** A rule that covers a run covers any part of it. */
  lemma UnderFewer(rules: Rules, all: seq<Arrival>, some: seq<Arrival>, key: string, rule: Rule)
    requires UnderRule(rules, all, key, rule) && forall x :: x in some ==> x in all
    ensures UnderRule(rules, some, key, rule)
  {
  }

  /** The times on a key with and without one arrival. */
  lemma TimesWithout(rules: Rules, run: seq<Arrival>, a: Arrival, more: seq<Arrival>, key: string)
    ensures Times(rules, run + more, key) == Times(rules, run, key) + Times(rules, more, key)
    ensures Times(rules, run + [a] + more, key)
         == if Governed(rules, a.request, key) then Times(rules, run, key) + [a.now] + Times(rules, more, key)
            else Times(rules, run + more, key)
  {
    hide Times, Governed;
    TimesSplit(rules, run + [a], more, key);
    TimesSplit(rules, run, more, key);
    TimesSplit(rules, run, [a], key);
    OneArrival(rules, a, key);
    assert Times(rules, run, key) + [] == Times(rules, run, key);
  }

  lemma RefusedOnKey(rules: Rules, run: seq<Arrival>, a: Arrival, rule: Rule)
    requires Nondecreasing(run + [a]) && UnderRule(rules, run + [a], Key(a.request), rule)
    requires DecisionOn(rules, run, a) != Passed
    ensures !Passes(rule, Times(rules, run, Key(a.request)), a.now)
  {
    hide Judge, Deque, Accepted;
    Arriving(rules, run, a, rule);
  }

  /** A request that was refused never changes the log of any key, so it changes no later decision and never
      lengthens a lockout. */
  lemma RejectedLeavesNoTrace(rules: Rules, run: seq<Arrival>, a: Arrival, more: seq<Arrival>, key: string, rule: Rule)
    requires Nondecreasing(run + [a] + more) && UnderRule(rules, run + [a] + more, key, rule)
    requires DecisionOn(rules, run, a) != Passed
    ensures Log(rules, run + [a] + more, key) == Log(rules, run + more, key)
  {
    hide Judge, Deque, Accepted, Times, Log, UnderRule, Passes, DecisionOn, Key, MatchRule, Ordered;
    var all := run + [a] + more;
    UnderFewer(rules, all, run + more, key, rule);
    KeyRunsAlone(rules, all, key, rule);
    KeyRunsAlone(rules, run + more, key, rule);
    TimesWithout(rules, run, a, more, key);
    if Governed(rules, a.request, key) {
      assert forall i :: 0 <= i <= |run| ==> all[i] == (run + [a])[i];
      UnderFewer(rules, all, run + [a], key, rule);
      RefusedOnKey(rules, run, a, rule);
      TimesOrdered(rules, all, key);
      RejectionLeavesNoTrace(rule, Times(rules, run, key), a.now, Times(rules, more, key));
    }
  }
}
