/** What one client gets under one rule: the limiter keys by client and full path, so every path has its own share,
    and the documented limit per client holds exactly while no path is used beside the others. */
module RateLimiterClients {
  import opened Types
  import opened RateLimiter
  import opened RateLimiterTheorems

  /** How many requests of the client to one of the paths were accepted at times in `[a, b]`. */
  function AcceptedOn(rules: Rules, run: seq<Arrival>, client: string, paths: set<string>, a: real, b: real): nat {
    if |run| == 0 then 0
    else
      var before, last := run[..|run| - 1], run[|run| - 1];
      AcceptedOn(rules, before, client, paths, a, b)
      + if last.request.client == client && last.request.path in paths && a <= last.now <= b
           && DecisionOn(rules, before, last) == Passed then 1 else 0
  }

  /** The paths that the client has requested and that fall under the rule. */
  function PathsUnder(rules: Rules, run: seq<Arrival>, client: string, rule: Rule): set<string> {
    set a | a in run && a.request.client == client && MatchRule(rules, a.request.path) == Some(rule) :: a.request.path
  }

  predicate FromClient(rules: Rules, r: HttpRequest, client: string, rule: Rule) {
    r.client == client && MatchRule(rules, r.path) == Some(rule)
  }

  /** How many requests of the client under the rule were accepted at times in `[a, b]`. */
  function AcceptedUnder(rules: Rules, run: seq<Arrival>, client: string, rule: Rule, a: real, b: real): nat {
    if |run| == 0 then 0
    else
      var before, last := run[..|run| - 1], run[|run| - 1];
      AcceptedUnder(rules, before, client, rule, a, b)
      + if FromClient(rules, last.request, client, rule) && a <= last.now <= b
           && DecisionOn(rules, before, last) == Passed then 1 else 0
  }

  // ---- The documented limit per client ----------------------------------------------------------------

  /** No rule lets through a negative number of requests. */
  function Share(rule: Rule): nat {
    if rule.maxRequests > 0 then rule.maxRequests else 0
  }

  predicate LimitedAt(rules: Rules, run: seq<Arrival>, client: string, rule: Rule, t: real) {
    AcceptedUnder(rules, run, client, rule, t, t + rule.window) <= Share(rule)
  }

  /** In no closed interval as long as the window is the client accepted more often than the rule allows. */
  ghost predicate WithinLimit(rules: Rules, run: seq<Arrival>, client: string, rule: Rule) {
    forall t :: LimitedAt(rules, run, client, rule, t)
  }

  /** The arrival's own path has some of its share left, while over all its paths the client has used up the rule. */
  predicate Exceeds(rules: Rules, before: seq<Arrival>, x: Arrival, client: string, rule: Rule) {
    && FromClient(rules, x.request, client, rule)
    && CountIf(Log(rules, before, Key(x.request)), AtLeast(x.now - rule.window)) < rule.maxRequests
    && AcceptedUnder(rules, before, client, rule, x.now - rule.window, x.now) >= rule.maxRequests
  }

  predicate NeverExceeds(rules: Rules, run: seq<Arrival>, client: string, rule: Rule) {
    |run| > 0 ==>
      var before := run[..|run| - 1];
      NeverExceeds(rules, before, client, rule) && !Exceeds(rules, before, run[|run| - 1], client, rule)
  }

  /** An interval that ends later or starts earlier counts no less, up to the time of the last arrival. */
  lemma {:induction false} WiderCountsMore(rules: Rules, run: seq<Arrival>, client: string, rule: Rule, a: real,
      b: real, a': real, b': real)
    requires a' <= a && forall x :: x in run && x.now <= b ==> x.now <= b'
    ensures AcceptedUnder(rules, run, client, rule, a, b) <= AcceptedUnder(rules, run, client, rule, a', b')
  {
    hide DecisionOn, FromClient;
    if |run| > 0 {
      assert run[|run| - 1] in run;
      WiderCountsMore(rules, run[..|run| - 1], client, rule, a, b, a', b');
    }
  }

  /** An arrival of the client is accepted iff its own path has some of its share left. */
  lemma OwnPathDecides(rules: Rules, before: seq<Arrival>, x: Arrival, client: string, rule: Rule)
    requires Nondecreasing(before + [x]) && forall a :: a in before + [x] ==> ':' !in a.request.path
    requires FromClient(rules, x.request, client, rule)
    ensures DecisionOn(rules, before, x) == Passed
       <==> CountIf(Log(rules, before, Key(x.request)), AtLeast(x.now - rule.window)) < rule.maxRequests
  {
    hide DecisionOn, Log, Key, MatchRule, UnderRule;
    assert x in before + [x];
    assert forall a :: a in before ==> a in before + [x];
    ColonFreeKeysHaveOneRule(rules, before, x.request, rule);
    DecisionFollowsLog(rules, before, x, rule);
  }

  lemma UnderNext(rules: Rules, before: seq<Arrival>, x: Arrival, client: string, rule: Rule, a: real, b: real)
    ensures AcceptedUnder(rules, before + [x], client, rule, a, b)
         == AcceptedUnder(rules, before, client, rule, a, b)
            + if FromClient(rules, x.request, client, rule) && a <= x.now <= b
                 && DecisionOn(rules, before, x) == Passed then 1 else 0
  {
    hide DecisionOn, FromClient;
    assert (before + [x])[..|before|] == before;
  }

  /** One more arrival that does not exceed the limit. */
  lemma LimitStaysAt(rules: Rules, before: seq<Arrival>, x: Arrival, client: string, rule: Rule, t: real)
    requires Nondecreasing(before + [x]) && forall a :: a in before + [x] ==> ':' !in a.request.path
    requires LimitedAt(rules, before, client, rule, t) && !Exceeds(rules, before, x, client, rule)
    ensures LimitedAt(rules, before + [x], client, rule, t)
  {
    hide DecisionOn, Log, Key, FromClient, Nondecreasing, AcceptedUnder, CountIf;
    UnderNext(rules, before, x, client, rule, t, t + rule.window);
    if FromClient(rules, x.request, client, rule) && t <= x.now <= t + rule.window {
      OwnPathDecides(rules, before, x, client, rule);
      NotLater(before, x);
      WiderCountsMore(rules, before, client, rule, t, t + rule.window, x.now - rule.window, x.now);
    }
  }

  /** One more arrival that does. */
  lemma LimitBreaksAt(rules: Rules, before: seq<Arrival>, x: Arrival, client: string, rule: Rule)
    requires Nondecreasing(before + [x]) && forall a :: a in before + [x] ==> ':' !in a.request.path
    requires Exceeds(rules, before, x, client, rule) && rule.window >= 0.0
    ensures !LimitedAt(rules, before + [x], client, rule, x.now - rule.window)
  {
    hide DecisionOn, Log, Key, FromClient, Nondecreasing, AcceptedUnder, CountIf;
    var t := x.now - rule.window;
    assert t + rule.window == x.now;
    UnderNext(rules, before, x, client, rule, t, x.now);
    OwnPathDecides(rules, before, x, client, rule);
  }

  /** One more arrival: the limit is kept exactly when the arrival does not exceed it. */
  lemma LimitStep(rules: Rules, before: seq<Arrival>, x: Arrival, client: string, rule: Rule)
    requires Nondecreasing(before + [x]) && rule.window >= 0.0
    requires forall a :: a in before + [x] ==> ':' !in a.request.path
    requires WithinLimit(rules, before, client, rule)
    ensures WithinLimit(rules, before + [x], client, rule) <==> !Exceeds(rules, before, x, client, rule)
  {
    hide Exceeds, LimitedAt, Nondecreasing;
    if Exceeds(rules, before, x, client, rule) {
      LimitBreaksAt(rules, before, x, client, rule);
    } else {
      forall t ensures LimitedAt(rules, before + [x], client, rule, t) {
        assert LimitedAt(rules, before, client, rule, t);
        LimitStaysAt(rules, before, x, client, rule, t);
      }
    }
  }

  lemma NotLater(before: seq<Arrival>, x: Arrival)
    requires Nondecreasing(before + [x])
    ensures Nondecreasing(before) && forall a :: a in before ==> a.now <= x.now
  {
    var run := before + [x];
    assert forall i :: 0 <= i < |before| ==> run[i] == before[i];
    assert run[|before|] == x;
  }

  lemma LimitIsKept(rules: Rules, before: seq<Arrival>, x: Arrival, client: string, rule: Rule)
    requires WithinLimit(rules, before + [x], client, rule)
    ensures WithinLimit(rules, before, client, rule)
  {
    hide DecisionOn, FromClient;
    assert (before + [x])[..|before|] == before;
    forall t ensures LimitedAt(rules, before, client, rule, t) {
      assert LimitedAt(rules, before + [x], client, rule, t);
    }
  }

  /** Over every run: the client stays within the rule's limit over all its paths, in every closed interval as long as
      the window, if and only if none of its requests is accepted on its own path when the paths together have used
      the limit up. As counts only grow, this holds at every moment of the run when it holds at the end. */
  lemma {:induction false} ClientLimitIff(rules: Rules, run: seq<Arrival>, client: string, rule: Rule)
    requires Nondecreasing(run) && rule.window >= 0.0 && forall a :: a in run ==> ':' !in a.request.path
    ensures WithinLimit(rules, run, client, rule) <==> NeverExceeds(rules, run, client, rule)
  {
    hide WithinLimit, Exceeds, Nondecreasing;
    if |run| == 0 {
      NothingAccepted(rules, client, rule);
    } else {
      var before, x := run[..|run| - 1], run[|run| - 1];
      assert before + [x] == run;
      NotLater(before, x);
      ClientLimitIff(rules, before, client, rule);
      if WithinLimit(rules, before, client, rule) {
        LimitStep(rules, before, x, client, rule);
      } else if WithinLimit(rules, run, client, rule) {
        LimitIsKept(rules, before, x, client, rule);
      }
    }
  }

  lemma NothingAccepted(rules: Rules, client: string, rule: Rule)
    ensures WithinLimit(rules, [], client, rule)
  {
    forall t ensures LimitedAt(rules, [], client, rule, t) {}
  }

  /** Counting by rule is counting by the paths under the rule. */
  lemma {:induction false} UnderIsOn(rules: Rules, run: seq<Arrival>, client: string, rule: Rule, paths: set<string>,
      a: real, b: real)
    requires forall x :: x in run && x.request.client == client ==>
      (x.request.path in paths <==> MatchRule(rules, x.request.path) == Some(rule))
    ensures AcceptedUnder(rules, run, client, rule, a, b) == AcceptedOn(rules, run, client, paths, a, b)
  {
    hide DecisionOn, MatchRule;
    if |run| > 0 {
      var last := run[|run| - 1].request;
      assert run[|run| - 1] in run;
      assert FromClient(rules, last, client, rule) <==> last.client == client && last.path in paths;
      UnderIsOn(rules, run[..|run| - 1], client, rule, paths, a, b);
    }
  }

  // ---- At most one share per path ---------------------------------------------------------------------

  lemma {:induction false} OneAtATime(rules: Rules, run: seq<Arrival>, client: string, paths: set<string>, p: string,
      a: real, b: real)
    requires p in paths
    ensures AcceptedOn(rules, run, client, paths, a, b)
         == AcceptedOn(rules, run, client, paths - {p}, a, b) + AcceptedOn(rules, run, client, {p}, a, b)
  {
    hide DecisionOn;
    if |run| > 0 {
      OneAtATime(rules, run[..|run| - 1], client, paths, p, a, b);
    }
  }

  lemma {:induction false} NoPaths(rules: Rules, run: seq<Arrival>, client: string, a: real, b: real)
    ensures AcceptedOn(rules, run, client, {}, a, b) == 0
  {
    hide DecisionOn;
    if |run| > 0 {
      NoPaths(rules, run[..|run| - 1], client, a, b);
    }
  }

  /** What was accepted on a path is in the log of its key. */
  lemma {:induction false} PathInLog(rules: Rules, run: seq<Arrival>, client: string, p: string, a: real, b: real)
    requires MatchRule(rules, p).Some?
    ensures AcceptedOn(rules, run, client, {p}, a, b)
         <= CountIf(Log(rules, run, Key(HttpRequest(client, p))), Within(a, b))
  {
    hide DecisionOn, Key;
    if |run| > 0 {
      var before, last, key := run[..|run| - 1], run[|run| - 1], Key(HttpRequest(client, p));
      PathInLog(rules, before, client, p, a, b);
      CountAppend(Log(rules, before, key), last.now, Within(a, b));
    }
  }

  lemma {:induction false} SharesAdd(rules: Rules, run: seq<Arrival>, client: string, paths: set<string>, rule: Rule,
      t: real)
    requires Nondecreasing(run)
    requires forall p :: p in paths ==>
      MatchRule(rules, p) == Some(rule) && UnderRule(rules, run, Key(HttpRequest(client, p)), rule)
    ensures AcceptedOn(rules, run, client, paths, t, t + rule.window) <= Share(rule) * |paths|
  {
    hide AcceptedOn, UnderRule, Nondecreasing, Log, Key;
    if paths == {} {
      NoPaths(rules, run, client, t, t + rule.window);
    } else {
      var p :| p in paths;
      OneAtATime(rules, run, client, paths, p, t, t + rule.window);
      SharesAdd(rules, run, client, paths - {p}, rule, t);
      PathInLog(rules, run, client, p, t, t + rule.window);
      WindowBound(rules, run, Key(HttpRequest(client, p)), rule, t);
      assert Share(rule) * |paths| == Share(rule) * |paths - {p}| + Share(rule);
    }
  }

  /** In every closed interval as long as the window a client is accepted under a rule at most `maxRequests` times for
      each distinct path it requests. */
  lemma {:induction false} ClientBound(rules: Rules, run: seq<Arrival>, client: string, rule: Rule, t: real)
    requires Nondecreasing(run) && forall a :: a in run ==> ':' !in a.request.path
    ensures AcceptedUnder(rules, run, client, rule, t, t + rule.window)
         <= Share(rule) * |PathsUnder(rules, run, client, rule)|
  {
    hide AcceptedOn, AcceptedUnder, UnderRule;
    var paths := PathsUnder(rules, run, client, rule);
    forall p | p in paths
      ensures MatchRule(rules, p) == Some(rule) && UnderRule(rules, run, Key(HttpRequest(client, p)), rule)
    {
      var a :| a in run && a.request.client == client && a.request.path == p;
      ColonFreeKeysHaveOneRule(rules, run, HttpRequest(client, p), rule);
    }
    UnderIsOn(rules, run, client, rule, paths, t, t + rule.window);
    SharesAdd(rules, run, client, paths, rule, t);
  }

  // ---- And each path does get its share -------------------------------------------------------------------

  predicate Distinct(paths: seq<string>) {
    forall i, j :: 0 <= i < j < |paths| ==> paths[i] != paths[j]
  }

  /** The requests of a burst all come from one client at one moment, to some of the paths. */
  predicate Burst(run: seq<Arrival>, client: string, paths: seq<string>, t: real) {
    forall a :: a in run ==> a.now == t && a.request.client == client && a.request.path in paths
  }

  lemma {:induction false} NotRequested(rules: Rules, run: seq<Arrival>, key: string)
    requires forall a :: a in run ==> Key(a.request) != key
    ensures Log(rules, run, key) == []
  {
    hide DecisionOn;
    if |run| > 0 {
      assert run[|run| - 1] in run;
      NotRequested(rules, run[..|run| - 1], key);
    }
  }

  lemma {:induction false} CountAtMostAll<T>(s: seq<T>, f: T -> bool)
    ensures CountIf(s, f) <= |s|
  {
    if |s| > 0 {
      CountAtMostAll(s[..|s| - 1], f);
    }
  }

  lemma OneClientKeys(client: string, p: string, q: string)
    ensures Key(HttpRequest(client, p)) == Key(HttpRequest(client, q)) <==> p == q
  {
    var kp, kq := Key(HttpRequest(client, p)), Key(HttpRequest(client, q));
    assert kp[|client| + 1..] == p && kq[|client| + 1..] == q;
  }

  lemma BurstUnderRule(rules: Rules, run: seq<Arrival>, client: string, paths: seq<string>, p: string, rule: Rule,
      t: real)
    requires Burst(run, client, paths, t) && MatchRule(rules, p) == Some(rule)
    ensures var all := run + [Arrival(HttpRequest(client, p), t)];
      Nondecreasing(all) && UnderRule(rules, run, Key(HttpRequest(client, p)), rule)
  {
    hide MatchRule, Key;
    var key, all := Key(HttpRequest(client, p)), run + [Arrival(HttpRequest(client, p), t)];
    forall x | x in all ensures x.now == t && (Key(x.request) == key ==> x.request.path == p) {
      OneClientKeys(client, x.request.path, p);
      assert x.request == HttpRequest(client, x.request.path);
    }
    assert forall i :: 0 <= i < |all| ==> all[i] in all;
  }

  /** While a path has some of its share left, another request of the burst to it is accepted. */
  lemma BurstPasses(rules: Rules, run: seq<Arrival>, client: string, paths: seq<string>, p: string, rule: Rule, t: real)
    requires Burst(run, client, paths, t) && MatchRule(rules, p) == Some(rule)
    requires |Log(rules, run, Key(HttpRequest(client, p)))| < rule.maxRequests
    ensures DecisionOn(rules, run, Arrival(HttpRequest(client, p), t)) == Passed
  {
    hide Log, DecisionOn, Key, MatchRule, Burst, Nondecreasing, UnderRule;
    BurstUnderRule(rules, run, client, paths, p, rule, t);
    DecisionFollowsLog(rules, run, Arrival(HttpRequest(client, p), t), rule);
    CountAtMostAll(Log(rules, run, Key(HttpRequest(client, p))), AtLeast(t - rule.window));
  }

  /** One more request of the burst. */
  lemma BurstGrows(rules: Rules, run: seq<Arrival>, client: string, p: string, all: set<string>, t: real, b: real)
    requires DecisionOn(rules, run, Arrival(HttpRequest(client, p), t)) == Passed && MatchRule(rules, p).Some?
    requires p in all && t <= b
    ensures var key, run' := Key(HttpRequest(client, p)), run + [Arrival(HttpRequest(client, p), t)];
      && |Log(rules, run', key)| == |Log(rules, run, key)| + 1
      && AcceptedOn(rules, run', client, all, t, b) == AcceptedOn(rules, run, client, all, t, b) + 1
  {
    hide DecisionOn;
    assert (run + [Arrival(HttpRequest(client, p), t)])[..|run|] == run;
  }

  /** The bound is attained, whatever the paths: at one moment a client can have `maxRequests` requests accepted on
      each of them, so two paths under one prefix already get twice what the rule allows. */
  lemma {:induction false} BoundIsAttained(rules: Rules, client: string, rule: Rule, paths: seq<string>,
      all: set<string>, t: real) returns (run: seq<Arrival>)
    requires Distinct(paths) && rule.maxRequests >= 1 && rule.window >= 0.0
    requires forall p :: p in paths ==> MatchRule(rules, p) == Some(rule) && p in all
    ensures Burst(run, client, paths, t) && Nondecreasing(run)
    ensures forall p :: p in paths ==> Arrival(HttpRequest(client, p), t) in run
    ensures AcceptedOn(rules, run, client, all, t, t + rule.window) == rule.maxRequests * |paths|
  {
    hide AcceptedOn, DecisionOn, Log, Key, MatchRule;
    run := [];
    if |paths| == 0 {
      NothingYet(rules, client, all, t, t + rule.window);
    } else {
      var n := |paths| - 1;
      var p, key := paths[n], Key(HttpRequest(client, paths[n]));
      run := BoundIsAttained(rules, client, rule, paths[..n], all, t);
      forall a | a in run ensures Key(a.request) != key {
        OneClientKeys(client, a.request.path, p);
        assert a.request == HttpRequest(client, a.request.path);
      }
      NotRequested(rules, run, key);
      for i := 0 to rule.maxRequests
        invariant Burst(run, client, paths, t) && |Log(rules, run, key)| == i
        invariant forall q :: q in paths[..n] ==> Arrival(HttpRequest(client, q), t) in run
        invariant i > 0 ==> Arrival(HttpRequest(client, p), t) in run
        invariant AcceptedOn(rules, run, client, all, t, t + rule.window) == rule.maxRequests * n + i
      {
        BurstPasses(rules, run, client, paths, p, rule, t);
        BurstGrows(rules, run, client, p, all, t, t + rule.window);
        run := run + [Arrival(HttpRequest(client, p), t)];
      }
      assert rule.maxRequests * n + rule.maxRequests == rule.maxRequests * |paths|;
      assert forall q :: q in paths ==> q == p || q in paths[..n];
    }
  }

  lemma NothingYet(rules: Rules, client: string, all: set<string>, a: real, b: real)
    ensures AcceptedOn(rules, [], client, all, a, b) == 0
  {
  }

  /** So every number of distinct paths under a rule multiplies what a client gets in one window. */
  lemma {:induction false} PathsMultiply(rules: Rules, client: string, rule: Rule, paths: seq<string>, t: real)
    returns (run: seq<Arrival>)
    requires Distinct(paths) && rule.maxRequests >= 1 && rule.window >= 0.0
    requires forall p :: p in paths ==> MatchRule(rules, p) == Some(rule)
    ensures Burst(run, client, paths, t) && Nondecreasing(run)
    ensures |PathsUnder(rules, run, client, rule)| == |paths|
    ensures AcceptedUnder(rules, run, client, rule, t, t + rule.window) == rule.maxRequests * |paths|
  {
    hide AcceptedOn, AcceptedUnder, MatchRule;
    var all := set p | p in paths;
    run := BoundIsAttained(rules, client, rule, paths, all, t);
    assert PathsUnder(rules, run, client, rule) == all by {
      forall p | p in all ensures p in PathsUnder(rules, run, client, rule) {
        assert Arrival(HttpRequest(client, p), t) in run;
      }
    }
    DistinctSize(paths, all);
    UnderIsOn(rules, run, client, rule, all, t, t + rule.window);
  }

  lemma {:induction false} DistinctSize(paths: seq<string>, all: set<string>)
    requires Distinct(paths) && all == set p | p in paths
    ensures |all| == |paths|
  {
    if |paths| > 0 {
      var n := |paths| - 1;
      var front := set p | p in paths[..n];
      DistinctSize(paths[..n], front);
      assert all == front + {paths[n]};
    }
  }

  /** The configured limit of ten logins a minute: twenty of one client are accepted at one moment on two paths under
      the prefix. */
  lemma {:induction false} LimitIsExceeded(client: string) returns (run: seq<Arrival>)
    ensures var rule := Rule(10, 60.0); var rules := [("/api/v1/auth/login", rule)];
      && Nondecreasing(run) && (forall a :: a in run ==> ':' !in a.request.path)
      && AcceptedUnder(rules, run, client, rule, 0.0, 60.0) == 20
      && !WithinLimit(rules, run, client, rule) && !NeverExceeds(rules, run, client, rule)
  {
    hide AcceptedUnder, PathsUnder, NeverExceeds;
    var login, rule := "/api/v1/auth/login", Rule(10, 60.0);
    var rules := [(login, rule)];
    var slashed := login + "/";
    assert login <= slashed && |slashed| == |login| + 1;
    run := PathsMultiply(rules, client, rule, [login, slashed], 0.0);
    assert 0.0 + rule.window == 60.0;
    assert !LimitedAt(rules, run, client, rule, 0.0);
    ClientLimitIff(rules, run, client, rule);
  }
}
