/** The sliding-window rate limiter (app/core/middleware.py). Clock readings are reals. */
module RateLimiter {
  import opened Types

  datatype Rule = Rule(maxRequests: int, window: real)
  datatype HttpRequest = HttpRequest(client: string, path: string)

  /** `Limited` carries the Retry-After header; `Crashed` is the failed read of an empty deque's head. */
  datatype Decision = Passed | Limited(retryAfter: int) | Crashed

  type Rules = seq<(string, Rule)>
  type Buckets = map<string, seq<real>>

  /** The first rule whose prefix the path starts with. */
  function MatchRule(rules: Rules, path: string): Option<Rule> {
    if |rules| == 0 then None
    else if rules[0].0 <= path then Some(rules[0].1)
    else MatchRule(rules[1..], path)
  }

  function Key(r: HttpRequest): string {
    r.client + ":" + r.path
  }

  /** The deque without the entries before the cutoff at its head. */
  function Prune(bucket: seq<real>, cutoff: real): seq<real> {
    if |bucket| == 0 || bucket[0] >= cutoff then bucket else Prune(bucket[1..], cutoff)
  }

  function Get(buckets: Buckets, key: string): seq<real> {
    if key in buckets then buckets[key] else []
  }

  /** `int(max(0.0, window - (now - oldest))) + 1`. */
  function RetryAfter(window: real, now: real, oldest: real): int {
    var wait := window - (now - oldest);
    (if wait > 0.0 then wait else 0.0).Floor + 1
  }

  /** One request on one deque: what is kept, and the decision. */
  function Judge(rule: Rule, bucket: seq<real>, now: real): (seq<real>, Decision) {
    var kept := Prune(bucket, now - rule.window);
    if |kept| < rule.maxRequests then (kept + [now], Passed)
    else if |kept| == 0 then (kept, Crashed)
    else (kept, Limited(RetryAfter(rule.window, now, kept[0])))
  }

  function Dispatch(rules: Rules, buckets: Buckets, r: HttpRequest, now: real): (Buckets, Decision) {
    match MatchRule(rules, r.path)
    case None => (buckets, Passed)
    case Some(rule) =>
      var (bucket, decision) := Judge(rule, Get(buckets, Key(r)), now);
      (buckets[Key(r) := bucket], decision)
  }

  class Middleware {
    const rules: Rules
    var buckets: Buckets

    constructor (rules: Rules)
      ensures this.rules == rules && buckets == map[]
    {
      this.rules := rules;
      buckets := map[];
    }

    method FindRule(path: string) returns (rule: Option<Rule>)
      ensures rule == MatchRule(rules, path)
    {
      for i := 0 to |rules|
        invariant MatchRule(rules, path) == MatchRule(rules[i..], path)
      {
        if rules[i].0 <= path {
          return Some(rules[i].1);
        }
        assert rules[i..][1..] == rules[i + 1..];
      }
      rule := None;
    }

    method HandleRequest(r: HttpRequest, now: real) returns (decision: Decision)
      modifies this`buckets
      ensures (buckets, decision) == Dispatch(rules, old(buckets), r, now)
    {
      var rule := FindRule(r.path);
      if rule.None? {
        return Passed;
      }
      var key, cutoff := Key(r), now - rule.value.window;
      var bucket := Get(buckets, key);
      ghost var before := bucket;
      while |bucket| > 0 && bucket[0] < cutoff
        invariant Prune(bucket, cutoff) == Prune(before, cutoff)
      {
        bucket := bucket[1..];
      }
      if |bucket| >= rule.value.maxRequests {
        buckets := buckets[key := bucket];
        if |bucket| == 0 {
          return Crashed;
        }
        return Limited(RetryAfter(rule.value.window, now, bucket[0]));
      }
      bucket := bucket + [now];
      buckets := buckets[key := bucket];
      decision := Passed;
    }
  }
}
