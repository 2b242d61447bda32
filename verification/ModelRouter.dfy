/**
 * Failover across providers: each provider is tried `maxRetries` times before
 * the next one, the first success is returned and its usage is added up.
 */
module ModelRouter {
  import opened Wrappers

  datatype Usage = Usage(inputTokens: int, outputTokens: int, totalTokens: int, costUsd: real)

  const NO_USAGE := Usage(0, 0, 0, 0.0)

  function Add(a: Usage, b: Usage): Usage {
    Usage(a.inputTokens + b.inputTokens, a.outputTokens + b.outputTokens,
          a.totalTokens + b.totalTokens, a.costUsd + b.costUsd)
  }

  datatype Response<T> = Response(parsed: T, usage: Usage)

  /** What provider `p` answers when `n` calls have been made before: anything. */
  type Behaviour<!T> = (nat, nat) -> Result<Response<T>, string>

  /**
   * The providers called from attempt `a` of provider `p` on, when `made` calls
   * have been made before, and the number of the call that succeeded.
   */
  function Trail<T>(respond: Behaviour<T>, providers: nat, maxRetries: int, p: nat, a: nat, made: nat)
    : (seq<nat>, Option<nat>)
    decreases providers - p, maxRetries - a
  {
    if p >= providers then ([], None)
    else if a >= maxRetries then Trail(respond, providers, maxRetries, p + 1, 0, made)
    else if respond(p, made).Ok? then ([p], Some(made))
    else
      var (calls, success) := Trail(respond, providers, maxRetries, p, a + 1, made + 1);
      ([p] + calls, success)
  }

  /** The calls made since the first `start` have failed so far, and this is the error of the last one. */
  predicate FailedWith<T>(respond: Behaviour<T>, calls: seq<nat>, start: nat, error: Option<string>) {
    if |calls| <= start then error == None
    else
      var last := respond(calls[|calls| - 1], |calls| - 1);
      last.Err? && error == Some(last.error)
  }

  /** One request: its calls are added to the log, and the usage of its response to the usage. */
  function AfterRequest<T>(respond: Behaviour<T>, providers: nat, usage: Usage, calls: seq<nat>, maxRetries: int)
    : (Usage, seq<nat>)
  {
    var (trail, success) := Trail(respond, providers, maxRetries, 0, 0, |calls|);
    var response := if success.Some? && trail != [] then respond(trail[|trail| - 1], success.value) else Err("");
    (if response.Ok? then Add(usage, response.value.usage) else usage, calls + trail)
  }

  class ModelRouter<T> {
    const respond: Behaviour<T>
    const providers: nat
    var cumulativeUsage: Usage
    /** The provider of every call made so far. */
    var calls: seq<nat>

    constructor (respond: Behaviour<T>, providers: nat)
      ensures this.respond == respond && this.providers == providers
      ensures cumulativeUsage == NO_USAGE && calls == []
    {
      this.respond, this.providers := respond, providers;
      cumulativeUsage, calls := NO_USAGE, [];
    }

    method GenerateStructured(maxRetries: int) returns (r: Result<Response<T>, Option<string>>)
      modifies this
      ensures var (trail, success) := Trail(respond, providers, maxRetries, 0, 0, |old(calls)|);
              && calls == old(calls) + trail
              && (success.None? ==>
                    && cumulativeUsage == old(cumulativeUsage)
                    && (trail == [] ==> r == Err(None))
                    && (trail != [] ==>
                          && respond(trail[|trail| - 1], |calls| - 1).Err?
                          && r == Err(Some(respond(trail[|trail| - 1], |calls| - 1).error))))
              && (success.Some? ==>
                    && r.Ok?
                    && trail != []
                    && respond(trail[|trail| - 1], success.value) == Ok(r.value)
                    && cumulativeUsage.inputTokens == old(cumulativeUsage.inputTokens) + r.value.usage.inputTokens
                    && cumulativeUsage.outputTokens == old(cumulativeUsage.outputTokens) + r.value.usage.outputTokens
                    && cumulativeUsage.totalTokens == old(cumulativeUsage.totalTokens) + r.value.usage.totalTokens
                    && cumulativeUsage.costUsd == old(cumulativeUsage.costUsd) + r.value.usage.costUsd)
      ensures (cumulativeUsage, calls) == AfterRequest(respond, providers, old(cumulativeUsage), old(calls), maxRetries)
    {
      var lastError: Option<string> := None;
      ghost var start := |calls|;
      ghost var (whole, success) := Trail(respond, providers, maxRetries, 0, 0, start);
      var p := 0;
      while p < providers
        invariant 0 <= p <= providers
        invariant |calls| >= start
        invariant var (rest, s) := Trail(respond, providers, maxRetries, p, 0, |calls|);
                  calls + rest == old(calls) + whole && s == success
        invariant cumulativeUsage == old(cumulativeUsage)
        invariant FailedWith(respond, calls, start, lastError)
      {
        var a := 0;
        while a < maxRetries
          invariant 0 <= a
          invariant |calls| >= start
          invariant var (rest, s) := Trail(respond, providers, maxRetries, p, a, |calls|);
                    calls + rest == old(calls) + whole && s == success
          invariant cumulativeUsage == old(cumulativeUsage)
          invariant FailedWith(respond, calls, start, lastError)
        {
          var response := respond(p, |calls|);
          ghost var before := calls;
          calls := calls + [p];
          match response
          case Ok(v) =>
            cumulativeUsage := Add(cumulativeUsage, v.usage);
            assert calls == old(calls) + whole;
            assert whole[|whole| - 1] == calls[|calls| - 1] == p;
            return Ok(v);
          case Err(e) =>
            lastError := Some(e);
            assert Trail(respond, providers, maxRetries, p, a, |before|).0 ==
                   [p] + Trail(respond, providers, maxRetries, p, a + 1, |calls|).0;
            assert before + ([p] + Trail(respond, providers, maxRetries, p, a + 1, |calls|).0) ==
                   calls + Trail(respond, providers, maxRetries, p, a + 1, |calls|).0;
            a := a + 1;
        }
        p := p + 1;
      }
      assert calls == old(calls) + whole;
      return Err(lastError);
    }
  }

  /** The provider that answered, or the number of providers when none did. */
  function Answering(calls: seq<nat>, success: Option<nat>, providers: nat): nat {
    if success.Some? && calls != [] then calls[|calls| - 1] else providers
  }

  /** How often provider `x` is called, when attempt `a` of provider `p` is next. */
  predicate CalledAsOften(calls: seq<nat>, x: nat, p: nat, a: nat, last: nat, maxRetries: nat) {
    var n := multiset(calls)[x];
    if x < p || x > last then n == 0
    else if x == last then n + (if x == p then a else 0) <= maxRetries
    else n == maxRetries - (if x == p then a else 0)
  }

  /** A call succeeds exactly when it is the last one and the request succeeds. */
  lemma {:induction false} TrailOutcome<T>(respond: Behaviour<T>, providers: nat, maxRetries: nat, p: nat, a: nat,
          made: nat)
    requires p <= providers && a <= maxRetries
    ensures var (calls, success) := Trail(respond, providers, maxRetries, p, a, made);
            && (success.Some? ==> calls != [] && success.value == made + |calls| - 1)
            && (forall i :: 0 <= i < |calls| ==>
                  p <= calls[i] < providers && (respond(calls[i], made + i).Ok? <==> success == Some(made + i)))
    decreases providers - p, maxRetries - a
  {
    if p >= providers {
    } else if a >= maxRetries {
      TrailOutcome(respond, providers, maxRetries, p + 1, 0, made);
    } else if respond(p, made).Err? {
      TrailOutcome(respond, providers, maxRetries, p, a + 1, made + 1);
      var (calls, success) := Trail(respond, providers, maxRetries, p, a, made);
      var (rest, _) := Trail(respond, providers, maxRetries, p, a + 1, made + 1);
      forall i | 0 <= i < |calls|
        ensures p <= calls[i] < providers && (respond(calls[i], made + i).Ok? <==> success == Some(made + i))
      {
        if i > 0 {
          assert calls[i] == rest[i - 1];
        }
      }
    }
  }

  lemma {:induction false} TrailCounts<T>(respond: Behaviour<T>, providers: nat, maxRetries: nat, p: nat, a: nat,
          made: nat, x: nat)
    requires p <= providers && a <= maxRetries && x < providers
    ensures var (calls, success) := Trail(respond, providers, maxRetries, p, a, made);
            CalledAsOften(calls, x, p, a, Answering(calls, success, providers), maxRetries)
    decreases providers - p, maxRetries - a
  {
    hide CalledAsOften;
    hide Answering;
    var (calls, success) := Trail(respond, providers, maxRetries, p, a, made);
    if p >= providers {
      CallsEnd(calls, success, providers, x, p, a, maxRetries);
    } else if a >= maxRetries {
      TrailCounts(respond, providers, maxRetries, p + 1, 0, made, x);
      TrailOutcome(respond, providers, maxRetries, p + 1, 0, made);
      NextProvider(calls, success, providers, x, p, maxRetries);
    } else if respond(p, made).Ok? {
      CallsEnd(calls, success, providers, x, p, a, maxRetries);
    } else {
      TrailCounts(respond, providers, maxRetries, p, a + 1, made + 1, x);
      TrailOutcome(respond, providers, maxRetries, p, a + 1, made + 1);
      var (rest, s) := Trail(respond, providers, maxRetries, p, a + 1, made + 1);
      OneMoreCall(rest, s, providers, x, p, a, maxRetries);
    }
  }

  lemma CallsEnd(calls: seq<nat>, success: Option<nat>, providers: nat, x: nat, p: nat, a: nat, maxRetries: nat)
    requires x < providers && p <= providers
    requires if p < providers then calls == [p] && success.Some? && a < maxRetries else calls == []
    ensures CalledAsOften(calls, x, p, a, Answering(calls, success, providers), maxRetries)
  {
  }

  lemma NextProvider(calls: seq<nat>, success: Option<nat>, providers: nat, x: nat, p: nat, maxRetries: nat)
    requires p < providers && x < providers
    requires success.Some? ==> calls != []
    requires forall i :: 0 <= i < |calls| ==> p < calls[i]
    requires CalledAsOften(calls, x, p + 1, 0, Answering(calls, success, providers), maxRetries)
    ensures CalledAsOften(calls, x, p, maxRetries, Answering(calls, success, providers), maxRetries)
  {
  }

  lemma OneMoreCall(rest: seq<nat>, success: Option<nat>, providers: nat, x: nat, p: nat, a: nat, maxRetries: nat)
    requires p < providers
    requires success.Some? ==> rest != []
    requires forall i :: 0 <= i < |rest| ==> p <= rest[i]
    requires CalledAsOften(rest, x, p, a + 1, Answering(rest, success, providers), maxRetries)
    ensures CalledAsOften([p] + rest, x, p, a, Answering([p] + rest, success, providers), maxRetries)
  {
  }

  /**
   * For every behaviour of the providers: all calls before the last fail, the
   * request succeeds exactly when its last call does, each provider before the
   * answering one is called exactly `maxRetries` times, that one at most so
   * often, and no later one at all.
   */
  lemma Failover<T>(respond: Behaviour<T>, providers: nat, maxRetries: nat, made: nat, x: nat)
    requires x < providers
    ensures var (calls, success) := Trail(respond, providers, maxRetries, 0, 0, made);
            var last := Answering(calls, success, providers);
            && (success.None? <==> forall i :: 0 <= i < |calls| ==> respond(calls[i], made + i).Err?)
            && (success.Some? ==> calls != [] && last < providers && respond(last, made + |calls| - 1).Ok?
                                  && forall i :: 0 <= i < |calls| - 1 ==> respond(calls[i], made + i).Err?)
            && (x < last ==> multiset(calls)[x] == maxRetries)
            && (x == last ==> multiset(calls)[x] <= maxRetries)
            && (x > last ==> multiset(calls)[x] == 0)
  {
    TrailOutcome(respond, providers, maxRetries, 0, 0, made);
    TrailCounts(respond, providers, maxRetries, 0, 0, made, x);
    var (calls, success) := Trail(respond, providers, maxRetries, 0, 0, made);
    if success.Some? {
      assert respond(calls[|calls| - 1], made + (|calls| - 1)).Ok?;
    }
  }

  // A history of requests

  /** The usage counted and the provider of every call, after requests with these retry limits. */
  function Requests<T>(respond: Behaviour<T>, providers: nat, limits: seq<int>): (Usage, seq<nat>) {
    if limits == [] then (NO_USAGE, []) else
      var (usage, calls) := Requests(respond, providers, limits[..|limits| - 1]);
      AfterRequest(respond, providers, usage, calls, limits[|limits| - 1])
  }

  /** The usage of the calls that succeeded. */
  function SuccessfulUsage<T>(respond: Behaviour<T>, calls: seq<nat>): Usage {
    if calls == [] then NO_USAGE else
      var n := |calls| - 1;
      var before := SuccessfulUsage(respond, calls[..n]);
      match respond(calls[n], n)
      case Ok(v) => Add(before, v.usage)
      case Err(_) => before
  }

  lemma {:induction false} FailuresCostNothing<T>(respond: Behaviour<T>, before: seq<nat>, more: seq<nat>)
    requires forall i :: 0 <= i < |more| ==> respond(more[i], |before| + i).Err?
    ensures SuccessfulUsage(respond, before + more) == SuccessfulUsage(respond, before)
  {
    if more == [] {
      assert before + more == before;
    } else {
      var n := |more| - 1;
      assert (before + more)[..|before| + n] == before + more[..n];
      FailuresCostNothing(respond, before, more[..n]);
    }
  }

  lemma {:induction false} RequestCostsItsSuccess<T>(respond: Behaviour<T>, providers: nat, limit: int, calls: seq<nat>)
    ensures var (usage, calls') := AfterRequest(respond, providers, SuccessfulUsage(respond, calls), calls, limit);
            usage == SuccessfulUsage(respond, calls')
  {
    var (trail, success) := Trail(respond, providers, limit, 0, 0, |calls|);
    if limit < 0 {
      NoAttempts(respond, providers, limit, 0, |calls|);
      assert calls + trail == calls;
    } else {
      TrailOutcome(respond, providers, limit, 0, 0, |calls|);
      if success.None? {
        FailuresCostNothing(respond, calls, trail);
      } else {
        var n := |trail| - 1;
        FailuresCostNothing(respond, calls, trail[..n]);
        assert (calls + trail)[..|calls| + n] == calls + trail[..n];
        assert respond(trail[n], |calls| + n).Ok?;
      }
    }
  }

  lemma {:induction false} NoAttempts<T>(respond: Behaviour<T>, providers: nat, limit: int, p: nat, made: nat)
    requires limit <= 0
    ensures Trail(respond, providers, limit, p, 0, made) == ([], None)
    decreases providers - p
  {
    if p < providers {
      NoAttempts(respond, providers, limit, p + 1, made);
    }
  }

  /** The sum of one number of the usage over the calls that succeeded. */
  function Total<T>(respond: Behaviour<T>, calls: seq<nat>, number: Usage -> real): real {
    if calls == [] then 0.0 else
      var n := |calls| - 1;
      Total(respond, calls[..n], number) +
      match respond(calls[n], n)
      case Ok(v) => number(v.usage)
      case Err(_) => 0.0
  }

  lemma {:induction false} UsageIsTotal<T>(respond: Behaviour<T>, calls: seq<nat>)
    ensures var usage := SuccessfulUsage(respond, calls);
            && usage.inputTokens as real == Total(respond, calls, (u: Usage) => u.inputTokens as real)
            && usage.outputTokens as real == Total(respond, calls, (u: Usage) => u.outputTokens as real)
            && usage.totalTokens as real == Total(respond, calls, (u: Usage) => u.totalTokens as real)
            && usage.costUsd == Total(respond, calls, (u: Usage) => u.costUsd)
  {
    if calls != [] {
      UsageIsTotal(respond, calls[..|calls| - 1]);
    }
  }

  lemma {:induction false} UsageIsSuccessful<T>(respond: Behaviour<T>, providers: nat, limits: seq<int>)
    ensures var (usage, calls) := Requests(respond, providers, limits);
            usage == SuccessfulUsage(respond, calls)
  {
    if limits != [] {
      UsageIsSuccessful(respond, providers, limits[..|limits| - 1]);
      RequestCostsItsSuccess(respond, providers, limits[|limits| - 1],
          Requests(respond, providers, limits[..|limits| - 1]).1);
    }
  }

  /**
   * Each of the four cumulative numbers is the sum of that number over all the
   * calls ever made that succeeded; failed calls and requests add nothing.
   */
  lemma UsageIsSum<T>(respond: Behaviour<T>, providers: nat, limits: seq<int>)
    ensures var (usage, calls) := Requests(respond, providers, limits);
            && usage.inputTokens as real == Total(respond, calls, (u: Usage) => u.inputTokens as real)
            && usage.outputTokens as real == Total(respond, calls, (u: Usage) => u.outputTokens as real)
            && usage.totalTokens as real == Total(respond, calls, (u: Usage) => u.totalTokens as real)
            && usage.costUsd == Total(respond, calls, (u: Usage) => u.costUsd)
  {
    hide Requests;
    hide SuccessfulUsage;
    hide Total;
    UsageIsSuccessful(respond, providers, limits);
    UsageIsTotal(respond, Requests(respond, providers, limits).1);
  }
}
