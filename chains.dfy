/**
 * The metrics executor `run_with_metrics`: invoke the chain once under a
 * usage callback, time the call, and build the five-field usage record that
 * the chat page then stamps with a timestamp and session id and logs.
 *
 * The chain, the callback's counters and the clock are external: the chain is
 * the function parameter `invoke`, which returns the output together with the
 * counters the callback accumulated during the call, and the two clock
 * readings are the parameters `start` and `stop`.
 */
module Chains {
  import opened Wrappers
  import opened Rounding
  import opened Pricing
  import opened Metrics

  /** What the usage callback has accumulated; `totalCost` is `None` when the callback has no such attribute. */
  datatype Counters = Counters(promptTokens: nat, completionTokens: nat, totalTokens: nat, totalCost: Option<real>)

  /** `config or {}` */
  function ConfigOrEmpty<C>(config: Option<map<string, C>>): map<string, C>
  {
    match config
    case None => map[]
    case Some(c) => c
  }

  /** `hasattr(cb, "total_cost") and cb.total_cost`: the provider reported a non-zero cost. */
  predicate ProviderCostReported(cb: Counters)
  {
    cb.totalCost.Some? && cb.totalCost.value != 0.0
  }

  /** The cost recorded for a call: the provider's figure, else the local estimate. */
  function CostOf(cb: Counters, priceIn: real, priceOut: real): (r: real)
    ensures r == (if cb.totalCost.Some? then cb.totalCost.value else 0.0)
         || r == EstimateCost(cb.promptTokens, cb.completionTokens, priceIn, priceOut)
    ensures priceIn >= 0.0 && priceOut >= 0.0 && (cb.totalCost.Some? ==> cb.totalCost.value >= 0.0) ==> r >= 0.0
  {
    if ProviderCostReported(cb) then cb.totalCost.value
    else
      if priceIn >= 0.0 && priceOut >= 0.0 then
        EstimateCostNonNegative(cb.promptTokens, cb.completionTokens, priceIn, priceOut);
        EstimateCost(cb.promptTokens, cb.completionTokens, priceIn, priceOut)
      else EstimateCost(cb.promptTokens, cb.completionTokens, priceIn, priceOut)
  }

  /** The field names of a usage record. */
  const UsageKeys: set<string> := {"prompt_tokens", "completion_tokens", "total_tokens", "cost_est_usd", "latency_seconds"}

  /** The usage dictionary built after the call returns. */
  function UsageRecord(cb: Counters, latency: real, priceIn: real, priceOut: real): (r: Row)
    ensures r.Keys == UsageKeys && |r.Keys| == 5
    ensures "ts" !in r && "session_id" !in r
    ensures forall k :: k in r ==> r[k].Num?
  {
    map[
      "prompt_tokens" := Num(cb.promptTokens as real),
      "completion_tokens" := Num(cb.completionTokens as real),
      "total_tokens" := Num(cb.totalTokens as real),
      "cost_est_usd" := Num(CostOf(cb, priceIn, priceOut)),
      "latency_seconds" := Num(latency)]
  }

  /**
   * `run_with_metrics(runnable, inputs, config)`: read the clock, invoke the
   * chain with `config or {}`, read the clock again, and return the chain's
   * output with the usage record.
   */
  method RunWithMetrics<I, C, O>(invoke: (I, map<string, C>) -> (O, Counters), inputs: I,
                                 config: Option<map<string, C>>, start: real, stop: real,
                                 priceIn: real, priceOut: real)
    returns (output: O, usage: Row)
    ensures usage == UsageRecord(invoke(inputs, ConfigOrEmpty(config)).1, stop - start, priceIn, priceOut)
    ensures config.Some? ==> output == invoke(inputs, config.value).0
    ensures config.None? ==> output == invoke(inputs, map[]).0
    ensures usage.Keys == UsageKeys
    ensures usage["latency_seconds"] == Num(stop - start)
    ensures var cb := invoke(inputs, ConfigOrEmpty(config)).1;
      usage["prompt_tokens"] == Num(cb.promptTokens as real) &&
      usage["completion_tokens"] == Num(cb.completionTokens as real) &&
      usage["total_tokens"] == Num(cb.totalTokens as real) &&
      (ProviderCostReported(cb) ==> usage["cost_est_usd"] == Num(cb.totalCost.value)) &&
      (!ProviderCostReported(cb) ==>
        usage["cost_est_usd"] == Num(EstimateCost(cb.promptTokens, cb.completionTokens, priceIn, priceOut)))
  {
    var effective := ConfigOrEmpty(config);
    var result := invoke(inputs, effective);
    output := result.0;
    var cb := result.1;
    var latency := stop - start;
    usage := UsageRecord(cb, latency, priceIn, priceOut);
  }

  /** The three token counters are copied from the callback unchanged. */
  lemma UsageRecordCounters(cb: Counters, latency: real, priceIn: real, priceOut: real)
    ensures UsageRecord(cb, latency, priceIn, priceOut)["prompt_tokens"] == Num(cb.promptTokens as real)
    ensures UsageRecord(cb, latency, priceIn, priceOut)["completion_tokens"] == Num(cb.completionTokens as real)
    ensures UsageRecord(cb, latency, priceIn, priceOut)["total_tokens"] == Num(cb.totalTokens as real)
  {
  }

  /** A non-zero provider cost is recorded as reported. */
  lemma CostFromProvider(cb: Counters, latency: real, priceIn: real, priceOut: real)
    requires cb.totalCost.Some? && cb.totalCost.value != 0.0
    ensures UsageRecord(cb, latency, priceIn, priceOut)["cost_est_usd"] == Num(cb.totalCost.value)
  {
  }

  /** A missing or zero provider cost falls back to the local estimate from the token counts. */
  lemma CostFallback(cb: Counters, latency: real, priceIn: real, priceOut: real)
    requires cb.totalCost == None || cb.totalCost == Some(0.0)
    ensures UsageRecord(cb, latency, priceIn, priceOut)["cost_est_usd"]
      == Num(EstimateCost(cb.promptTokens, cb.completionTokens, priceIn, priceOut))
  {
  }

  /** A clock that does not run backwards gives a non-negative latency. */
  lemma LatencyNonNegative(cb: Counters, start: real, stop: real, priceIn: real, priceOut: real)
    requires start <= stop
    ensures UsageRecord(cb, stop - start, priceIn, priceOut)["latency_seconds"].x >= 0.0
  {
  }

  /** The record the chat page logs for a turn: `{"ts": ..., "session_id": ..., **usage}`. */
  function TurnRecord(ts: real, sessionId: string, usage: Row): (r: Row)
    ensures r.Keys == usage.Keys + {"ts", "session_id"}
    ensures forall k :: k in usage ==> r[k] == usage[k]
    ensures "ts" !in usage ==> r["ts"] == Num(ts)
    ensures "session_id" !in usage ==> r["session_id"] == Str(sessionId)
  {
    map["ts" := Num(ts), "session_id" := Str(sessionId)] + usage
  }

  /** The logged turn keeps the timestamp, the session id and every usage field as they were. */
  lemma TurnRecordFields(ts: real, sessionId: string, cb: Counters, latency: real, priceIn: real, priceOut: real)
    ensures TurnRecord(ts, sessionId, UsageRecord(cb, latency, priceIn, priceOut)).Keys
      == UsageKeys + {"ts", "session_id"}
    ensures TurnRecord(ts, sessionId, UsageRecord(cb, latency, priceIn, priceOut))["ts"] == Num(ts)
    ensures TurnRecord(ts, sessionId, UsageRecord(cb, latency, priceIn, priceOut))["session_id"] == Str(sessionId)
    ensures forall k :: k in UsageKeys ==>
      TurnRecord(ts, sessionId, UsageRecord(cb, latency, priceIn, priceOut))[k]
        == UsageRecord(cb, latency, priceIn, priceOut)[k]
  {
  }

  /**
   * One chat turn logged into a missing log and aggregated at the moment it
   * was logged: one query, 1/15 per minute, and the turn's own latency and cost.
   */
  lemma SingleTurnSnapshot(ts: real, sessionId: string, cb: Counters, latency: real,
                           priceIn: real, priceOut: real,
                           dumps: Row -> string, loads: string -> Option<Row>)
    requires RoundTrips(dumps, loads, TurnRecord(ts, sessionId, UsageRecord(cb, latency, priceIn, priceOut)))
    ensures Aggregate(true, LogAll([], [TurnRecord(ts, sessionId, UsageRecord(cb, latency, priceIn, priceOut))], dumps), loads, ts)
      == Ok(Snapshot(1, RoundTo(1.0 / 15.0, 3), RoundTo(latency, 3), RoundTo(CostOf(cb, priceIn, priceOut), 6)))
  {
    var turn := TurnRecord(ts, sessionId, UsageRecord(cb, latency, priceIn, priceOut));
    TurnRecordReadsBack(ts, sessionId, cb, latency, priceIn, priceOut);
    assert AllRoundTrip(dumps, loads, [turn]);
    LogAllThenRead([turn], dumps, loads);
    AggregateOneRecent(turn, ts);
  }

  /** What `aggregate` reads from a logged turn: every field it uses is numeric, and holds the turn's own figures. */
  lemma TurnRecordReadsBack(ts: real, sessionId: string, cb: Counters, latency: real, priceIn: real, priceOut: real)
    ensures WellTyped([TurnRecord(ts, sessionId, UsageRecord(cb, latency, priceIn, priceOut))])
    ensures Timestamp(TurnRecord(ts, sessionId, UsageRecord(cb, latency, priceIn, priceOut))) == ts
    ensures Latency(TurnRecord(ts, sessionId, UsageRecord(cb, latency, priceIn, priceOut))) == latency
    ensures Cost(TurnRecord(ts, sessionId, UsageRecord(cb, latency, priceIn, priceOut))) == CostOf(cb, priceIn, priceOut)
  {
    TurnRecordFields(ts, sessionId, cb, latency, priceIn, priceOut);
  }
}
