/**
 * A two-model benchmark over concurrency levels 1 and 10, and two
 * `better` settings, shared by the worked scenarios.
 */
module Fixtures {
  import opened Tables
  import opened Summary

  const Qpm: string := "requests_per_minute_(qpm)"
  const Ttft: string := "time_to_first_token_in_ms_(ttft)"
  const ModelA: Model := Model("modelA", [Row(ConcurrencyLabel, [1, 10]), Row(Qpm, [5, 50])])
  const ModelB: Model := Model("modelB", [Row(ConcurrencyLabel, [1, 10]), Row(Qpm, [6, 40])])
  const Benchmark: Data := [ModelA, ModelB]
  const HigherQpm: Policy := map[Qpm := "higher"]
  const BothConfigured: Policy := map[Qpm := "higher", Ttft := "lower"]
}
