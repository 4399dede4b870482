/** One firing of the periodic telemetry timer, run to completion with
    no other work interleaved. The coin flips and simulated latencies it
    draws at random, and the host readings, are parameters. */
module Scheduler {
  import opened Telemetry
  import opened ResourceSampler
  import opened MetricRegistry

  /** The fixed price of each simulated sale. */
  const Price: real := 50.0

  /** The currency unit of the revenue metrics (the Thai baht sign). */
  const Baht: string := "\U{0E3F}"

  /** The simulated business events of a tick: one sale at `Price`, one
      failure, a login or logout, an auth success or failure. Returns the
      recorders' results and the metrics two of them export. */
  method SimulateEvents(reg: Registry, login: bool, authOk: bool)
    returns (revenue: real, pizzasSold: nat, failures: nat, users: Metric, auth: Metric)
    requires reg.Valid()
    modifies reg
    ensures reg.Valid()
    ensures reg.pizzasSold == old(reg.pizzasSold) + 1 == pizzasSold
    ensures reg.revenue == old(reg.revenue) + Price == revenue
    ensures failures == old(reg.creationFailures) && reg.creationFailures == failures + 1
    ensures reg.activeUsers == ActiveAfter(old(reg.activeUsers), [login])
    ensures reg.authSuccess == old(reg.authSuccess) + (if authOk then 1 else 0)
    ensures reg.authFailure == old(reg.authFailure) + (if authOk then 0 else 1)
    ensures reg.totalRequests == old(reg.totalRequests) && reg.methods == old(reg.methods)
    ensures Dominates(reg.Snapshot(), old(reg.Snapshot()))
    ensures users == Metric("active_users", CountValue(reg.activeUsers), Gauge, "users")
    ensures auth == if authOk
      then Metric("auth_success", CountValue(reg.authSuccess), Sum, "attempts")
      else Metric("auth_failure", CountValue(reg.authFailure), Sum, "attempts")
  {
    revenue, pizzasSold := reg.RecordPizzaSale(Price);
    failures := reg.RecordPizzaFailure();
    if login {
      users := reg.RecordUserLogin();
    } else {
      users := reg.RecordUserLogout();
    }
    if authOk {
      auth := reg.RecordAuthSuccess();
    } else {
      auth := reg.RecordAuthFailure();
    }
  }

  /** Samples the host, advances the simulated business events and
      returns every metric handed to the exporter during the tick, in
      the order the exporter is called. */
  method Tick(reg: Registry, sampler: CpuSampler, cores: seq<CoreTimes>,
              totalMemory: nat, freeMemory: nat, login: bool, authOk: bool,
              simulatedRequestLatency: real, simulatedPizzaLatency: real)
    returns (sent: seq<Metric>)
    requires reg.Valid() && totalMemory > 0
    modifies reg, sampler
    ensures reg.Valid()
    ensures sampler.baseline == Some(Baseline(TotalTicks(cores), IdleTicks(cores)))
    ensures reg.pizzasSold == old(reg.pizzasSold) + 1
    ensures reg.revenue == old(reg.revenue) + Price
    ensures reg.creationFailures == old(reg.creationFailures) + 1
    ensures reg.activeUsers == ActiveAfter(old(reg.activeUsers), [login])
    ensures reg.authSuccess == old(reg.authSuccess) + (if authOk then 1 else 0)
    ensures reg.authFailure == old(reg.authFailure) + (if authOk then 0 else 1)
    ensures reg.totalRequests == old(reg.totalRequests) && reg.methods == old(reg.methods)
    ensures Dominates(reg.Snapshot(), old(reg.Snapshot()))
    ensures |sent| == 10
    ensures sent[0] == Metric("active_users", CountValue(reg.activeUsers), Gauge, "users")
    ensures sent[1] == if authOk
      then Metric("auth_success", CountValue(reg.authSuccess), Sum, "attempts")
      else Metric("auth_failure", CountValue(reg.authFailure), Sum, "attempts")
    ensures sent[2] == Metric("cpu_usage",
      if old(sampler.NoBaseline()) then Finite(0.0)
      else UsageFromDeltas(IdleTicks(cores) - old(sampler.baseline.value.idle),
                           TotalTicks(cores) - old(sampler.baseline.value.total)),
      Gauge, "%")
    ensures sent[3] == Metric("memory_usage", Finite(MemoryUsagePercentage(totalMemory, freeMemory)), Gauge, "%")
    ensures sent[4] == Metric("pizza_sold", CountValue(reg.pizzasSold), Sum, "pizzas")
    ensures sent[5] == Metric("revenue", Finite(Price), Sum, Baht)
    ensures sent[6] == Metric("pizza_failed", CountValue(old(reg.creationFailures)), Sum, "pizzas")
    ensures sent[7] == Metric("revenue_total", Finite(reg.revenue), Sum, Baht)
    ensures sent[8] == Metric("request_latency", Finite(simulatedRequestLatency), Gauge, "ms")
    ensures sent[9] == Metric("pizza_creation_latency", Finite(simulatedPizzaLatency), Gauge, "s")
  {
    var cpu := sampler.Sample(cores);
    var memory := MemoryUsagePercentage(totalMemory, freeMemory);
    var revenue, pizzasSold, failures, users, auth := SimulateEvents(reg, login, authOk);
    sent := [users, auth,
      Metric("cpu_usage", cpu, Gauge, "%"),
      Metric("memory_usage", Finite(memory), Gauge, "%"),
      Metric("pizza_sold", CountValue(pizzasSold), Sum, "pizzas"),
      Metric("revenue", Finite(Price), Sum, Baht),
      Metric("pizza_failed", CountValue(failures), Sum, "pizzas"),
      Metric("revenue_total", Finite(revenue), Sum, Baht),
      Metric("request_latency", Finite(simulatedRequestLatency), Gauge, "ms"),
      Metric("pizza_creation_latency", Finite(simulatedPizzaLatency), Gauge, "s")];
  }
}
