/** Runs of the registry from its state at process start, stating what
    callers observe. */
module Scenarios {
  import opened Telemetry
  import opened MetricRegistry
  import opened RequestTracker
  import opened ResourceSampler

  /** Two sales at 10 and two failures from a fresh registry. */
  method FreshSalesAndFailures() returns (revenue: real, sold: nat, first: nat, second: nat)
    ensures revenue == 20.0 && sold == 2
    ensures first == 0 && second == 1
  {
    var reg := new Registry();
    revenue, sold := reg.RecordPizzaSale(10.0);
    revenue, sold := reg.RecordPizzaSale(10.0);
    first := reg.RecordPizzaFailure();
    second := reg.RecordPizzaFailure();
  }

  /** Successive failure recordings from a fresh registry return
      0, 1, 2, ... */
  method FreshFailureRun(n: nat) returns (returned: seq<nat>)
    ensures |returned| == n
    ensures forall i :: 0 <= i < n ==> returned[i] == i
  {
    var reg := new Registry();
    returned := [];
    while |returned| < n
      invariant reg.Valid() && |returned| <= n
      invariant reg.creationFailures == |returned|
      invariant forall i :: 0 <= i < |returned| ==> returned[i] == i
    {
      var previous := reg.RecordPizzaFailure();
      returned := returned + [previous];
    }
  }

  /** Counting a run of requests from a fresh registry: the total is the
      number of requests, each method's count its number of occurrences,
      and the counts add up to the total. */
  method FreshRequests(requests: seq<string>) returns (total: nat, counts: map<string, nat>)
    ensures total == |requests|
    ensures forall k :: Count(counts, k) == multiset(requests)[k]
    ensures SumCounts(counts) == total
  {
    var reg := new Registry();
    for i := 0 to |requests|
      invariant reg.Valid()
      invariant reg.totalRequests == i && reg.methods == Replay(requests[..i])
    {
      reg.TrackRequest(requests[i]);
      assert requests[..i + 1][..i] == requests[..i];
    }
    total, counts := reg.totalRequests, reg.methods;
    assert requests[..|requests|] == requests;
    ReplayCounts(requests);
  }

  /** A run of logins (true) and logouts (false) from a fresh registry
      never drives the gauge below zero. */
  method FreshLoginLogout(events: seq<bool>) returns (users: int)
    ensures users == ActiveAfter(0, events)
    ensures 0 <= users <= Logins(events)
  {
    var reg := new Registry();
    for i := 0 to |events|
      invariant reg.Valid() && reg.activeUsers == ActiveAfter(0, events[..i])
    {
      var sent: Metric;
      if events[i] {
        sent := reg.RecordUserLogin();
      } else {
        sent := reg.RecordUserLogout();
      }
      assert events[..i + 1][..i] == events[..i];
    }
    users := reg.activeUsers;
    assert events[..|events|] == events;
    ActiveAfterBounds(events);
  }

  /** A GET taking 42 ms as the first request of the process: six
      exports, with zero for the methods never seen. */
  method FreshGetCompletion() returns (sent: seq<Metric>)
    ensures sent == [
      Metric("http_requests_total", Finite(1.0), Sum, "1"),
      Metric("http_requests_get", Finite(1.0), Sum, "1"),
      Metric("http_requests_post", Finite(0.0), Sum, "1"),
      Metric("http_requests_put", Finite(0.0), Sum, "1"),
      Metric("http_requests_delete", Finite(0.0), Sum, "1"),
      Metric("request_latency", Finite(42.0), Gauge, "ms")]
  {
    var reg := new Registry();
    reg.TrackRequest("GET");
    sent := RequestExports("GET", "/api/order/menu", reg.totalRequests, reg.methods, 42.0);
  }

  /** A POST to a pizza path as the first request of the process: the
      same counters plus the pizza-creation latency. */
  method FreshPizzaPostCompletion(durationMs: real) returns (sent: seq<Metric>)
    ensures sent == [
      Metric("http_requests_total", Finite(1.0), Sum, "1"),
      Metric("http_requests_get", Finite(0.0), Sum, "1"),
      Metric("http_requests_post", Finite(1.0), Sum, "1"),
      Metric("http_requests_put", Finite(0.0), Sum, "1"),
      Metric("http_requests_delete", Finite(0.0), Sum, "1"),
      Metric("request_latency", Finite(durationMs), Gauge, "ms"),
      Metric("pizza_creation_latency", Finite(durationMs), Gauge, "ms")]
  {
    var reg := new Registry();
    reg.TrackRequest("POST");
    var url := "/api/pizza";
    assert OccursAt(url, "/pizza", 4);
    sent := RequestExports("POST", url, reg.totalRequests, reg.methods, durationMs);
  }

  /** Two CPU readings from a fresh sampler: the first is 0, and when no
      counter went backwards and some ticks elapsed, the second is a
      percentage in [0, 100]. */
  method FreshSamplerTwice(before: seq<CoreTimes>, after: seq<CoreTimes>)
    returns (first: Double, second: Double)
    requires |before| == |after|
    requires forall i :: 0 <= i < |before| ==> Advanced(before[i], after[i])
    requires TotalTicks(after) != TotalTicks(before)
    ensures first == Finite(0.0)
    ensures second.Finite? && 0.0 <= second.value <= 100.0
  {
    var sampler := new CpuSampler();
    first := sampler.Sample(before);
    second := sampler.Sample(after);
    DeltaBounds(before, after);
  }
}
