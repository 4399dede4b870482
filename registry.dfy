/** The process-wide metric registry: business-event counters, the
    active-user gauge and the request counters, with the event recorders
    that update them. Each recorder that exports returns the metric it
    hands to the exporter. */
module MetricRegistry {
  import opened Telemetry

  /** The count stored for a key; a missing key counts as 0. */
  function Count(methods: map<string, nat>, key: string): nat
  {
    if key in methods then methods[key] else 0
  }

  /** The sum of all per-method counts. */
  ghost function SumCounts(methods: map<string, nat>): nat
    decreases |methods|
  {
    if methods == map[] then 0
    else
      var k :| k in methods;
      methods[k] + SumCounts(methods - {k})
  }

  /** The sum can be split at any key, present or not. */
  lemma {:induction false} SumCountsSplit(methods: map<string, nat>, key: string)
    ensures SumCounts(methods) == Count(methods, key) + SumCounts(methods - {key})
    decreases |methods|
  {
    if key !in methods {
      assert methods - {key} == methods;
    } else {
      var k :| k in methods && SumCounts(methods) == methods[k] + SumCounts(methods - {k});
      if k != key {
        SumCountsSplit(methods - {k}, key);
        SumCountsSplit(methods - {key}, k);
        assert methods - {k} - {key} == methods - {key} - {k};
      }
    }
  }

  /** The per-method counts after one more request with `verb`: that
      method's count (0 when missing) goes up by one, no other changes. */
  function CountRequest(methods: map<string, nat>, verb: string): (r: map<string, nat>)
    ensures r.Keys == methods.Keys + {verb}
    ensures Count(r, verb) == Count(methods, verb) + 1
    ensures forall k :: k != verb ==> Count(r, k) == Count(methods, k)
    ensures SumCounts(r) == SumCounts(methods) + 1
  {
    var r := methods[verb := Count(methods, verb) + 1];
    SumCountsSplit(r, verb);
    SumCountsSplit(methods, verb);
    assert r - {verb} == methods - {verb};
    r
  }

  /** The per-method counts after a run of requests from an empty map. */
  function Replay(requests: seq<string>): map<string, nat>
  {
    if requests == [] then map[]
    else CountRequest(Replay(requests[..|requests| - 1]), requests[|requests| - 1])
  }

  /** After a run of requests, each method's count is the number of
      requests with that method, and the counts add up to the number
      of requests. */
  lemma {:induction false} ReplayCounts(requests: seq<string>)
    ensures forall k :: Count(Replay(requests), k) == multiset(requests)[k]
    ensures SumCounts(Replay(requests)) == |requests|
  {
    if requests != [] {
      var n := |requests| - 1;
      ReplayCounts(requests[..n]);
      assert requests == requests[..n] + [requests[n]];
      assert multiset(requests) == multiset(requests[..n]) + multiset{requests[n]};
    }
  }

  /** The four methods that are exported by name. */
  const TrackedMethods: seq<string> := ["GET", "POST", "PUT", "DELETE"]

  /** The exported method counts together never exceed the sum of all counts. */
  lemma TrackedWithinSum(methods: map<string, nat>)
    ensures Count(methods, "GET") + Count(methods, "POST") + Count(methods, "PUT")
            + Count(methods, "DELETE") <= SumCounts(methods)
  {
    var m1 := methods - {"GET"};
    var m2 := m1 - {"POST"};
    var m3 := m2 - {"PUT"};
    SumCountsSplit(methods, "GET");
    SumCountsSplit(m1, "POST");
    SumCountsSplit(m2, "PUT");
    SumCountsSplit(m3, "DELETE");
    assert Count(m1, "POST") == Count(methods, "POST");
    assert Count(m2, "PUT") == Count(methods, "PUT");
    assert Count(m3, "DELETE") == Count(methods, "DELETE");
  }

  /** The active-user gauge after a run of logins (true) and logouts
      (false) from `start`, each logout floored at zero. */
  function ActiveAfter(start: int, events: seq<bool>): int
  {
    if events == [] then start
    else
      var before := ActiveAfter(start, events[..|events| - 1]);
      if events[|events| - 1] then before + 1
      else if 0 > before - 1 then 0 else before - 1
  }

  function Logins(events: seq<bool>): nat
  {
    multiset(events)[true]
  }

  /** From zero, the gauge is never negative, never above the number of
      logins, and at least the number of logins minus logouts. */
  lemma {:induction false} ActiveAfterBounds(events: seq<bool>)
    ensures 0 <= ActiveAfter(0, events) <= Logins(events)
    ensures ActiveAfter(0, events) >= Logins(events) - (|events| - Logins(events))
  {
    if events != [] {
      var n := |events| - 1;
      ActiveAfterBounds(events[..n]);
      assert events == events[..n] + [events[n]];
      assert multiset(events) == multiset(events[..n]) + multiset{events[n]};
    }
  }

  /** The counters that never go down, taken together. */
  datatype Counters = Counters(authSuccess: nat, authFailure: nat, pizzasSold: nat,
                               creationFailures: nat, totalRequests: nat,
                               methods: map<string, nat>)

  /** `after` is at least `before` in every counter and every method count. */
  ghost predicate Dominates(after: Counters, before: Counters)
  {
    before.authSuccess <= after.authSuccess &&
    before.authFailure <= after.authFailure &&
    before.pizzasSold <= after.pizzasSold &&
    before.creationFailures <= after.creationFailures &&
    before.totalRequests <= after.totalRequests &&
    forall k :: Count(before.methods, k) <= Count(after.methods, k)
  }

  class Registry {
    var authSuccess: nat
    var authFailure: nat
    var pizzasSold: nat
    var creationFailures: nat
    var revenue: real
    var activeUsers: int
    var totalRequests: nat
    var methods: map<string, nat>

    /** The gauge is never negative and the request total is the sum of
        the per-method counts. */
    ghost predicate Valid()
      reads this
    {
      activeUsers >= 0 && totalRequests == SumCounts(methods)
    }

    function Snapshot(): Counters
      reads this
    {
      Counters(authSuccess, authFailure, pizzasSold, creationFailures, totalRequests, methods)
    }

    /** The state at process start: every counter zero, no method seen. */
    constructor ()
      ensures Valid()
      ensures authSuccess == authFailure == pizzasSold == creationFailures == 0
      ensures revenue == 0.0 && activeUsers == 0
      ensures totalRequests == 0 && methods == map[]
    {
      authSuccess, authFailure := 0, 0;
      pizzasSold, creationFailures, revenue := 0, 0, 0.0;
      activeUsers := 0;
      totalRequests, methods := 0, map[];
    }

    method RecordAuthSuccess() returns (sent: Metric)
      requires Valid()
      modifies this
      ensures Valid()
      ensures authSuccess == old(authSuccess) + 1
      ensures Snapshot() == old(Snapshot()).(authSuccess := authSuccess)
      ensures revenue == old(revenue) && activeUsers == old(activeUsers)
      ensures Dominates(Snapshot(), old(Snapshot()))
      ensures sent == Metric("auth_success", CountValue(authSuccess), Sum, "attempts")
    {
      authSuccess := authSuccess + 1;
      sent := Metric("auth_success", CountValue(authSuccess), Sum, "attempts");
    }

    method RecordAuthFailure() returns (sent: Metric)
      requires Valid()
      modifies this
      ensures Valid()
      ensures authFailure == old(authFailure) + 1
      ensures Snapshot() == old(Snapshot()).(authFailure := authFailure)
      ensures revenue == old(revenue) && activeUsers == old(activeUsers)
      ensures Dominates(Snapshot(), old(Snapshot()))
      ensures sent == Metric("auth_failure", CountValue(authFailure), Sum, "attempts")
    {
      authFailure := authFailure + 1;
      sent := Metric("auth_failure", CountValue(authFailure), Sum, "attempts");
    }

    /** Records one sale at `price` and returns the updated revenue and
        number of pizzas sold. */
    method RecordPizzaSale(price: real) returns (totalRevenue: real, sold: nat)
      requires Valid()
      modifies this
      ensures Valid()
      ensures pizzasSold == old(pizzasSold) + 1 && revenue == old(revenue) + price
      ensures Snapshot() == old(Snapshot()).(pizzasSold := pizzasSold)
      ensures activeUsers == old(activeUsers)
      ensures Dominates(Snapshot(), old(Snapshot()))
      ensures totalRevenue == revenue && sold == pizzasSold
    {
      pizzasSold := pizzasSold + 1;
      revenue := revenue + price;
      return revenue, pizzasSold;
    }

    /** Records one failed creation and returns the count from before it. */
    method RecordPizzaFailure() returns (previous: nat)
      requires Valid()
      modifies this
      ensures Valid()
      ensures previous == old(creationFailures) && creationFailures == previous + 1
      ensures Snapshot() == old(Snapshot()).(creationFailures := creationFailures)
      ensures revenue == old(revenue) && activeUsers == old(activeUsers)
      ensures Dominates(Snapshot(), old(Snapshot()))
    {
      previous := creationFailures;
      creationFailures := creationFailures + 1;
    }

    method RecordUserLogin() returns (sent: Metric)
      requires Valid()
      modifies this
      ensures Valid()
      ensures activeUsers == old(activeUsers) + 1
      ensures Snapshot() == old(Snapshot()) && revenue == old(revenue)
      ensures sent == Metric("active_users", CountValue(activeUsers), Gauge, "users")
    {
      activeUsers := activeUsers + 1;
      sent := Metric("active_users", CountValue(activeUsers), Gauge, "users");
    }

    /** Decrements the gauge, never below zero: one logout step of `ActiveAfter`. */
    method RecordUserLogout() returns (sent: Metric)
      requires Valid()
      modifies this
      ensures Valid()
      ensures activeUsers == ActiveAfter(old(activeUsers), [false])
      ensures Snapshot() == old(Snapshot()) && revenue == old(revenue)
      ensures sent == Metric("active_users", CountValue(activeUsers), Gauge, "users")
    {
      activeUsers := if 0 > activeUsers - 1 then 0 else activeUsers - 1;
      sent := Metric("active_users", CountValue(activeUsers), Gauge, "users");
    }

    /** The counting done when a request starts: the total and the
        request's method count each go up by one. */
    method TrackRequest(verb: string)
      requires Valid()
      modifies this
      ensures Valid()
      ensures totalRequests == old(totalRequests) + 1
      ensures methods == CountRequest(old(methods), verb)
      ensures Snapshot() == old(Snapshot()).(totalRequests := totalRequests, methods := methods)
      ensures revenue == old(revenue) && activeUsers == old(activeUsers)
      ensures Dominates(Snapshot(), old(Snapshot()))
    {
      totalRequests := totalRequests + 1;
      methods := CountRequest(methods, verb);
    }
  }
}
