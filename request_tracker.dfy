/** What the request hook exports once a response has finished: the
    request counters read from the registry at that moment, the latency,
    and the pizza-creation latency for pizza-creating requests. */
module RequestTracker {
  import opened Telemetry
  import opened MetricRegistry

  /** `pattern` occurs in `s` starting at index `i`. */
  ghost predicate OccursAt(s: string, pattern: string, i: int)
  {
    0 <= i <= |s| - |pattern| && s[i..i + |pattern|] == pattern
  }

  /** Whether `pattern` occurs in `s` as a contiguous substring. */
  function Includes(s: string, pattern: string): (r: bool)
    ensures r <==> exists i :: OccursAt(s, pattern, i)
    decreases |s|
  {
    if |s| < |pattern| then false
    else if s[..|pattern|] == pattern then assert OccursAt(s, pattern, 0); true
    else
      var r := Includes(s[1..], pattern);
      assert r ==> exists i :: OccursAt(s, pattern, i) by {
        if r {
          var j :| OccursAt(s[1..], pattern, j);
          assert s[j + 1..j + 1 + |pattern|] == s[1..][j..j + |pattern|];
          assert OccursAt(s, pattern, j + 1);
        }
      }
      assert (exists i :: OccursAt(s, pattern, i)) ==> r by {
        if i :| OccursAt(s, pattern, i) {
          assert i != 0;
          assert s[1..][i - 1..i - 1 + |pattern|] == s[i..i + |pattern|];
          assert OccursAt(s[1..], pattern, i - 1);
        }
      }
      r
  }

  /** A request whose completion also reports pizza-creation latency. */
  predicate IsPizzaCreation(verb: string, url: string)
  {
    Includes(url, "/pizza") && verb == "POST"
  }

  /** The metric names of the method counts, in step with `TrackedMethods`. */
  const TrackedMetricNames: seq<string> :=
    ["http_requests_get", "http_requests_post", "http_requests_put", "http_requests_delete"]

  /** The metrics exported, in order, when a request with `verb` and `url`
      finishes after `durationMs`, given the registry's request counters at
      that moment. */
  function RequestExports(verb: string, url: string, totalRequests: nat,
                          methods: map<string, nat>, durationMs: real): (r: seq<Metric>)
    ensures |r| == 6 || |r| == 7
    ensures |r| == 7 <==> IsPizzaCreation(verb, url)
    ensures r[0] == Metric("http_requests_total", CountValue(totalRequests), Sum, "1")
    ensures forall k :: 1 <= k <= 4 ==>
      r[k] == Metric(TrackedMetricNames[k - 1],
                     CountValue(Count(methods, TrackedMethods[k - 1])), Sum, "1")
    ensures forall k :: 1 <= k <= 4 && TrackedMethods[k - 1] !in methods ==> r[k].value == Finite(0.0)
    ensures r[5] == Metric("request_latency", Finite(durationMs), Gauge, "ms")
    ensures |r| == 7 ==> r[6] == Metric("pizza_creation_latency", Finite(durationMs), Gauge, "ms")
  {
    var counters := [
      Metric("http_requests_total", CountValue(totalRequests), Sum, "1"),
      Metric("http_requests_get", CountValue(Count(methods, "GET")), Sum, "1"),
      Metric("http_requests_post", CountValue(Count(methods, "POST")), Sum, "1"),
      Metric("http_requests_put", CountValue(Count(methods, "PUT")), Sum, "1"),
      Metric("http_requests_delete", CountValue(Count(methods, "DELETE")), Sum, "1")
    ];
    var latency := [Metric("request_latency", Finite(durationMs), Gauge, "ms")];
    if IsPizzaCreation(verb, url) then
      counters + latency + [Metric("pizza_creation_latency", Finite(durationMs), Gauge, "ms")]
    else
      counters + latency
  }

  /** Exported from a consistent registry, the four per-method counts
      together never exceed the exported total. */
  lemma ExportedCountsWithinTotal(verb: string, url: string, totalRequests: nat,
                                  methods: map<string, nat>, durationMs: real)
    requires totalRequests == SumCounts(methods)
    ensures var r := RequestExports(verb, url, totalRequests, methods, durationMs);
      r[1].value.value + r[2].value.value + r[3].value.value + r[4].value.value
        <= r[0].value.value
  {
    TrackedWithinSum(methods);
  }

  /** The counters come first and the gauges last: every export before
      index 5 is a counter, every export from index 5 on is a gauge in
      milliseconds, and the list does not depend on the method or URL
      except for its optional last element. */
  lemma ExportsShape(verb: string, url: string, verb': string, url': string,
                     totalRequests: nat, methods: map<string, nat>, durationMs: real)
    ensures var r := RequestExports(verb, url, totalRequests, methods, durationMs);
      var r' := RequestExports(verb', url', totalRequests, methods, durationMs);
      (forall k :: 0 <= k < |r| ==> (r[k].kind == Sum <==> k < 5)) &&
      (forall k :: 5 <= k < |r| ==> r[k].unit == "ms") &&
      r[..6] == r'[..6]
  {
  }
}
