# Telemetry registry of the JWT Pizza service

This project models the in-process telemetry of the pizza service
(`src/metrics.js`) and proves properties of the model in Dafny. The telemetry has five parts:

- **Resource sampler** (`ResourceSampler`). CPU usage comes from the per-core tick counters, measured against a baseline
  kept between calls (`CpuSampler`). Memory usage is a stateless percentage.
- **Metric registry** (`MetricRegistry.Registry`). It holds the auth, sale, failure and revenue counters, the active-user gauge,
  and the request total with its per-method counts. Each event recorder updates them and returns
  what the source hands back or exports.
- **Request tracker** (`Registry.TrackRequest` and `RequestTracker.RequestExports`). It counts a request when it starts.
  When the request finishes, it returns the ordered list of metrics exported, built from the registry's counters at that moment.
- **Exporter payload** (`Exporter.BuildEnvelope`). This is the OpenTelemetry metrics export request in its OTLP/HTTP JSON shape:
  one resource carrying `service.name`, one scope, one metric under its `sum` or `gauge` key, and one data point.
  A `sum` also carries the cumulative aggregation temporality and `isMonotonic`.
- **One timer tick** (`Scheduler.Tick`). It samples, runs the simulated business events and returns the metrics exported, in order.

Every exporter call is modelled as a `Telemetry.Metric` value: name, value, kind and unit.
A value is a `Double`: either a finite real or `NotFinite`. `NotFinite` stands for JavaScript's NaN and ±Infinity.
Host readings, clock readings and random draws are parameters:
- the per-core tick counters;
- total and free memory;
- the request duration;
- the current time in milliseconds;
- the login/logout and auth coin flips;
- the simulated latencies.

Three behaviours of the code are reproduced as written:
- With a zero tick delta between two CPU samples, the code divides by zero. It reports a non-finite value, not 0
  (`UsageFromDeltas` returns `NotFinite`).
- The pizza-creation latency is exported when the URL contains `/pizza` and the method is `POST`.
  This is a substring test on the URL, not a route match. The order-creation request the tests send is
  `POST /api/order` (src/routes/orderRouter.test.js:41), and that URL does not contain `/pizza`.
- The tick exports the sale price under `revenue` and the running total under `revenue_total`.
  It exports the pre-increment failure count under `pizza_failed`. Both are reproduced as written.

## Model

| member | source | states |
|---|---|---|
| ResourceSampler.CpuSampler.SumTimes | src/metrics.js:10-16 | the nested loops add every category of every core into the total and the idle category into the idle sum; the result satisfies 0 <= idle <= total |
| ResourceSampler.IdleWithinTotal | src/metrics.js:10-16 | the summed idle ticks are never negative and never exceed the summed total ticks |
| ResourceSampler.DeltaBounds | src/metrics.js:24-25 | the CPU readings are taken from the same cores. If no counter went backwards, the idle delta lies between 0 and the total delta |
| ResourceSampler.UsageFromDeltas | src/metrics.js:24-31 | the usage is non-finite exactly when the total delta is 0. All idle gives 0, no idle gives 100, and with 0 <= idle delta <= total delta the usage lies in [0, 100] |
| ResourceSampler.CpuSampler.constructor | src/metrics.js:18-22 | the sampler starts with no baseline |
| ResourceSampler.CpuSampler.Sample | src/metrics.js:7-32 | without a usable baseline (absent, or a stored total of 0), the call returns 0. Otherwise it returns the usage from the deltas against the old baseline. Either way, the baseline becomes the current raw totals |
| ResourceSampler.MemoryUsagePercentage | src/metrics.js:35-39 | for total memory > 0: the usage lies in [0, 100] when free <= total. It is 0 exactly when everything is free and 100 exactly when nothing is free |
| ResourceSampler.MemoryUsageAntitone | src/metrics.js:35-39 | more free memory never gives a higher usage |
| MetricRegistry.Registry.constructor | src/metrics.js:41-105 | at process start every counter, the revenue and the gauge are 0 and no method has been seen |
| MetricRegistry.Registry.RecordAuthSuccess | src/metrics.js:44-47 | auth_success goes up by one and nothing else changes. It exports the new count as a sum in attempts |
| MetricRegistry.Registry.RecordAuthFailure | src/metrics.js:49-52 | auth_failure goes up by one and nothing else changes. It exports the new count as a sum in attempts |
| MetricRegistry.Registry.RecordPizzaSale | src/metrics.js:59-64 | pizzasSold goes up by one and revenue by the price. It returns the updated revenue and count |
| MetricRegistry.Registry.RecordPizzaFailure | src/metrics.js:66-69 | it returns the failure count from before the call and leaves the count one higher |
| MetricRegistry.Registry.RecordUserLogin | src/metrics.js:107-110 | the gauge goes up by exactly one and is exported |
| MetricRegistry.Registry.RecordUserLogout | src/metrics.js:112-115 | the gauge takes one logout step of `ActiveAfter` (down by one, floored at 0) and is exported. The gauge stays non-negative |
| MetricRegistry.Registry.TrackRequest | src/metrics.js:76-78 | the total and the request method's count each go up by one (a missing count is read as 0). The total stays equal to the sum of the method counts, and no counter decreases |
| MetricRegistry.CountRequest | src/metrics.js:78 | only the request's method count changes, and it goes up by one from its old value (0 if missing). The sum of all counts goes up by exactly one |
| MetricRegistry.SumCountsSplit | src/metrics.js:71-78 | the sum of the method counts splits into any one method's count plus the sum of the others |
| MetricRegistry.ReplayCounts | src/metrics.js:71-78 | after any run of requests from an empty map, each method's count is its number of occurrences, and the counts add up to the number of requests |
| MetricRegistry.TrackedWithinSum | src/metrics.js:91-94 | the GET, POST, PUT and DELETE counts together never exceed the sum of all counts |
| MetricRegistry.ActiveAfterBounds | src/metrics.js:105-115 | after any login/logout run from 0, the gauge is non-negative and at most the number of logins. It is at least the number of logins minus the number of logouts |
| RequestTracker.Includes | src/metrics.js:98 | the substring test is true exactly when the pattern occurs at some index of the URL |
| RequestTracker.RequestExports | src/metrics.js:83-101 | the finished request exports, in order, the total, then GET, POST, PUT and DELETE counts as sums (0 for a method never seen), then `request_latency`. `pizza_creation_latency` is appended if and only if the URL contains `/pizza` and the method is POST |
| RequestTracker.ExportedCountsWithinTotal | src/metrics.js:90-94 | exported from a consistent registry, the four method counts add up to at most the exported total |
| RequestTracker.ExportsShape | src/metrics.js:90-100 | the five counters come before the millisecond gauges. The first six exports are the same for every method and URL |
| Exporter.BuildEnvelope | src/metrics.js:162-198 | one resource, scope, metric and data point. `service.name` is the source. The data is keyed by the kind, with `asDouble` the value and `timeUnixNano` the time in ms times 1,000,000. The cumulative temporality and `isMonotonic = true` are present if and only if the kind is sum |
| Exporter.ReadBuiltEnvelope | src/metrics.js:164-198 | reading a built payload back gives the metric, the source and the nanosecond time |
| Exporter.BuildEnvelopeInjective | src/metrics.js:176-182 | for one source, different metrics or different times always give different payloads |
| Scheduler.SimulateEvents | src/metrics.js:121-135 | a tick records one sale at 50 and one failure. It records a login or a logout, and an auth success or failure. The counters move accordingly and none decreases |
| Scheduler.Tick | src/metrics.js:118-154 | one tick exports these ten metrics, in order: active_users, the auth counter, cpu_usage from the sampler, memory_usage, pizza_sold, the price as `revenue`, the pre-increment failure count as `pizza_failed`, `revenue_total`, and the two simulated latencies. The sampler's baseline and the registry move as stated |
| Scenarios.FreshSalesAndFailures | src/metrics.js:59-68 | from process start, two sales at 10 return revenue 20 and 2 pizzas sold. Two failures return 0 and then 1 |
| Scenarios.FreshFailureRun | src/metrics.js:66-68 | from process start, successive failure recordings return 0, 1, 2, ... |
| Scenarios.FreshRequests | src/metrics.js:71-78 | from process start, after N requests the total is N, each method's count is its number of occurrences, and the counts sum to N |
| Scenarios.FreshLoginLogout | src/metrics.js:105-115 | from process start, any login/logout run leaves the gauge between 0 and the number of logins |
| Scenarios.FreshGetCompletion | src/metrics.js:76-101 | a first request, a GET taking 42 ms, exports total 1, GET 1, POST, PUT and DELETE 0, and latency 42, and nothing else |
| Scenarios.FreshPizzaPostCompletion | src/metrics.js:76-101 | a first request, a POST to a pizza URL, exports exactly total 1, GET 0, POST 1, PUT 0, DELETE 0, the latency, and then the pizza-creation latency equal to the same duration |
| Scenarios.FreshSamplerTwice | src/metrics.js:7-32 | a fresh sampler's first reading is 0. A second reading of the same cores, with no counter gone backwards and some ticks elapsed, is a finite percentage in [0, 100] |

## Left out

- The HTTP post of the payload (src/metrics.js:200-209), with its bearer token, URL and caught-and-logged failures: network I/O. The model stops at the payload.
- The readiness probe `fetch` (src/metrics.js:123) and the test metric sent at load (src/metrics.js:157-159): I/O whose outcome is ignored.
- Console logging throughout: output only.
- The `setInterval` timer and its `Math.random` draws (src/metrics.js:118, 124, 129, 145-146). One firing is `Scheduler.Tick`, with the draws as parameters.
- Interleaving at the `await` points. Exports suspend, and other request completions or ticks can then touch the registry. The model runs a tick to completion without interruption.
- `toFixed(2)` and `parseFloat`. The source's CPU, memory and latency values become two-decimal strings that the exporter parses back. The model keeps the exact real value and does not round.
- Floating point: revenue, percentages and durations are reals.
- `timeUnixNano`: the model keeps the exact integer `nowMs * 1_000_000`. In JavaScript the product is a double above 2^53 and is rounded.
- The host queries `os.cpus()`, `os.totalmem()`, `os.freemem()`, and the clocks `process.hrtime` and `Date.now()`: these are parameters.
- ResourceSampler.MemoryUsagePercentage: requires total memory > 0, which the host always reports. With 0 the source would produce NaN.
- MetricRegistry.Dominates: revenue is not among the counters that never decrease, because `RecordPizzaSale` adds any price, including a negative one.
- Method names that collide with properties of a plain JavaScript object (such as `__proto__`) behave differently in the source's per-method dictionary. The model uses a plain map from strings.
- `src/service.js` mounts a `requestTracker` imported from `src/metrics2.js`, not the one in `src/metrics.js`. `src/metrics2.js` is not part of this model.
- Express wiring in `src/service.js` and the HTTP route tests: they hold no telemetry logic.
