/** The host resource sampler: CPU usage from per-core tick counters,
    measured against a baseline kept between calls, and a stateless
    memory percentage. Host queries are parameters. */
module ResourceSampler {
  import opened Telemetry

  /** The tick counters of one core, one per time category reported by
      the host (user, nice, sys, idle, irq). */
  datatype CoreTimes = CoreTimes(user: nat, nice: nat, sys: nat, idle: nat, irq: nat)

  /** The categories of a core in the order they are enumerated. */
  function Categories(c: CoreTimes): (s: seq<nat>)
    ensures |s| == 5 && c.idle in s
  {
    [c.user, c.nice, c.sys, c.idle, c.irq]
  }

  function SeqSum(s: seq<int>): int
  {
    if s == [] then 0 else SeqSum(s[..|s| - 1]) + s[|s| - 1]
  }

  /** Every category of every core, added up. */
  function TotalTicks(cores: seq<CoreTimes>): int
  {
    if cores == [] then 0
    else TotalTicks(cores[..|cores| - 1]) + SeqSum(Categories(cores[|cores| - 1]))
  }

  /** The idle category of every core, added up. */
  function IdleTicks(cores: seq<CoreTimes>): int
  {
    if cores == [] then 0
    else IdleTicks(cores[..|cores| - 1]) + cores[|cores| - 1].idle
  }

  lemma CoreSum(c: CoreTimes)
    ensures SeqSum(Categories(c)) == c.user + c.nice + c.sys + c.idle + c.irq
  {
    var s := Categories(c);
    assert SeqSum([c.user]) == c.user by { assert [c.user][..0] == []; }
    assert SeqSum([c.user, c.nice]) == c.user + c.nice by {
      assert [c.user, c.nice][..1] == [c.user];
    }
    assert SeqSum([c.user, c.nice, c.sys]) == c.user + c.nice + c.sys by {
      assert [c.user, c.nice, c.sys][..2] == [c.user, c.nice];
    }
    assert SeqSum([c.user, c.nice, c.sys, c.idle]) == c.user + c.nice + c.sys + c.idle by {
      assert [c.user, c.nice, c.sys, c.idle][..3] == [c.user, c.nice, c.sys];
    }
    assert s[..4] == [c.user, c.nice, c.sys, c.idle];
  }

  lemma {:induction false} CoreIdleWithinTotal(c: CoreTimes)
    ensures 0 <= c.idle <= SeqSum(Categories(c))
  {
    CoreSum(c);
  }

  /** Since no category is negative, idle time never exceeds total time. */
  lemma {:induction false} IdleWithinTotal(cores: seq<CoreTimes>)
    ensures 0 <= IdleTicks(cores) <= TotalTicks(cores)
  {
    if cores != [] {
      IdleWithinTotal(cores[..|cores| - 1]);
      CoreIdleWithinTotal(cores[|cores| - 1]);
    }
  }

  /** A core whose counters have all advanced (or stayed) since `before`. */
  predicate Advanced(before: CoreTimes, after: CoreTimes)
  {
    before.user <= after.user && before.nice <= after.nice && before.sys <= after.sys &&
    before.idle <= after.idle && before.irq <= after.irq
  }

  lemma {:induction false} CoreDeltaBounds(before: CoreTimes, after: CoreTimes)
    requires Advanced(before, after)
    ensures 0 <= after.idle - before.idle <= SeqSum(Categories(after)) - SeqSum(Categories(before))
  {
    CoreSum(before);
    CoreSum(after);
  }

  /** When every counter of every core has advanced between two readings,
      the idle delta lies between zero and the total delta. */
  lemma {:induction false} DeltaBounds(before: seq<CoreTimes>, after: seq<CoreTimes>)
    requires |before| == |after|
    requires forall i :: 0 <= i < |before| ==> Advanced(before[i], after[i])
    ensures 0 <= IdleTicks(after) - IdleTicks(before) <= TotalTicks(after) - TotalTicks(before)
  {
    if before != [] {
      var n := |before| - 1;
      DeltaBounds(before[..n], after[..n]);
      CoreDeltaBounds(before[n], after[n]);
    }
  }

  /** Usage from the idle and total deltas: `(1 - idleDiff / totalDiff) * 100`.
      A zero total delta divides by zero and yields a non-finite number. */
  function UsageFromDeltas(idleDiff: int, totalDiff: int): (r: Double)
    ensures r.NotFinite? <==> totalDiff == 0
    ensures totalDiff != 0 && idleDiff == 0 ==> r == Finite(100.0)
    ensures totalDiff != 0 && idleDiff == totalDiff ==> r == Finite(0.0)
    ensures 0 <= idleDiff <= totalDiff && 0 < totalDiff ==> r.Finite? && 0.0 <= r.value <= 100.0
  {
    if totalDiff == 0 then NotFinite
    else
      var ratio := idleDiff as real / totalDiff as real;
      assert 0 <= idleDiff <= totalDiff ==> 0.0 <= ratio <= 1.0;
      Finite((1.0 - ratio) * 100.0)
  }

  /** The stored raw totals of the previous reading. */
  datatype Baseline = Baseline(total: int, idle: int)

  /** The CPU sampler and the baseline it keeps between calls. */
  class CpuSampler {
    var baseline: Option<Baseline>

    constructor ()
      ensures baseline == None
    {
      baseline := None;
    }

    /** No usable baseline: none stored yet, or the stored total is zero
        (a falsy value). */
    predicate NoBaseline()
      reads this
    {
      baseline.None? || baseline.value.total == 0
    }

    /** Adds up the tick counters of all cores, category by category. */
    static method SumTimes(cores: seq<CoreTimes>) returns (totalTick: int, totalIdle: int)
      ensures totalTick == TotalTicks(cores) && totalIdle == IdleTicks(cores)
      ensures 0 <= totalIdle <= totalTick
    {
      totalIdle, totalTick := 0, 0;
      for i := 0 to |cores|
        invariant totalTick == TotalTicks(cores[..i])
        invariant totalIdle == IdleTicks(cores[..i])
      {
        var times := Categories(cores[i]);
        for j := 0 to |times|
          invariant totalTick == TotalTicks(cores[..i]) + SeqSum(times[..j])
        {
          assert times[..j + 1][..j] == times[..j];
          totalTick := totalTick + times[j];
        }
        assert times[..|times|] == times;
        totalIdle := totalIdle + cores[i].idle;
        assert cores[..i + 1][..i] == cores[..i];
      }
      assert cores[..|cores|] == cores;
      IdleWithinTotal(cores);
    }

    /** Takes one CPU reading. Without a usable baseline it stores the
        current totals and reports 0; otherwise it reports the usage over
        the interval since the baseline and replaces the baseline by the
        current raw totals. */
    method Sample(cores: seq<CoreTimes>) returns (usage: Double)
      modifies this
      ensures baseline == Some(Baseline(TotalTicks(cores), IdleTicks(cores)))
      ensures old(NoBaseline()) ==> usage == Finite(0.0)
      ensures !old(NoBaseline()) ==>
        usage == UsageFromDeltas(IdleTicks(cores) - old(baseline.value.idle),
                                 TotalTicks(cores) - old(baseline.value.total))
    {
      var totalTick, totalIdle := SumTimes(cores);
      if NoBaseline() {
        baseline := Some(Baseline(totalTick, totalIdle));
        return Finite(0.0);
      }
      var totalDiff := totalTick - baseline.value.total;
      var idleDiff := totalIdle - baseline.value.idle;
      baseline := Some(Baseline(totalTick, totalIdle));
      usage := UsageFromDeltas(idleDiff, totalDiff);
    }
  }

  /** Memory usage: the used share of total memory, in percent. */
  function MemoryUsagePercentage(totalMemory: nat, freeMemory: nat): (r: real)
    requires totalMemory > 0
    ensures freeMemory <= totalMemory ==> 0.0 <= r <= 100.0
    ensures freeMemory == totalMemory <==> r == 0.0
    ensures freeMemory == 0 <==> r == 100.0
  {
    var usedMemory := totalMemory - freeMemory;
    var share := usedMemory as real / totalMemory as real;
    assert share * totalMemory as real == usedMemory as real;
    share * 100.0
  }

  /** More free memory never means a higher usage figure. */
  lemma MemoryUsageAntitone(totalMemory: nat, free1: nat, free2: nat)
    requires totalMemory > 0 && free1 <= free2
    ensures MemoryUsagePercentage(totalMemory, free2) <= MemoryUsagePercentage(totalMemory, free1)
  {
    var t := totalMemory as real;
    var u1, u2 := (totalMemory - free1) as real, (totalMemory - free2) as real;
    assert u2 <= u1;
    assert u2 / t <= u1 / t;
  }
}
