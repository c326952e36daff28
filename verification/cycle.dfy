/** One collection cycle of `main` in collector/collector.py: the enabled filter
    of `load_services`, the worker count, the evaluation of every service with
    the streak counters threaded from one evaluation to the next, and the
    ok/warn/crit summary. The services are evaluated in list order; the thread
    pool's completion order is not modelled. */
module Cycle {
  import opened Base
  import opened Values
  import opened Checks
  import opened Dispatch
  import opened Hysteresis
  import opened ServiceRun

  predicate IsEnabled(service: Service) {
    Enabled(service.fields)
  }

  /** The list comprehension of `load_services`. */
  function EnabledServices(services: seq<Service>): (r: seq<Service>)
    ensures |r| <= |services|
    ensures forall x :: x in r <==> x in services && IsEnabled(x)
  {
    if services == [] then []
    else (if IsEnabled(services[0]) then [services[0]] else []) + EnabledServices(services[1..])
  }

  /** The filter keeps every enabled service as often as the list holds it, and
      drops every other one. */
  lemma {:induction false} EnabledServicesMultiplicity(services: seq<Service>, x: Service)
    ensures multiset(EnabledServices(services))[x] == if IsEnabled(x) then multiset(services)[x] else 0
    decreases |services|
  {
    if services != [] {
      EnabledServicesMultiplicity(services[1..], x);
      assert services == [services[0]] + services[1..];
    }
  }

  /** The filter works entry by entry, so it keeps the services in list order:
      filtering a concatenation concatenates the filtered parts. */
  lemma {:induction false} EnabledServicesAppend(a: seq<Service>, b: seq<Service>)
    ensures EnabledServices(a + b) == EnabledServices(a) + EnabledServices(b)
    decreases |a|
  {
    if a == [] {
      assert a + b == b;
    } else {
      assert (a + b)[1..] == a[1..] + b;
      EnabledServicesAppend(a[1..], b);
    }
  }

  /** A service without an `enabled` field is enabled. */
  lemma EnabledByDefault(services: seq<Service>, i: nat)
    requires i < |services| && "enabled" !in services[i].fields
    ensures services[i] in EnabledServices(services)
  {
  }

  /** `min(max_workers, len(services) or 1)`. */
  function WorkerCount(maxWorkers: int, n: nat): (w: int)
    ensures w <= maxWorkers && w <= (if n == 0 then 1 else n)
    ensures w == maxWorkers || w == (if n == 0 then 1 else n)
  {
    var wanted := if n == 0 then 1 else n;
    if maxWorkers < wanted then maxWorkers else wanted
  }

  /** The pool is never empty when `max_workers` is positive, even for an empty
      service list, and never larger than the list when there is one. */
  lemma WorkerCountBounds(maxWorkers: int, n: nat)
    requires maxWorkers >= 1
    ensures 1 <= WorkerCount(maxWorkers, n)
    ensures n > 0 ==> WorkerCount(maxWorkers, n) <= n
  {
  }

  /** The service ids of a list of services. */
  function ServiceIds(services: seq<Service>): set<Value> {
    set i | 0 <= i < |services| :: Get(services[i].fields, "service_id")
  }

  /** The ids of all but the last service, and the last one's, are ids of the list. */
  lemma ServiceIdsOfFront(services: seq<Service>)
    requires services != []
    ensures ServiceIds(services[..|services| - 1]) <= ServiceIds(services)
    ensures Get(services[|services| - 1].fields, "service_id") in ServiceIds(services)
  {
    var front := services[..|services| - 1];
    forall x | x in ServiceIds(front)
      ensures x in ServiceIds(services)
    {
      var i :| 0 <= i < |front| && Get(front[i].fields, "service_id") == x;
      assert front[i] == services[i];
    }
  }

  /** The services of the list with the given fate, in list order. */
  function WithFate(ctx: Context, services: seq<Service>, fate: Fate): (r: seq<Service>)
    ensures |r| <= |services|
    decreases |services|
  {
    if services == [] then []
    else
      var n := |services| - 1;
      WithFate(ctx, services[..n], fate) + (if FateOf(ctx, services[n]) == fate then [services[n]] else [])
  }

  /** The last service of the list adds itself to the services of its own fate
      and to no other. */
  lemma FatesOfFront(ctx: Context, services: seq<Service>)
    requires services != []
    ensures var n := |services| - 1;
            forall fate :: WithFate(ctx, services, fate)
                             == WithFate(ctx, services[..n], fate) + (if FateOf(ctx, services[n]) == fate then [services[n]] else [])
  {
  }

  /** The measurements of a cycle, how many services were skipped and how many
      raised, and the counters left for the next cycle. */
  datatype CycleResult = CycleResult(measurements: seq<Measurement>, skipped: nat, failed: nat, streaks: Streaks)

  /** Every service of the list evaluated once, the last one last. */
  function RunCycle(ctx: Context, s: Streaks, services: seq<Service>): (r: CycleResult)
    ensures |r.measurements| + r.skipped + r.failed == |services|
    ensures forall j :: 0 <= j < |r.measurements| ==> r.measurements[j].targetId in ServiceIds(services)
    ensures forall k :: k !in ServiceIds(services) ==>
              FailCount(r.streaks, k) == FailCount(s, k) && OkCount(r.streaks, k) == OkCount(s, k)
    decreases |services|
  {
    if services == [] then CycleResult([], 0, 0, s)
    else
      var last := services[|services| - 1];
      var front := services[..|services| - 1];
      ServiceIdsOfFront(services);
      var prev := RunCycle(ctx, s, front);
      var step := RunOneService(ctx, prev.streaks, last);
      match step.outcome
      case Skipped(_) => CycleResult(prev.measurements, prev.skipped + 1, prev.failed, step.streaks)
      case WorkerFailed => CycleResult(prev.measurements, prev.skipped, prev.failed + 1, step.streaks)
      case Measured(m) =>
        MeasurementIsStamped(ctx, prev.streaks, last);
        CycleResult(prev.measurements + [m], prev.skipped, prev.failed, step.streaks)
  }

  /** A cycle skips exactly the services whose fate is to be skipped and
      counts a failure for exactly those that raise, whatever the streak
      counters were. */
  lemma {:induction false} CycleCountsFollowFates(ctx: Context, s: Streaks, services: seq<Service>)
    ensures RunCycle(ctx, s, services).skipped == |WithFate(ctx, services, Skip)|
    ensures RunCycle(ctx, s, services).failed == |WithFate(ctx, services, Fail)|
    decreases |services|
  {
    if services != [] {
      var n := |services| - 1;
      CycleCountsFollowFates(ctx, s, services[..n]);
      FatesOfFront(ctx, services);
    }
  }

  /** Measurement `j` belongs to service `j`: it carries that service's id, host
      id and check kind. */
  ghost predicate StampedBy(ms: seq<Measurement>, services: seq<Service>) {
    && |ms| == |services|
    && forall j :: 0 <= j < |ms| ==>
         && ms[j].targetId == Get(services[j].fields, "service_id")
         && ms[j].hostId == Get(services[j].fields, "host_id")
         && ms[j].kind == Get(services[j].fields, "type")
  }

  lemma StampedByAppend(ms: seq<Measurement>, services: seq<Service>, m: Measurement, service: Service)
    requires StampedBy(ms, services)
    requires m.targetId == Get(service.fields, "service_id")
    requires m.hostId == Get(service.fields, "host_id") && m.kind == Get(service.fields, "type")
    ensures StampedBy(ms + [m], services + [service])
  {
  }

  /** A cycle measures exactly the services whose fate is to be measured, one
      measurement each and in list order, each carrying its service's ids and
      check kind. */
  lemma {:induction false} CycleMeasuresFollowFates(ctx: Context, s: Streaks, services: seq<Service>)
    ensures StampedBy(RunCycle(ctx, s, services).measurements, WithFate(ctx, services, Measure))
    decreases |services|
  {
    if services != [] {
      var n := |services| - 1;
      var front, last := services[..n], services[n];
      CycleMeasuresFollowFates(ctx, s, front);
      FatesOfFront(ctx, services);
      var prev := RunCycle(ctx, s, front);
      var step := RunOneService(ctx, prev.streaks, last);
      if step.outcome.Measured? {
        MeasurementIsStamped(ctx, prev.streaks, last);
        StampedByAppend(prev.measurements, WithFate(ctx, front, Measure), step.outcome.m, last);
      }
    }
  }

  /** No two services of the list share a service id. */
  ghost predicate ServiceIdsDistinct(services: seq<Service>) {
    forall i, j :: 0 <= i < j < |services| ==>
      Get(services[i].fields, "service_id") != Get(services[j].fields, "service_id")
  }

  /** The services of a list with distinct ids, but the last, still have
      distinct ids, none of them the last one's. */
  lemma DistinctFront(services: seq<Service>)
    requires services != [] && ServiceIdsDistinct(services)
    ensures var n := |services| - 1;
            && ServiceIdsDistinct(services[..n])
            && Get(services[n].fields, "service_id") !in ServiceIds(services[..n])
            && ServiceIds(services) == ServiceIds(services[..n]) + {Get(services[n].fields, "service_id")}
  {
    var n := |services| - 1;
    var front := services[..n];
    forall i | 0 <= i < n
      ensures Get(front[i].fields, "service_id") != Get(services[n].fields, "service_id")
    {
      assert front[i] == services[i];
    }
    forall x | x in ServiceIds(services)
      ensures x in ServiceIds(front) + {Get(services[n].fields, "service_id")}
    {
      var i :| 0 <= i < |services| && Get(services[i].fields, "service_id") == x;
      if i < n {
        assert front[i] == services[i];
      }
    }
    ServiceIdsOfFront(services);
  }

  /** The counters `streaks` give each service of `measured` the counters its
      own evaluation from `s` leaves it, and every other service id its counters
      from `s`. */
  ghost predicate KeepsCounters(ctx: Context, s: Streaks, streaks: Streaks, measured: seq<Service>) {
    && (forall j :: 0 <= j < |measured| ==>
          SameCounters(streaks, RunOneService(ctx, s, measured[j]).streaks, Get(measured[j].fields, "service_id")))
    && (forall k :: k !in ServiceIds(measured) ==> SameCounters(streaks, s, k))
  }

  /** `ms` holds, for each service of `measured` in order, the measurement its
      own evaluation from the counters `s` gives. */
  ghost predicate ReportsMeasurements(ctx: Context, s: Streaks, ms: seq<Measurement>, measured: seq<Service>) {
    && |ms| == |measured|
    && forall j :: 0 <= j < |measured| ==> RunOneService(ctx, s, measured[j]).outcome == Measured(ms[j])
  }

  lemma KeepsCountersStep(ctx: Context, s: Streaks, streaks: Streaks, measured: seq<Service>, last: Service)
    requires KeepsCounters(ctx, s, streaks, measured)
    requires ServiceIdsDistinct(measured + [last])
    ensures KeepsCounters(ctx, s, RunOneService(ctx, streaks, last).streaks, measured + [last])
  {
    var all := measured + [last];
    var key := Get(last.fields, "service_id");
    var after := RunOneService(ctx, streaks, last).streaks;
    assert all[..|all| - 1] == measured;
    DistinctFront(all);
    EvaluationSeesOwnCounters(ctx, streaks, s, last);
    forall k | k !in ServiceIds(all)
      ensures SameCounters(after, s, k)
    {
      assert k != key && k !in ServiceIds(measured);
      assert SameCounters(after, streaks, k);
    }
    forall j | 0 <= j < |all|
      ensures SameCounters(after, RunOneService(ctx, s, all[j]).streaks, Get(all[j].fields, "service_id"))
    {
      if j < |measured| {
        assert all[j] == measured[j];
        assert Get(measured[j].fields, "service_id") in ServiceIds(measured);
      }
    }
  }

  lemma ReportsMeasurementsStep(ctx: Context, s: Streaks, ms: seq<Measurement>, streaks: Streaks, measured: seq<Service>,
                                last: Service)
    requires ReportsMeasurements(ctx, s, ms, measured)
    requires SameCounters(streaks, s, Get(last.fields, "service_id"))
    requires RunOneService(ctx, streaks, last).outcome.Measured?
    ensures ReportsMeasurements(ctx, s, ms + [RunOneService(ctx, streaks, last).outcome.m], measured + [last])
  {
    EvaluationSeesOwnCounters(ctx, streaks, s, last);
    var all := measured + [last];
    var ms' := ms + [RunOneService(ctx, streaks, last).outcome.m];
    forall j | 0 <= j < |all|
      ensures RunOneService(ctx, s, all[j]).outcome == Measured(ms'[j])
    {
      if j < |measured| {
        assert all[j] == measured[j] && ms'[j] == ms[j];
      }
    }
  }

  /** The measured services of a list with distinct ids, but the last service,
      still have distinct ids. */
  lemma DistinctMeasuredFront(ctx: Context, services: seq<Service>)
    requires services != [] && ServiceIdsDistinct(WithFate(ctx, services, Measure))
    ensures ServiceIdsDistinct(WithFate(ctx, services[..|services| - 1], Measure))
  {
    var n := |services| - 1;
    FatesOfFront(ctx, services);
    if FateOf(ctx, services[n]) == Measure {
      var measured := WithFate(ctx, services, Measure);
      assert measured[..|measured| - 1] == WithFate(ctx, services[..n], Measure);
      DistinctFront(measured);
    } else {
      assert WithFate(ctx, services, Measure) == WithFate(ctx, services[..n], Measure);
    }
  }

  /** When the services the cycle measures have distinct ids, the cycle hands
      the next cycle, for each of them, the counters its own evaluation from the
      cycle's starting counters leaves, and leaves every other service id alone:
      no service's streak is disturbed by another's. */
  lemma {:induction false} CycleKeepsCounters(ctx: Context, s: Streaks, services: seq<Service>)
    requires ServiceIdsDistinct(WithFate(ctx, services, Measure))
    ensures KeepsCounters(ctx, s, RunCycle(ctx, s, services).streaks, WithFate(ctx, services, Measure))
    decreases |services|
  {
    if services != [] {
      var n := |services| - 1;
      var front, last := services[..n], services[n];
      FatesOfFront(ctx, services);
      DistinctMeasuredFront(ctx, services);
      CycleKeepsCounters(ctx, s, front);
      var prev := RunCycle(ctx, s, front);
      var step := RunOneService(ctx, prev.streaks, last);
      assert RunCycle(ctx, s, services).streaks == step.streaks;
      if FateOf(ctx, last) == Measure {
        assert WithFate(ctx, services, Measure) == WithFate(ctx, front, Measure) + [last];
        KeepsCountersStep(ctx, s, prev.streaks, WithFate(ctx, front, Measure), last);
      } else {
        assert WithFate(ctx, services, Measure) == WithFate(ctx, front, Measure);
        assert step.streaks == prev.streaks;
      }
    }
  }

  /** When the services the cycle measures have distinct ids, the cycle reports,
      in list order, exactly the measurement each of them gives when evaluated
      alone from the cycle's starting counters. */
  lemma {:induction false} CycleReportsMeasurements(ctx: Context, s: Streaks, services: seq<Service>)
    requires ServiceIdsDistinct(WithFate(ctx, services, Measure))
    ensures ReportsMeasurements(ctx, s, RunCycle(ctx, s, services).measurements, WithFate(ctx, services, Measure))
    decreases |services|
  {
    if services != [] {
      var n := |services| - 1;
      var front, last := services[..n], services[n];
      FatesOfFront(ctx, services);
      DistinctMeasuredFront(ctx, services);
      CycleReportsMeasurements(ctx, s, front);
      var prev := RunCycle(ctx, s, front);
      if FateOf(ctx, last) == Measure {
        var measured := WithFate(ctx, services, Measure);
        assert measured[..|measured| - 1] == WithFate(ctx, front, Measure);
        DistinctFront(measured);
        CycleKeepsCounters(ctx, s, front);
        assert RunCycle(ctx, s, services).measurements == prev.measurements + [RunOneService(ctx, prev.streaks, last).outcome.m];
        ReportsMeasurementsStep(ctx, s, prev.measurements, prev.streaks, WithFate(ctx, front, Measure), last);
      }
    }
  }

  /** The two-strike rule across cycles: a service whose measurement is
      hard-down in one cycle and again in the next is reported CRIT in the
      second. */
  lemma HardDownTwiceIsCrit(ctx1: Context, ctx2: Context, s: Streaks, services1: seq<Service>, services2: seq<Service>,
                            j1: nat, j2: nat)
    requires ServiceIdsDistinct(WithFate(ctx1, services1, Measure))
    requires ServiceIdsDistinct(WithFate(ctx2, services2, Measure))
    requires j1 < |RunCycle(ctx1, s, services1).measurements|
    requires j2 < |RunCycle(ctx2, RunCycle(ctx1, s, services1).streaks, services2).measurements|
    requires var m1 := RunCycle(ctx1, s, services1).measurements[j1];
             var m2 := RunCycle(ctx2, RunCycle(ctx1, s, services1).streaks, services2).measurements[j2];
             m1.targetId == m2.targetId && HardDown(m1.meta) && HardDown(m2.meta)
    ensures RunCycle(ctx2, RunCycle(ctx1, s, services1).streaks, services2).measurements[j2].status == Crit
  {
    var r1 := RunCycle(ctx1, s, services1);
    var measured1 := WithFate(ctx1, services1, Measure);
    var measured2 := WithFate(ctx2, services2, Measure);
    CycleReportsMeasurements(ctx1, s, services1);
    CycleKeepsCounters(ctx1, s, services1);
    CycleReportsMeasurements(ctx2, r1.streaks, services2);
    MeasurementIsStamped(ctx1, s, measured1[j1]);
    MeasuredStatusFollowsStreak(ctx1, s, measured1[j1]);
    MeasurementIsStamped(ctx2, r1.streaks, measured2[j2]);
    MeasuredStatusFollowsStreak(ctx2, r1.streaks, measured2[j2]);
  }

  /** The `ok`, `warn` and `crit` counts of the cycle summary. */
  datatype Summary = Summary(ok: nat, warn: nat, crit: nat)

  /** The statuses of the measurements, in order. */
  function StatusList(ms: seq<Measurement>): seq<int> {
    seq(|ms|, i requires 0 <= i < |ms| => ms[i].status as int)
  }

  /** `sum(1 for r in results if r["status"] == st)`. */
  function CountStatus(ms: seq<Measurement>, st: int): (n: nat)
    ensures n <= |ms|
  {
    if ms == [] then 0 else (if ms[0].status == st then 1 else 0) + CountStatus(ms[1..], st)
  }

  /** Every measurement has one of the three statuses, so the three counts
      cover all of them. */
  lemma {:induction false} CountStatusTotal(ms: seq<Measurement>)
    ensures CountStatus(ms, Ok) + CountStatus(ms, Warn) + CountStatus(ms, Crit) == |ms|
    decreases |ms|
  {
    if ms != [] {
      CountStatusTotal(ms[1..]);
    }
  }

  /** The `ok`, `warn` and `crit` lines of the cycle summary. */
  function Summarize(ms: seq<Measurement>): (r: Summary)
    ensures r.ok + r.warn + r.crit == |ms|
  {
    CountStatusTotal(ms);
    Summary(CountStatus(ms, Ok), CountStatus(ms, Warn), CountStatus(ms, Crit))
  }

  /** A count is the multiplicity of its status among the measurements'
      statuses. */
  lemma {:induction false} CountStatusIsMultiplicity(ms: seq<Measurement>, st: int)
    ensures CountStatus(ms, st) == multiset(StatusList(ms))[st]
    decreases |ms|
  {
    if ms != [] {
      CountStatusIsMultiplicity(ms[1..], st);
      assert StatusList(ms) == [ms[0].status as int] + StatusList(ms[1..]);
    }
  }

  /** Counting splits over concatenation. */
  lemma {:induction false} CountStatusAppend(a: seq<Measurement>, b: seq<Measurement>, st: int)
    ensures CountStatus(a + b, st) == CountStatus(a, st) + CountStatus(b, st)
    decreases |a|
  {
    if a != [] {
      assert (a + b)[1..] == a[1..] + b;
      CountStatusAppend(a[1..], b, st);
    } else {
      assert a + b == b;
    }
  }

  /** A count depends only on which measurements were collected, not on their
      order. */
  lemma {:induction false} CountStatusPermutation(a: seq<Measurement>, b: seq<Measurement>, st: int)
    requires multiset(a) == multiset(b)
    ensures CountStatus(a, st) == CountStatus(b, st)
    decreases |a|
  {
    if a != [] {
      var x := a[0];
      assert x in multiset(b);
      var k :| 0 <= k < |b| && b[k] == x;
      var front, back := b[..k], b[k + 1..];
      assert b == (front + [x]) + back;
      RemoveMatching(a, b, k);
      CountStatusPermutation(a[1..], front + back, st);
      CountStatusAppend(front + [x], back, st);
      CountStatusAppend(front, [x], st);
      CountStatusAppend(front, back, st);
    } else {
      assert |b| == |multiset(b)| == 0;
    }
  }

  /** Dropping the first element of `a` and an equal element of `b` from two
      permutations of each other leaves two permutations of each other. */
  lemma RemoveMatching<T>(a: seq<T>, b: seq<T>, k: nat)
    requires multiset(a) == multiset(b) && a != [] && k < |b| && b[k] == a[0]
    ensures multiset(a[1..]) == multiset(b[..k] + b[k + 1..])
  {
    var x := a[0];
    assert a == [x] + a[1..];
    assert b == b[..k] + [x] + b[k + 1..];
    var m, n := multiset(a[1..]), multiset(b[..k] + b[k + 1..]);
    assert multiset(a) == m + multiset{x};
    assert multiset(b) == n + multiset{x};
    forall y
      ensures m[y] == n[y]
    {
      assert multiset(a)[y] == multiset(b)[y];
    }
  }

  /** The summary depends only on which measurements were collected, not on
      the order in which the thread pool's workers finished them. */
  lemma SummarizePermutation(a: seq<Measurement>, b: seq<Measurement>)
    requires multiset(a) == multiset(b)
    ensures Summarize(a) == Summarize(b)
  {
    CountStatusPermutation(a, b, Ok);
    CountStatusPermutation(a, b, Warn);
    CountStatusPermutation(a, b, Crit);
  }

  /** The summary of two groups of results is the sum of their summaries. */
  lemma SummarizeAppend(a: seq<Measurement>, b: seq<Measurement>)
    ensures Summarize(a + b) == Summary(Summarize(a).ok + Summarize(b).ok, Summarize(a).warn + Summarize(b).warn,
                                        Summarize(a).crit + Summarize(b).crit)
  {
    CountStatusAppend(a, b, Ok);
    CountStatusAppend(a, b, Warn);
    CountStatusAppend(a, b, Crit);
  }

  /** When every measurement is OK the summary reports them all as OK. */
  lemma {:induction false} AllOkSummary(ms: seq<Measurement>)
    requires forall i :: 0 <= i < |ms| ==> ms[i].status == Ok
    ensures Summarize(ms) == Summary(|ms|, 0, 0)
    decreases |ms|
  {
    if ms != [] {
      AllOkSummary(ms[1..]);
    }
  }

  /** One pass of the main loop: the loaded services filtered, the pool sized,
      every enabled service evaluated, and the summary logged. */
  datatype CyclePass = CyclePass(workers: int, result: CycleResult, summary: Summary)

  /** A pass raises before evaluating anything when `max_workers` is not
      positive: `ThreadPoolExecutor` rejects a pool of fewer than one worker,
      and `main` then exits with status 1. */
  function MainPass(ctx: Context, s: Streaks, maxWorkers: int, loaded: seq<Service>): (r: Raises<CyclePass>)
    ensures r.Raised? <==> maxWorkers < 1
    ensures r.Returns? ==> r.value.result == RunCycle(ctx, s, EnabledServices(loaded))
    ensures r.Returns? ==>
              var ms := r.value.result.measurements;
              && |ms| + r.value.result.skipped + r.value.result.failed == |EnabledServices(loaded)|
              && r.value.summary == Summarize(ms)
    ensures r.Returns? ==> 1 <= r.value.workers <= maxWorkers
    ensures r.Returns? && EnabledServices(loaded) != [] ==> r.value.workers <= |EnabledServices(loaded)|
  {
    var services := EnabledServices(loaded);
    var workers := WorkerCount(maxWorkers, |services|);
    if workers < 1 then Raised
    else
      var result := RunCycle(ctx, s, services);
      Returns(CyclePass(workers, result, Summarize(result.measurements)))
  }
}
