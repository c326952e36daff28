/** One service evaluation, `run_one_service` of collector/collector.py: the
    admission guards, address derivation, the check itself, the probe
    enrichment of the metadata and the two-strike step. Logging and the
    `datetime.utcnow()` stamp are left out; an exception that escapes the call is
    the `WorkerFailed` outcome, which the cycle's `fut.result()` turns into a log
    line. */
module ServiceRun {
  import opened Base
  import opened Values
  import opened Thresholds
  import opened Checks
  import opened Dispatch
  import opened Hysteresis
  import opened Probe

  /** Everything `run_one_service` reads besides the service and the streaks:
      `hosts` (host id → host object), the configuration, the probe identity found
      at start-up, and the outside world (`net`, `urlparse(...).hostname`). */
  datatype Context = Context(
    hosts: map<Value, Obj>,
    timeouts: Timeouts,
    thresholds: Thresholds,
    regionFallback: Value,
    probe: ProbeIdentity,
    net: Network,
    urlHost: string -> Option<string>)

  /** The dictionary `run_one_service` returns, without its timestamp. */
  datatype Measurement = Measurement(
    region: Value,
    projectId: Value,
    targetId: Value,
    hostId: Value,
    kind: Value,
    status: Status,
    latency: nat,
    meta: Obj)

  /** `None` with the logged reason, an exception, or a measurement. */
  datatype ServiceOutcome = Skipped(reason: string) | WorkerFailed | Measured(m: Measurement)

  datatype ServiceStep = ServiceStep(outcome: ServiceOutcome, streaks: Streaks)

  const MissingServiceId := "missing_field:service_id"
  const MissingHostId := "missing_field:host_id"
  const MissingType := "missing_field:type"
  const UnknownHostId := "unknown_host_id"
  const MissingAddress := "missing_field:host.address"

  /** The keys the enrichment guarantees on every measurement's metadata. */
  const EnrichedKeys: set<string> :=
    {"host_id", "service_id", "host_address", "probe_region", "probe_country", "probe_city",
     "probe_public_ip", "probe_source"}

  lemma EnrichedKeysAreNotExecutorKeys()
    ensures EnrichedKeys !! ExecutorMetaKeys
    ensures KeySoftened !in EnrichedKeys && KeySoftened !in ExecutorMetaKeys
  {
  }

  /** `hosts.get(host_id)`. */
  function LookupHost(hosts: map<Value, Obj>, hostId: Value): Option<Obj> {
    if hostId in hosts then Some(hosts[hostId]) else None
  }

  /** `not host` is false: a host object that exists and is not empty. */
  predicate KnownHost(host: Option<Obj>) {
    host.Some? && host.value != map[]
  }

  /** `probe.get("probe_region") or region_fallback`. */
  function ProbeRegion(ctx: Context): Value {
    Or(ctx.probe.region, ctx.regionFallback)
  }

  /** The values the enrichment offers, keyed as in the metadata. */
  function EnrichmentDefaults(serviceId: Value, hostId: Value, address: Option<string>, ctx: Context): (d: Obj)
    ensures d.Keys == EnrichedKeys
  {
    map["host_id" := hostId,
        "service_id" := serviceId,
        "host_address" := Or(AddressValue(address), hostId),
        "probe_region" := ProbeRegion(ctx),
        "probe_country" := ctx.probe.country,
        "probe_city" := ctx.probe.city,
        "probe_public_ip" := ctx.probe.publicIp,
        "probe_source" := ctx.probe.source]
  }

  /** The run of `meta.setdefault(key, value)` calls: every enriched key the
      check did not set gets its default, and every key the check set keeps its
      value. The keys are distinct, so the calls commute and amount to a map
      union in which the check's own entries win. */
  function Enrich(meta: Obj, serviceId: Value, hostId: Value, address: Option<string>, ctx: Context): (r: Obj)
    ensures r.Keys == meta.Keys + EnrichedKeys
    ensures forall k :: k in meta ==> r[k] == meta[k]
    ensures forall k :: k in EnrichedKeys && k !in meta ==>
              r[k] == EnrichmentDefaults(serviceId, hostId, address, ctx)[k]
  {
    EnrichmentDefaults(serviceId, hostId, address, ctx) + meta
  }

  /** The three guards that `run_one_service` tests before anything else. */
  predicate Identified(f: Obj) {
    Truthy(Get(f, "service_id")) && Truthy(Get(f, "host_id")) && Truthy(Get(f, "type"))
  }

  /** A service the collector is willing to probe: identified, its host known
      (json_api excepted) and, for the kinds that need one, an address found. */
  predicate Admitted(ctx: Context, service: Service) {
    var f := service.fields;
    var host := LookupHost(ctx.hosts, Get(f, "host_id"));
    && Identified(f)
    && (KnownHost(host) || KindOf(Get(f, "type")) == JsonApi)
    && (NeedsAddress(Get(f, "type")) ==> ResolveHostAddress(service, host, ctx.urlHost).Some?)
  }

  /** What becomes of a service in a cycle, which the streak counters never
      influence: skipped with a logged reason, failed with an exception, or
      measured. */
  datatype Fate = Skip | Fail | Measure

  function FateOf(ctx: Context, service: Service): Fate {
    var f := service.fields;
    if !Admitted(ctx, service) then
      if Identified(f) && !Hashable(Get(f, "host_id")) then Fail else Skip
    else if Hashable(Get(f, "host_id")) && Hashable(Get(f, "service_id")) && RawCheck(ctx, service).Returns? then Measure
    else Fail
  }

  /** `run_one_service(service, hosts, timeouts, thresholds, region_fallback,
      probe)` with the streak counters `s` before the call and after it. */
  function RunOneService(ctx: Context, s: Streaks, service: Service): (r: ServiceStep)
    ensures r.outcome == Skipped(MissingServiceId) <==> !Truthy(Get(service.fields, "service_id"))
    ensures r.outcome == Skipped(MissingHostId) <==>
              Truthy(Get(service.fields, "service_id")) && !Truthy(Get(service.fields, "host_id"))
    ensures r.outcome == Skipped(MissingType) <==>
              Truthy(Get(service.fields, "service_id")) && Truthy(Get(service.fields, "host_id"))
              && !Truthy(Get(service.fields, "type"))
    ensures Identified(service.fields) && !Hashable(Get(service.fields, "host_id")) ==> r.outcome.WorkerFailed?
    ensures r.outcome.Skipped? <==> !(Admitted(ctx, service) || (Identified(service.fields) && !Hashable(Get(service.fields, "host_id"))))
    ensures r.outcome.Measured? ==> Admitted(ctx, service) && Hashable(Get(service.fields, "service_id"))
    ensures Admitted(ctx, service) && Hashable(Get(service.fields, "host_id")) ==>
              (r.outcome.WorkerFailed? <==> RawCheck(ctx, service).Raised? || !Hashable(Get(service.fields, "service_id")))
    ensures Admitted(ctx, service) && Hashable(Get(service.fields, "host_id")) && RawCheck(ctx, service).Returns? ==>
              r == Record(ctx, s, service, Address(ctx, service), RawCheck(ctx, service).value)
    ensures r.outcome.Skipped? <==> FateOf(ctx, service) == Skip
    ensures r.outcome.WorkerFailed? <==> FateOf(ctx, service) == Fail
    ensures r.outcome.Measured? <==> FateOf(ctx, service) == Measure
    ensures !r.outcome.Measured? ==> r.streaks == s
    ensures forall k :: k != Get(service.fields, "service_id") ==>
              FailCount(r.streaks, k) == FailCount(s, k) && OkCount(r.streaks, k) == OkCount(s, k)
  {
    var f := service.fields;
    var serviceId := Get(f, "service_id");
    var hostId := Get(f, "host_id");
    var kind := Get(f, "type");
    if !Truthy(serviceId) then ServiceStep(Skipped(MissingServiceId), s)
    else if !Truthy(hostId) then ServiceStep(Skipped(MissingHostId), s)
    else if !Truthy(kind) then ServiceStep(Skipped(MissingType), s)
    else if !Hashable(hostId) then ServiceStep(WorkerFailed, s)
    else
      var host := LookupHost(ctx.hosts, hostId);
      if !KnownHost(host) && KindOf(kind) != JsonApi then ServiceStep(Skipped(UnknownHostId), s)
      else
        var address := ResolveHostAddress(service, host, ctx.urlHost);
        if NeedsAddress(kind) && address.None? then ServiceStep(Skipped(MissingAddress), s)
        else
          match RawCheck(ctx, service)
          case Raised => ServiceStep(WorkerFailed, s)
          case Returns(raw) => Record(ctx, s, service, address, raw)
  }

  /** What follows a completed check: the enrichment, the two-strike step keyed
      by the service id (which raises when that id cannot be a dictionary key),
      and the returned measurement. */
  function Record(ctx: Context, s: Streaks, service: Service, address: Option<string>, raw: CheckResult): (r: ServiceStep)
    ensures !r.outcome.Measured? ==> r.streaks == s
    ensures r.outcome.Measured? <==> Hashable(Get(service.fields, "service_id"))
    ensures !r.outcome.Skipped?
    ensures forall k :: k != Get(service.fields, "service_id") ==>
              FailCount(r.streaks, k) == FailCount(s, k) && OkCount(r.streaks, k) == OkCount(s, k)
    ensures r.outcome.Measured? ==>
              && r.outcome.m.targetId == Get(service.fields, "service_id")
              && r.outcome.m.hostId == Get(service.fields, "host_id")
              && r.outcome.m.kind == Get(service.fields, "type")
              && r.outcome.m.projectId == Get(service.fields, "project_id")
              && r.outcome.m.region == Or(ctx.probe.region, ctx.regionFallback)
              && EnrichedKeys <= r.outcome.m.meta.Keys
              && r.outcome.m.latency == raw.latency
  {
    var f := service.fields;
    var serviceId := Get(f, "service_id");
    var hostId := Get(f, "host_id");
    if !Hashable(serviceId) then ServiceStep(WorkerFailed, s)
    else
      var meta := Enrich(raw.meta, serviceId, hostId, address, ctx);
      var rep := TwoStrike(s, serviceId, CheckResult(raw.status, raw.latency, meta));
      var m := Measurement(ProbeRegion(ctx), Get(f, "project_id"), serviceId, hostId, Get(f, "type"),
                           rep.result.status, rep.result.latency, rep.result.meta);
      ServiceStep(Measured(m), rep.streaks)
  }

  /** The check result of an admitted service, before enrichment and hysteresis. */
  function RawCheck(ctx: Context, service: Service): Raises<CheckResult>
    requires Identified(service.fields)
  {
    var host := LookupHost(ctx.hosts, Get(service.fields, "host_id"));
    var payload := BuildCheckPayload(service, host, ctx.urlHost);
    RunCheck(payload.0, payload.1, ctx.timeouts, ctx.thresholds, ctx.net)
  }

  /** The enriched keys of a recorded measurement hold the identifiers, the
      address and the probe identity, because no executor sets those keys; the
      enrichment leaves the hard-down flag alone. */
  lemma {:induction false} RecordStamps(ctx: Context, s: Streaks, service: Service, address: Option<string>, raw: CheckResult)
    requires raw.meta.Keys <= ExecutorMetaKeys
    requires Record(ctx, s, service, address, raw).outcome.Measured?
    ensures var m := Record(ctx, s, service, address, raw).outcome.m;
            && m.meta["service_id"] == m.targetId
            && m.meta["host_id"] == m.hostId
            && m.meta["host_address"] == Or(AddressValue(address), m.hostId)
            && m.meta["probe_region"] == m.region
            && m.meta["probe_source"] == ctx.probe.source
            && (HardDown(m.meta) <==> HardDown(raw.meta))
  {
    EnrichStamps(raw.meta, Get(service.fields, "service_id"), Get(service.fields, "host_id"), address, ctx);
  }

  /** The enrichment of an executor's metadata fills the enriched keys from the
      defaults, since no executor sets them, and leaves the hard-down flag as the
      executor set it. */
  lemma EnrichStamps(meta: Obj, serviceId: Value, hostId: Value, address: Option<string>, ctx: Context)
    requires meta.Keys <= ExecutorMetaKeys
    ensures var e := Enrich(meta, serviceId, hostId, address, ctx);
            && e["service_id"] == serviceId
            && e["host_id"] == hostId
            && e["host_address"] == Or(AddressValue(address), hostId)
            && e["probe_region"] == ProbeRegion(ctx)
            && e["probe_source"] == ctx.probe.source
            && Get(e, KeyHardDown) == Get(meta, KeyHardDown)
  {
    EnrichedKeysAreNotExecutorKeys();
    assert "service_id" !in meta && "host_id" !in meta && "host_address" !in meta;
    assert "probe_region" !in meta && "probe_source" !in meta;
  }

  /** The status of a recorded hard-down result follows the service's fail
      counter; any other result is reported with the executor's own status. */
  lemma {:induction false} RecordStatus(ctx: Context, s: Streaks, service: Service, address: Option<string>, raw: CheckResult)
    requires raw.meta.Keys <= ExecutorMetaKeys
    requires Record(ctx, s, service, address, raw).outcome.Measured?
    ensures var r := Record(ctx, s, service, address, raw);
            var key := Get(service.fields, "service_id");
            && (HardDown(raw.meta) ==>
                  && (r.outcome.m.status == Crit <==> raw.status == Crit && FailCount(s, key) > 0)
                  && (r.outcome.m.status == Warn <==> FailCount(s, key) == 0 || raw.status == Warn)
                  && FailCount(r.streaks, key) == FailCount(s, key) + 1)
            && (!HardDown(raw.meta) ==> r.outcome.m.status == raw.status && FailCount(r.streaks, key) == 0)
  {
    EnrichedKeysAreNotExecutorKeys();
    var serviceId := Get(service.fields, "service_id");
    var meta := Enrich(raw.meta, serviceId, Get(service.fields, "host_id"), address, ctx);
    assert Get(meta, KeyHardDown) == Get(raw.meta, KeyHardDown);
  }

  /** The address `run_one_service` resolves for the service. */
  function Address(ctx: Context, service: Service): Option<string> {
    ResolveHostAddress(service, LookupHost(ctx.hosts, Get(service.fields, "host_id")), ctx.urlHost)
  }

  /** A measured service went through a completed check whose result has the
      shape every executor gives it. */
  lemma MeasuredIsRecorded(ctx: Context, s: Streaks, service: Service)
    requires RunOneService(ctx, s, service).outcome.Measured?
    ensures Identified(service.fields) && RawCheck(ctx, service).Returns?
    ensures var raw := RawCheck(ctx, service).value;
            && RunOneService(ctx, s, service) == Record(ctx, s, service, Address(ctx, service), raw)
            && raw.meta.Keys <= ExecutorMetaKeys
            && (HardDown(raw.meta) ==> raw.status == Crit)
            && (raw.status == Crit && !HardDown(raw.meta) ==> KindOf(Get(service.fields, "type")) == SslCert)
  {
  }

  /** A measurement identifies its service, host and kind, carries the probe's
      region, and its metadata holds the check's own keys plus every enriched key,
      with the identifiers and the region exactly as reported. */
  lemma MeasurementIsStamped(ctx: Context, s: Streaks, service: Service)
    requires RunOneService(ctx, s, service).outcome.Measured?
    ensures var m := RunOneService(ctx, s, service).outcome.m;
            && m.targetId == Get(service.fields, "service_id")
            && m.hostId == Get(service.fields, "host_id")
            && m.kind == Get(service.fields, "type")
            && m.projectId == Get(service.fields, "project_id")
            && m.region == Or(ctx.probe.region, ctx.regionFallback)
            && EnrichedKeys <= m.meta.Keys
            && m.meta["service_id"] == m.targetId
            && m.meta["host_id"] == m.hostId
            && m.meta["probe_region"] == m.region
            && m.meta["probe_source"] == ctx.probe.source
  {
    MeasuredIsRecorded(ctx, s, service);
    RecordStamps(ctx, s, service, Address(ctx, service), RawCheck(ctx, service).value);
  }

  /** For the kinds that need one, the measured metadata records the resolved
      address, which is never empty. */
  lemma MeasurementRecordsAddress(ctx: Context, s: Streaks, service: Service)
    requires RunOneService(ctx, s, service).outcome.Measured?
    requires NeedsAddress(Get(service.fields, "type"))
    ensures var m := RunOneService(ctx, s, service).outcome.m;
            var address := Address(ctx, service);
            address.Some? && address.value != [] && m.meta["host_address"] == VText(address.value)
  {
    MeasuredIsRecorded(ctx, s, service);
    RecordStamps(ctx, s, service, Address(ctx, service), RawCheck(ctx, service).value);
  }

  /** The reported status of a hard-down check depends only on the service's
      fail counter: CRIT when the previous evaluation was also hard-down, WARN
      (marked as softened) otherwise. A status-2 report without the hard-down
      flag is the certificate expiry policy. */
  lemma MeasuredStatusFollowsStreak(ctx: Context, s: Streaks, service: Service)
    requires RunOneService(ctx, s, service).outcome.Measured?
    ensures var r := RunOneService(ctx, s, service);
            var key := Get(service.fields, "service_id");
            && (HardDown(r.outcome.m.meta) ==>
                  && (r.outcome.m.status == Crit <==> FailCount(s, key) > 0)
                  && (r.outcome.m.status == Warn <==> FailCount(s, key) == 0)
                  && FailCount(r.streaks, key) == FailCount(s, key) + 1)
            && (!HardDown(r.outcome.m.meta) ==> FailCount(r.streaks, key) == 0)
            && (r.outcome.m.status == Crit && !HardDown(r.outcome.m.meta) ==>
                  KindOf(Get(service.fields, "type")) == SslCert)
  {
    MeasuredIsRecorded(ctx, s, service);
    RecordStamps(ctx, s, service, Address(ctx, service), RawCheck(ctx, service).value);
    RecordStatus(ctx, s, service, Address(ctx, service), RawCheck(ctx, service).value);
  }

  /** An evaluation depends on the streak counters only through the service's
      own pair: counters that agree on its service id give the same outcome and
      agree on that id afterwards. */
  lemma EvaluationSeesOwnCounters(ctx: Context, s1: Streaks, s2: Streaks, service: Service)
    requires SameCounters(s1, s2, Get(service.fields, "service_id"))
    ensures RunOneService(ctx, s1, service).outcome == RunOneService(ctx, s2, service).outcome
    ensures SameCounters(RunOneService(ctx, s1, service).streaks, RunOneService(ctx, s2, service).streaks,
                         Get(service.fields, "service_id"))
  {
    if FateOf(ctx, service) == Measure {
      var f := service.fields;
      var key := Get(f, "service_id");
      var raw := RawCheck(ctx, service).value;
      var meta := Enrich(raw.meta, key, Get(f, "host_id"), Address(ctx, service), ctx);
      TwoStrikeSeesOwnCounters(s1, s2, key, CheckResult(raw.status, raw.latency, meta));
    }
  }

  /** A json_api service needs no entry in the hosts file: with hashable
      identifiers it is always measured. */
  lemma JsonApiNeedsNoHost(ctx: Context, s: Streaks, service: Service)
    requires Truthy(Get(service.fields, "service_id")) && Hashable(Get(service.fields, "service_id"))
    requires Truthy(Get(service.fields, "host_id")) && Hashable(Get(service.fields, "host_id"))
    requires Get(service.fields, "type") == VText("json_api")
    ensures RunOneService(ctx, s, service).outcome.Measured?
  {
    assert KindOf(Get(service.fields, "type")) == JsonApi;
    assert RawCheck(ctx, service).Returns?;
  }
}
