# globalnet-monitor-core in Dafny

A model of the measuring core of globalnet-monitor. A collector process
(collector/collector.py) reads services.json and hosts.json. It works out which
region of the world it probes from, and every cycle it runs one check per
enabled service: ping, http, dns, tcp, ssl_cert or json_api. Each result gets a
status (0 = OK, 1 = WARN, 2 = CRIT), a latency in milliseconds and a metadata
dictionary. The metadata is enriched with the probe's identity. A two-strike
rule then softens the first network-level failure ("hard down") of a service
to WARN. Only a second consecutive one is reported CRIT.

The read-only API (api/api.py) serves these measurements to a dashboard. It
caches the configuration files for a minute, and it decodes stored metadata
defensively. It indexes services by host and folds each host's latest
measurements into a single worst-status colour for the map (`/api/meta/targets-geo`).

The modules follow the program:

- `Values`: JSON values with Python's truthiness, `dict.get`, `or`, `str()` and
  `int()`. `Text` holds the string helpers these need.
- `Thresholds`: the tolerant `_tint` reader of the thresholds section.
- `Checks`: the six check executors. Each one is a pure function of what the
  probing library call observed.
- `Dispatch`: address resolution, payload construction and `run_check`.
- `Hysteresis`: the FAIL_STREAK/OK_STREAK two-strike rule, over one call and
  over a sequence of cycles.
- `Probe`: region buckets, the 24-hour probe cache and `discover_probe_identity`.
- `ServiceRun`: `run_one_service`, which covers the guards, the check,
  the enrichment and the hysteresis.
- `Cycle`: one pass of the collector's main loop.
- `Api`: `ttl_cache`, `parse_meta_json`, `build_host_services_index`,
  `aggregate_host_health` and `get_targets_geo`.

Outside effects are parameters:

- the outcome of each network call (`Network`, or an outcome datatype per
  executor);
- the clock (`now`);
- the environment (`ProbeEnv`);
- the cache file's contents (`CacheFile`);
- `urlparse(...).hostname` and `json.loads`, as functions;
- the database's latest rows (`last`).

A Python exception that escapes a function is the `Raised` value of `Raises`.

## Model

| member | source | states |
|---|---|---|
| Thresholds.ThresholdInt | collector/collector.py:331-336 | the threshold is the configured value read with `int()` when that succeeds, and the default otherwise |
| Thresholds.ThresholdFromText | collector/collector.py:331-336 | a threshold written as decimal text, padded with whitespace on both sides, reads as that number |
| Thresholds.UnreadableThresholdUsesDefault | collector/collector.py:331-336 | a null, list, object or blank-text threshold falls back to the default |
| Checks.HardFailure | collector/collector.py:368-371 | an executor's exception handler reports CRIT with hard_down set and the error text, keeps the other meta keys, and keeps the elapsed time |
| Checks.LatencyVerdict | collector/collector.py:361-366 | OK exactly when latency is below the warn threshold, otherwise WARN with the reason (and slow_level when a very-slow threshold exists); never CRIT |
| Checks.CheckPing | collector/collector.py:343-371 | CRIT exactly when ping could not run or exited non-zero, and hard_down exactly then; otherwise OK exactly below ping_warn_ms, and a WARN carries reason slow_ping and slow_level "very" exactly at or above ping_very_slow_ms |
| Checks.CheckHttp | collector/collector.py:374-422 | CRIT and hard_down exactly when no response came back (timeout marked "timeout"); 5xx and 4xx are WARN with their reason; below 400 it is OK exactly below http_warn_ms, and a WARN carries reason slow_http and slow_level "very" exactly at or above http_very_slow_ms |
| Checks.CheckDns | collector/collector.py:425-448 | CRIT and hard_down exactly when resolution failed; otherwise the answer is recorded and the result is OK exactly below dns_warn_ms, a WARN carrying reason "slow_dns" and no slow level |
| Checks.CheckTcp | collector/collector.py:451-473 | CRIT and hard_down exactly when the connection failed; a connected socket is OK exactly below tcp_warn_ms, and a WARN carries reason slow_tcp and slow_level "very" exactly at or above tcp_very_slow_ms |
| Checks.CheckSslCert | collector/collector.py:476-501 | OK at 30 or more days left, WARN from 7 to 29, CRIT below 7 (without hard_down); CRIT with hard_down exactly when the handshake failed |
| Checks.CertPolicyMonotone | collector/collector.py:490-496 | more days left on a certificate never gives a worse status |
| Checks.SlowerIsNeverBetter | collector/collector.py:361-366 | for ping, tcp, dns, a 2xx/3xx http answer and a json_api answer holding its key, a slower answer never gets a better status |
| Checks.CheckJsonApi | collector/collector.py:504-552 | CRIT with hard_down exactly when no response came back or the key test itself raised; a timed-out request carries error "timeout"; non-200, undecodable body and missing key are WARN with their reasons; a semantically good answer is OK exactly below json_warn_ms, and a WARN carries reason slow_json_api and slow_level "very" exactly at or above json_very_slow_ms |
| Dispatch.DispatchError | collector/collector.py:595 | the dispatcher's own error is CRIT, zero latency, hard down, and carries only the error and hard_down keys |
| Dispatch.RunCheck | collector/collector.py:559-595 | each known kind with its fields goes to its own executor with its own timeout (ssl_cert uses the tcp one, json_api passes expect_key); unknown kinds give the unknown_type error and missing fields the missing_field error for the kind; it raises exactly for a tcp/ssl_cert port that `int()` rejects; hard_down always comes with CRIT, CRIT without hard_down only from ssl_cert; meta keys stay within the executors' keys |
| Dispatch.ResolveHostAddress | collector/collector.py:200-216 | the resolved address is never empty; it is the host's stripped address when the host has one (none when that is all whitespace), and otherwise the url's host name as `urlparse` gives it, when that is not empty |
| Dispatch.BlankAddressHasNoUrlFallback | collector/collector.py:207-209 | a host address made only of whitespace yields no address at all, even when the service has a url |
| Dispatch.BuildCheckPayload | collector/collector.py:602-632 | the kind is the service's type; address kinds get the address; ssl_cert defaults its port to 443 and tcp copies it; http keeps a configured url and otherwise synthesises one from the address; unknown kinds get an empty payload |
| Dispatch.DefaultHttpUrl | collector/collector.py:611-618 | with no url, scheme or path configured, an http check targets "https://" + address + "/" |
| Dispatch.AddressedPayloadHasRequiredFields | collector/collector.py:607-618 | once an address is known, a ping, dns or http payload has every field run_check requires |
| Dispatch.AddressedPortPayload | collector/collector.py:619-628 | once an address is known, a tcp or ssl_cert payload passes run_check's field test exactly when its port is not null; ssl_cert falls back to 443 when no port is configured, and tcp passes exactly when the configured port is not null |
| Hysteresis.TwoStrikeSeesOwnCounters | collector/collector.py:691-704 | the step reads and writes only the counters of its own service: counters that agree there give the same report and agree there afterwards |
| Hysteresis.TwoStrike | collector/collector.py:691-704 | a hard-down result increments the fail streak and zeroes the ok streak, and is softened to WARN (marked first_hard_down, every other meta entry kept and no other key added) when the previous fail streak was zero; any other result resets the fail streak, increments the ok streak and is reported unchanged; other services' streaks are untouched |
| Hysteresis.Replay | collector/collector.py:691-704 | replaying the rule over successive cycles reports one result per cycle |
| Hysteresis.FailCountIsTrailingRun | collector/collector.py:695-704 | after a sequence of cycles the fail streak equals the length of the current run of hard-downs, plus the starting count when the run covers every cycle |
| Hysteresis.CritOnlyWhenConfirmed | collector/collector.py:695-704 | from a cold start a hard-down is reported CRIT exactly when the previous cycle was also hard-down, otherwise WARN; other results pass through unchanged |
| Hysteresis.AlternatingNeverCritical | collector/collector.py:695-701 | when no two consecutive cycles are hard-down, every hard-down is reported WARN |
| Hysteresis.FirstHardDownAfterRestartIsSoftened | collector/collector.py:695-701 | with fresh counters the first hard-down is reported WARN |
| Hysteresis.SuccessResetsStreak | collector/collector.py:695-704 | down, down, up, down reports WARN, CRIT, the up result unchanged, then WARN again |
| Probe.CountryToRegion | collector/collector.py:223-241 | the region is one of the eight names; UNKNOWN exactly for a missing or empty code; each table's upper-cased codes map to its region, and OTHER exactly when no table lists the code |
| Probe.TablesDisjoint | collector/collector.py:228-233 | no country code is listed under two regions, so the order of the tests does not matter |
| Probe.CountryToRegionIgnoresCase | collector/collector.py:226 | a code and its upper-cased form map to the same region |
| Probe.LoadProbeCache | collector/collector.py:244-256 | the cache is used exactly when the file holds a record with a readable, non-zero timestamp at most 24 hours old, and then it is that record |
| Probe.CacheFreshnessBoundary | collector/collector.py:250-253 | a cache written exactly 24 hours ago is used; one second later it is not |
| Probe.Discover | collector/collector.py:270-324 | the environment override wins, then a usable cache (marked "cache"), then the no-public-IP fallback; on the live path it raises exactly when the geo country cannot be upper-cased, and otherwise returns the live identity for the public IP and the geo answer, saved with the current time |
| Probe.GeoCountry | collector/collector.py:311 | the country is the upper-cased country_code when that is truthy, else the upper-cased country, else none; it raises exactly when the chosen value is not text, and a returned country is never empty |
| Probe.LiveIdentity | collector/collector.py:311-322 | the live identity's region is the country's bucket or UNKNOWN, its country is the upper-cased code, its city the truthy city or none, with the public IP and source ip_geo |
| Probe.EnvOverrideIgnoresDiscovery | collector/collector.py:277-285 | with GNM_PROBE_REGION set, the cache, clock, public IP and geo answer make no difference, and the region is the variable's value |
| Probe.SavedIdentityIsReloaded | collector/collector.py:287-323 | an identity saved by a live discovery is what a start-up within 24 hours returns, now marked "cache", whatever the network says then |
| Probe.LiveRegionIgnoresFallback | collector/collector.py:311-320 | a live identity's region is the country's bucket or UNKNOWN, and the configured fallback never influences it |
| ServiceRun.Enrich | collector/collector.py:678-689 | the enriched metadata has the check's keys plus the eight probe and identity keys; the check's own values win, and only missing keys receive the defaults |
| ServiceRun.EnrichStamps | collector/collector.py:678-692 | enriching an executor's metadata fills service_id, host_id, host_address (the address, else the host id), probe_region and probe_source from the defaults, and leaves hard_down as the executor set it |
| ServiceRun.RunOneService | collector/collector.py:639-719 | missing service_id, host_id and type are skipped in that order with their reasons; an unhashable host id raises; a service is skipped exactly when it is not admitted (identified, known host unless json_api, address when needed); a measured service was admitted; an admitted service with a hashable host id fails exactly when its check raises or its service id is unhashable, and otherwise is the record of its check's answer at its resolved address; whether a service is skipped, fails or is measured is its fate `ServiceRun.FateOf`, which the streak counters never decide; a non-measured evaluation leaves the streaks alone; other services' streaks never change |
| ServiceRun.Record | collector/collector.py:678-719 | after a completed check the service is measured exactly when its id can be a dictionary key, and the measurement carries the service's ids, the probe region, every enriched key and the check's latency |
| ServiceRun.RecordStamps | collector/collector.py:678-692 | the enriched keys hold the service id, host id, address (or host id), region and probe source, and enrichment does not change the hard-down flag |
| ServiceRun.RecordStatus | collector/collector.py:691-704 | a recorded hard-down is CRIT exactly when the check said CRIT and the fail streak was already positive; any other result keeps the check's status and resets the streak |
| ServiceRun.MeasuredIsRecorded | collector/collector.py:675-676 | a measured service went through a completed check whose meta keys are executor keys, hard_down only with CRIT, and CRIT without hard_down only for ssl_cert |
| ServiceRun.MeasurementIsStamped | collector/collector.py:678-719 | a measurement names its service, host, kind and project, carries the probe region, and its metadata repeats those identifiers |
| ServiceRun.MeasurementRecordsAddress | collector/collector.py:670-681 | for ping, dns, tcp and ssl_cert the metadata records the resolved, non-empty address |
| ServiceRun.MeasuredStatusFollowsStreak | collector/collector.py:691-704 | a measured hard-down is CRIT exactly when the service's previous fail streak was positive and WARN otherwise; CRIT without hard-down only comes from ssl_cert |
| ServiceRun.EvaluationSeesOwnCounters | collector/collector.py:691-704 | an evaluation depends on the streaks only through its own service id's pair of counters: agreeing counters there give the same outcome and agree there afterwards |
| ServiceRun.JsonApiNeedsNoHost | collector/collector.py:663-668 | a json_api service with usable ids is measured even when hosts.json does not know its host |
| Cycle.EnabledServices | collector/collector.py:113 | a service is kept exactly when it is in the list and enabled, and the list never grows |
| Cycle.EnabledServicesMultiplicity | collector/collector.py:113 | an enabled service is kept as often as the list holds it and a disabled one never |
| Cycle.EnabledServicesAppend | collector/collector.py:113 | filtering a concatenation concatenates the filtered parts, so the kept services stay in list order |
| Cycle.EnabledByDefault | collector/collector.py:113 | a service without an enabled field is kept |
| Cycle.WorkerCount | collector/collector.py:763 | the pool size is the smaller of max_workers and the service count, where an empty list counts as one |
| Cycle.WorkerCountBounds | collector/collector.py:763 | with a positive max_workers the pool has at least one worker and never more than the services |
| Cycle.RunCycle | collector/collector.py:765-776 | measured, skipped and failed services add up to the services evaluated; every measurement belongs to one of them; streaks of services outside the list are unchanged |
| Cycle.CycleCountsFollowFates | collector/collector.py:765-776 | the cycle skips exactly the services whose fate is to be skipped (`res` is None) and counts a failed worker for exactly those whose evaluation raises |
| Cycle.CycleMeasuresFollowFates | collector/collector.py:765-776 | the cycle keeps one measurement for exactly each service whose fate is to be measured, in list order, the j-th carrying the j-th such service's service id, host id and type |
| Cycle.CycleReportsMeasurements | collector/collector.py:765-776 | when the measured services have distinct service ids, the j-th measurement of the cycle is exactly the measurement the j-th measured service's `run_one_service` gives from the cycle's starting streaks (status, latency and meta included) |
| Cycle.CycleKeepsCounters | collector/collector.py:691-704 | when the measured services have distinct service ids, the streaks the cycle hands on give each measured service the counters its own evaluation from the starting streaks leaves, and every other service id its starting counters |
| Cycle.HardDownTwiceIsCrit | collector/collector.py:691-704 | across two consecutive cycles sharing the streaks, a service whose measurement is hard-down in both is reported CRIT in the second |
| Cycle.Summarize | collector/collector.py:786-788 | ok, warn and crit add up to the number of measurements |
| Cycle.CountStatusTotal | collector/collector.py:786-788 | every measurement is counted under exactly one of the three statuses |
| Cycle.CountStatusIsMultiplicity | collector/collector.py:786-788 | each count is the number of measurements with that status |
| Cycle.CountStatusAppend | collector/collector.py:786-788 | counting splits over concatenation |
| Cycle.CountStatusPermutation | collector/collector.py:786-788 | a count depends only on the multiset of measurements |
| Cycle.SummarizePermutation | collector/collector.py:770-788 | the summary is the same for every order in which the workers finished |
| Cycle.SummarizeAppend | collector/collector.py:786-788 | the counts of two groups of results add up |
| Cycle.AllOkSummary | collector/collector.py:786-788 | all-OK results are summarised as all OK |
| Cycle.MainPass | collector/collector.py:758-811 | a pass raises before evaluating anything exactly when max_workers is below 1; otherwise it evaluates every enabled service once, counts every measurement in its summary, and sizes the pool between 1 and max_workers, never above the number of services when there are any |
| Api.TtlCached | api/api.py:123-131 | the loader is skipped exactly when the deadline is still ahead and a non-None value is stored, and the stored value is returned; otherwise the loader's result is returned and stored with a deadline ttl seconds ahead, and a raising loader leaves the state alone |
| Api.CachedWithinTtl | api/api.py:123-131 | a loaded value is served without reloading to every call before the deadline |
| Api.ReloadsAfterTtl | api/api.py:126-131 | once ttl seconds have passed the next call loads again |
| Api.NoneIsNeverCached | api/api.py:126 | a loader that returned None is called again on the next call |
| Api.FirstCallLoads | api/api.py:121-128 | the first call of a freshly decorated loader always loads |
| Api.ParseMetaJson | api/api.py:293-307 | rows keep their number, keys and other fields; a falsy or already-decoded field is left alone, text is replaced by its decoding or by the parse-error marker |
| Api.ParseMetaRow | api/api.py:298-306 | one row keeps its keys and every other field, and its field becomes the parsed cell |
| Api.ParseMetaJsonIdempotent | api/api.py:297-306 | when decoding yields objects, parsing twice gives the same rows as parsing once |
| Api.BuildHostServicesIndex | api/api.py:310-319 | raises exactly when an indexed service has an unhashable host id; otherwise a host is a key exactly when it has a listed service, and its entry is the ids of its enabled services with both ids, in file order |
| Api.HostHealth | api/api.py:363-392 | CRIT exactly when some measured service is CRIT, WARN exactly when none is CRIT and some is WARN, else OK with latency 0; a non-OK host reports the worst latency among its non-OK services |
| Api.AggregateHostHealth | api/api.py:363-392 | raises exactly when some service id cannot be a dictionary key, and otherwise answers the host health |
| Api.WorstLatency | api/api.py:380-391 | the reported latency bounds every contributing service's latency and is one of them when positive |
| Api.UnmeasuredHostIsOk | api/api.py:372-386 | a host none of whose services has a latest measurement shows OK with latency 0, unless one of its service ids is unhashable, which raises |
| Api.UnmeasuredServiceIsIgnored | api/api.py:372-375 | a hashable service id without a latest measurement does not change the host's colour or latency; an unhashable one makes the aggregation raise |
| Api.DisplayName | api/api.py:608 | the name is the entry's own name, else the host's name, else the host id, and is never empty when the id is not |
| Api.TargetsGeo | api/api.py:575-621 | an empty geo list gives no targets; otherwise it raises exactly when the index raises or a selected entry has an unhashable host id, an unhashable listed service id, coordinates `float()` rejects (including integers too large for a double), or a host id or display name that `TargetGeo`'s `str` fields reject, and returns the reference answer for the first limit_hosts entries |
| Api.CollectTargets | api/api.py:584-621 | given a correct index, the loops raise exactly when some selected entry raises, including when `TargetGeo` validation rejects its host id or name, and otherwise build the reference answer |
| Api.TargetEntry | api/api.py:603-619 | an answer entry carries the geo entry's host id, its display name and the health aggregated over that host's listed services |
| Api.TargetsMatchSelection | api/api.py:584-619 | the j-th answer entry comes from the j-th geo entry with a host id: it carries that id (the j-th selected host id), that entry's display name and that host's aggregated health |
| Api.SelectedPositions | api/api.py:587-591 | the selected positions are increasing and are exactly the geo entries with a truthy host id |
| Api.TargetsWithinLimit | api/api.py:579-580 | the answer never lists more hosts than limit_hosts |
| Api.Window | api/api.py:580 | the window is the first limit_hosts entries, or all of them when there are fewer |

## Left out

- Floating point: latencies come from the model as whole milliseconds. A JSON number with a fraction is not a `Value`. `float()` of text is the parameter `Conversions.textIsFloat`; `float()` of an integer is modelled by its `OverflowError` bound only, and the geo coordinates are checked for readability only; their values are not part of `TargetGeo`.
- The truncation of `int((time.perf_counter() - start) * 1000)` is not modelled; latency is an input.
- `str.upper()` is modelled for ASCII letters only. `str.strip()` uses the whitespace set of Python's `str.isspace()`.
- `int()` on text accepts ASCII digits, a sign and `_` digit groups; other Unicode digits are not modelled.
- Python's `True == 1` and `hash(True) == hash(1)` are not modelled: dictionary keys compare as distinct values.
- Time is an exact real number; the clock, `time.time()` and `perf_counter` are parameters.
- Process execution (`ping`), sockets, TLS, DNS, HTTP and `datetime.strptime` are not modelled. Each executor takes the observed outcome, and the certificate's days left come with it.
- `urlparse(...).hostname` and `json.loads` are function parameters.
- File loading (services.json, hosts.json, config), logging, the `ts` timestamp of a measurement and the database writes are not modelled.
- The cycle's sleep until the next interval is not modelled.
- The thread pool's completion order is not modelled. Of `ThreadPoolExecutor`, only its refusal of a pool with fewer than one worker is modelled (`Cycle.MainPass`). Services are evaluated in list order. The summary depends only on which measurements were collected (`Cycle.SummarizePermutation`). Two entries that share a service id share streak counters, so for them the evaluation order matters; the model fixes list order. For that reason `Cycle.CycleReportsMeasurements` and `Cycle.CycleKeepsCounters` speak only of cycles whose measured services have distinct ids, where no evaluation reads counters that another one writes. The streak dictionaries are shared without a lock in the source; this is not modelled either.
- A `params` field that is not an object, and geo-IP or ipify answers that are not objects, are not modelled.
- `Probe.Discover`: the returned cached identity drops the `_cached_at` key the cache dictionary also carries.
- `Probe.Discover`: a failing `_save_probe_cache` write is not modelled, because the source swallows it.
- Configured timeouts and `max_workers` are assumed to be integers: a non-integer `max_workers`, which makes `min` or the pool raise, is not modelled.
- The database query of the latest rows (`fetch_last_by_service_ids`) is not modelled. Its answer is the `last` map, and the region filter lives in SQL.
- Api.TargetEntry: the answer keeps the host id and display name as the geo entry gives them. Under pydantic 1, which turns an integer or boolean `str` field into text, the response carries that text instead. The model only decides, through `Conversions.numbersAsText`, whether validation accepts such a value.
- The FastAPI routes other than `get_targets_geo`, rate limiting, the connection pool and `/health` are not modelled.
- `Api.TargetsGeo` takes `limit_hosts` within 1..500 as FastAPI's query validation guarantees. It also takes a `status` for each latest row that is an integer.
