/** Probe identity (the prober's own viewpoint) of collector/collector.py:
    `_country_to_region`, the freshness rule of `_load_probe_cache`, and the
    env → cache → live → fallback order of `discover_probe_identity`. The
    environment, the cache file, the clock and both HTTP lookups are inputs. */
module Probe {
  import opened Base
  import opened Text
  import opened Values

  /** `PROBE_CACHE_TTL_SEC`: 24 hours. */
  const CacheTtlSeconds: real := 24.0 * 3600.0

  const EuCodes: set<string> := {"FR", "ES", "PT", "BE", "NL", "DE", "LU", "IT", "GB", "IE", "CH", "AT", "SE", "NO",
                                 "DK", "FI", "PL", "CZ", "SK", "HU", "RO", "BG", "GR", "HR", "SI", "EE", "LV", "LT"}
  const NaCodes: set<string> := {"US", "CA", "MX"}
  const SaCodes: set<string> := {"BR", "AR", "CL", "CO", "PE", "UY", "PY", "BO", "EC", "VE"}
  const AfCodes: set<string> := {"MA", "DZ", "TN", "EG", "ZA", "NG", "KE", "GH", "SN", "CI", "CM", "ET", "UG", "TZ", "RW"}
  const AsCodes: set<string> := {"TR", "SA", "AE", "QA", "KW", "OM", "BH", "IN", "PK", "BD", "CN", "JP", "KR", "SG",
                                 "MY", "TH", "VN", "ID", "PH", "HK", "TW"}
  const OcCodes: set<string> := {"AU", "NZ"}

  /** Every bucket `_country_to_region` can answer. */
  const RegionNames: set<string> := {"EU", "NA", "SA", "AF", "AS", "OC", "OTHER", "UNKNOWN"}

  predicate InTable(cc: string) {
    cc in EuCodes || cc in NaCodes || cc in SaCodes || cc in AfCodes || cc in AsCodes || cc in OcCodes
  }

  /** `_country_to_region(country_code)`: the bucket of the upper-cased code. */
  function CountryToRegion(countryCode: Option<string>): (r: string)
    ensures r in RegionNames
    ensures r == "UNKNOWN" <==> countryCode.None? || countryCode.value == []
    ensures countryCode.Some? && countryCode.value != [] ==>
              var cc := Upper(countryCode.value);
              && (cc in EuCodes ==> r == "EU")
              && (cc in NaCodes ==> r == "NA")
              && (cc in SaCodes ==> r == "SA")
              && (cc in AfCodes ==> r == "AF")
              && (cc in AsCodes ==> r == "AS")
              && (cc in OcCodes ==> r == "OC")
              && (r == "OTHER" <==> !InTable(cc))
  {
    if countryCode.None? || countryCode.value == [] then "UNKNOWN"
    else
      var cc := Upper(countryCode.value);
      TablesDisjoint();
      if cc in EuCodes then "EU"
      else if cc in NaCodes then "NA"
      else if cc in SaCodes then "SA"
      else if cc in AfCodes then "AF"
      else if cc in AsCodes then "AS"
      else if cc in OcCodes then "OC"
      else "OTHER"
  }

  /** No country code is listed under two regions, so the order of the tests in
      `_country_to_region` does not matter. */
  lemma TablesDisjoint()
    ensures EuCodes !! NaCodes && EuCodes !! SaCodes && EuCodes !! AfCodes && EuCodes !! AsCodes && EuCodes !! OcCodes
    ensures NaCodes !! SaCodes && NaCodes !! AfCodes && NaCodes !! AsCodes && NaCodes !! OcCodes
    ensures SaCodes !! AfCodes && SaCodes !! AsCodes && SaCodes !! OcCodes
    ensures AfCodes !! AsCodes && AfCodes !! OcCodes
    ensures AsCodes !! OcCodes
  {
    EuApart();
    EuAsApart();
    NaApart();
    SaApart();
    AfApart();
  }

  lemma EuApart()
    ensures EuCodes !! NaCodes && EuCodes !! SaCodes && EuCodes !! AfCodes && EuCodes !! OcCodes
  {
    EuSaApart();
    EuAfApart();
  }

  lemma EuSaApart()
    ensures EuCodes !! SaCodes
  {
  }

  lemma EuAfApart()
    ensures EuCodes !! AfCodes
  {
  }

  lemma EuAsApart()
    ensures EuCodes !! AsCodes
  {
  }

  lemma NaApart()
    ensures NaCodes !! SaCodes && NaCodes !! AfCodes && NaCodes !! AsCodes && NaCodes !! OcCodes
  {
  }

  lemma SaApart()
    ensures SaCodes !! AfCodes && SaCodes !! AsCodes && SaCodes !! OcCodes
  {
    SaAfApart();
    SaAsApart();
  }

  lemma SaAfApart()
    ensures SaCodes !! AfCodes
  {
  }

  lemma SaAsApart()
    ensures SaCodes !! AsCodes
  {
  }

  lemma AfApart()
    ensures AfCodes !! AsCodes && AfCodes !! OcCodes && AsCodes !! OcCodes
  {
    AfAsApart();
  }

  lemma AfAsApart()
    ensures AfCodes !! AsCodes
  {
  }

  /** The lookup ignores case: a code and its upper-cased form land in the same
      bucket. */
  lemma CountryToRegionIgnoresCase(code: string)
    ensures CountryToRegion(Some(code)) == CountryToRegion(Some(Upper(code)))
  {
    UpperIdempotent(code);
  }

  /** The identity record the collector stamps on every measurement. A field that
      is absent from the dictionary is `VNone`. */
  datatype ProbeIdentity = ProbeIdentity(region: Value, country: Value, city: Value, publicIp: Value, source: Value)

  /** The probe cache file as `_load_probe_cache` finds it: missing, unreadable or
      not an object, or an identity with `float(data.get("_cached_at", 0))`
      (`None` where `float()` raises). */
  datatype CacheFile =
    | NoCacheFile
    | Unreadable
    | CacheRecord(identity: ProbeIdentity, cachedAt: Option<real>)

  /** The cache is used when it carries a non-zero timestamp at most 24 hours
      old; a timestamp in the future counts as fresh. */
  predicate Fresh(cachedAt: real, now: real) {
    cachedAt != 0.0 && now - cachedAt <= CacheTtlSeconds
  }

  /** `_load_probe_cache()` at time `now`. */
  function LoadProbeCache(f: CacheFile, now: real): (r: Option<ProbeIdentity>)
    ensures r.Some? <==> f.CacheRecord? && f.cachedAt.Some? && Fresh(f.cachedAt.value, now)
    ensures r.Some? ==> r.value == f.identity
  {
    match f
    case CacheRecord(identity, Some(ts)) =>
      if ts == 0.0 then None
      else if now - ts > CacheTtlSeconds then None
      else Some(identity)
    case _ => None
  }

  /** A cache written exactly 24 hours ago is still used; one second later it is not. */
  lemma CacheFreshnessBoundary(id: ProbeIdentity, t: real)
    requires t != 0.0
    ensures LoadProbeCache(CacheRecord(id, Some(t)), t + CacheTtlSeconds) == Some(id)
    ensures LoadProbeCache(CacheRecord(id, Some(t)), t + CacheTtlSeconds + 1.0) == None
  {
  }

  /** The `GNM_PROBE_*` environment variables (`os.getenv`). */
  datatype ProbeEnv = ProbeEnv(region: Option<string>, country: Option<string>, city: Option<string>, publicIp: Option<string>)

  /** The fields of the geo-IP answer (all `VNone` when the lookup failed). */
  datatype GeoAnswer = GeoAnswer(countryCode: Value, country: Value, city: Value)

  const NoGeo := GeoAnswer(VNone, VNone, VNone)

  /** The resolved identity and the record written to the cache file, if any. */
  datatype Discovery = Discovery(identity: ProbeIdentity, saved: Option<CacheFile>)

  function EnvValue(v: Option<string>): Value {
    match v
    case None => VNone
    case Some(s) => VText(s)
  }

  predicate EnvOverride(env: ProbeEnv) {
    env.region.Some? && env.region.value != []
  }

  function EnvIdentity(env: ProbeEnv): ProbeIdentity {
    ProbeIdentity(EnvValue(env.region), EnvValue(env.country), EnvValue(env.city), EnvValue(env.publicIp), VText("env"))
  }

  /** The cache is used when it is fresh and names a region. */
  predicate CacheUsable(cache: CacheFile, now: real) {
    var c := LoadProbeCache(cache, now);
    c.Some? && Truthy(c.value.region)
  }

  /** `(geo.get("country_code") or geo.get("country") or "").upper() or None`:
      the first truthy of `country_code` and `country`, upper-cased, or `None`
      when both are falsy. A truthy value that is not a string makes `.upper()`
      raise, which nothing in `discover_probe_identity` catches. */
  function GeoCountry(geo: GeoAnswer): (r: Raises<Option<string>>)
    ensures r.Raised? <==>
              if Truthy(geo.countryCode) then !geo.countryCode.VText? else Truthy(geo.country) && !geo.country.VText?
    ensures Truthy(geo.countryCode) && geo.countryCode.VText? ==> r == Returns(Some(Upper(geo.countryCode.s)))
    ensures !Truthy(geo.countryCode) && Truthy(geo.country) && geo.country.VText? ==>
              r == Returns(Some(Upper(geo.country.s)))
    ensures !Truthy(geo.countryCode) && !Truthy(geo.country) ==> r == Returns(None)
    ensures r.Returns? && r.value.Some? ==> r.value.value != []
  {
    match Or(Or(geo.countryCode, geo.country), VText(""))
    case VText(s) => var up := Upper(s); Returns(if up == [] then None else Some(up))
    case _ => Raised
  }

  /** The identity built from a live public IP and geo-IP answer: the region is
      the bucket of the country, or "UNKNOWN" without one, so the configured
      fallback region is never used on this path. */
  function LiveIdentity(fallback: Value, publicIp: Value, country: Option<string>, geo: GeoAnswer): (id: ProbeIdentity)
    ensures id.region == VText(if country.Some? then CountryToRegion(country) else "UNKNOWN")
    ensures id.region.s in RegionNames
    ensures id.country == (if country.Some? then VText(country.value) else VNone)
    ensures id.city == (if Truthy(geo.city) then geo.city else VNone)
    ensures id.source == VText("ip_geo") && id.publicIp == publicIp
  {
    var region := if country.Some? then CountryToRegion(country) else "UNKNOWN";
    ProbeIdentity(
      if region != [] then VText(region) else fallback,
      match country case None => VNone case Some(c) => VText(c),
      Or(geo.city, VNone),
      publicIp,
      VText("ip_geo"))
  }

  /** `discover_probe_identity(cfg_region_fallback)`. */
  function Discover(fallback: Value, env: ProbeEnv, cache: CacheFile, now: real, publicIp: Value, geo: GeoAnswer): (r: Raises<Discovery>)
    ensures EnvOverride(env) ==> r == Returns(Discovery(EnvIdentity(env), None))
    ensures !EnvOverride(env) && CacheUsable(cache, now) ==>
              r == Returns(Discovery(cache.identity.(source := VText("cache")), None))
    ensures !EnvOverride(env) && !CacheUsable(cache, now) && !Truthy(publicIp) ==>
              r == Returns(Discovery(ProbeIdentity(fallback, VNone, VNone, VNone, VText("fallback_no_public_ip")), None))
    ensures r.Returns? && r.value.identity.source == VText("ip_geo") ==>
              && r.value.saved == Some(CacheRecord(r.value.identity, Some(now)))
              && r.value.identity.region.VText? && r.value.identity.region.s in RegionNames
              && r.value.identity.publicIp == publicIp
    ensures r.Raised? ==> !EnvOverride(env) && !CacheUsable(cache, now) && Truthy(publicIp)
    ensures !EnvOverride(env) && !CacheUsable(cache, now) && Truthy(publicIp) ==>
              && (r.Raised? <==> GeoCountry(geo).Raised?)
              && (r.Returns? ==> r.value.identity == LiveIdentity(fallback, publicIp, GeoCountry(geo).value, geo))
  {
    if EnvOverride(env) then Returns(Discovery(EnvIdentity(env), None))
    else if CacheUsable(cache, now) then Returns(Discovery(cache.identity.(source := VText("cache")), None))
    else if !Truthy(publicIp) then
      Returns(Discovery(ProbeIdentity(fallback, VNone, VNone, VNone, VText("fallback_no_public_ip")), None))
    else
      match GeoCountry(geo)
      case Raised => Raised
      case Returns(country) =>
        var id := LiveIdentity(fallback, publicIp, country, geo);
        Returns(Discovery(id, Some(CacheRecord(id, Some(now)))))
  }

  /** An environment override is taken verbatim and never consults the cache, the
      clock or the network: any other inputs give the same identity. */
  lemma EnvOverrideIgnoresDiscovery(fallback: Value, env: ProbeEnv, cache1: CacheFile, cache2: CacheFile,
                                    now1: real, now2: real, ip1: Value, ip2: Value, geo1: GeoAnswer, geo2: GeoAnswer)
    requires EnvOverride(env)
    ensures Discover(fallback, env, cache1, now1, ip1, geo1) == Discover(fallback, env, cache2, now2, ip2, geo2)
    ensures Discover(fallback, env, cache1, now1, ip1, geo1).value.identity.region == VText(env.region.value)
  {
  }

  /** What a live discovery writes is what the next start-up within 24 hours
      reads back: the same identity, now marked as coming from the cache, whatever
      the network would answer then. */
  lemma SavedIdentityIsReloaded(fallback: Value, env: ProbeEnv, cache: CacheFile, t0: real, ip: Value, geo: GeoAnswer,
                                t1: real, ip1: Value, geo1: GeoAnswer)
    requires !EnvOverride(env)
    requires t0 != 0.0 && t0 <= t1 <= t0 + CacheTtlSeconds
    requires Discover(fallback, env, cache, t0, ip, geo).Returns?
    requires Discover(fallback, env, cache, t0, ip, geo).value.saved.Some?
    ensures var first := Discover(fallback, env, cache, t0, ip, geo).value;
            Discover(fallback, env, first.saved.value, t1, ip1, geo1)
              == Returns(Discovery(first.identity.(source := VText("cache")), None))
  {
    var first := Discover(fallback, env, cache, t0, ip, geo).value;
    assert first.identity.source == VText("ip_geo");
    assert LoadProbeCache(first.saved.value, t1) == Some(first.identity);
  }

  /** The live branch always finds a region bucket, so its fallback to the
      configured region is never taken: the configured value has no influence on
      a live identity. */
  lemma LiveRegionIgnoresFallback(fallback1: Value, fallback2: Value, publicIp: Value, country: Option<string>, geo: GeoAnswer)
    ensures LiveIdentity(fallback1, publicIp, country, geo) == LiveIdentity(fallback2, publicIp, country, geo)
    ensures LiveIdentity(fallback1, publicIp, country, geo).region
              == VText(if country.Some? then CountryToRegion(country) else "UNKNOWN")
  {
  }
}
