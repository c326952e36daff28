/** The six check executors of collector/collector.py (`check_ping`, `check_http`,
    `check_dns`, `check_tcp`, `check_ssl_cert`, `check_json_api`) with their I/O
    replaced by the observed outcome: each is a pure classification of that
    outcome into `(status, latency_ms, meta)`. */
module Checks {
  import opened Base
  import opened Text
  import opened Values
  import opened Thresholds

  /** 0 = OK, 1 = WARN, 2 = CRIT. */
  type Status = s: int | 0 <= s <= 2

  const Ok: Status := 0
  const Warn: Status := 1
  const Crit: Status := 2

  /** What an executor returns: status, elapsed milliseconds and diagnostic meta. */
  datatype CheckResult = CheckResult(status: Status, latency: nat, meta: Obj)

  const KeyReturnCode := "returncode"
  const KeyError := "error"
  const KeyHardDown := "hard_down"
  const KeyReason := "reason"
  const KeySlowLevel := "slow_level"
  const KeyHttpStatus := "http_status"
  const KeyRrset := "rrset"
  const KeyNotAfter := "not_after"
  const KeyDaysLeft := "days_left"
  const KeyHasKey := "has_key"

  /** Every key an executor may put into its meta. */
  const ExecutorMetaKeys: set<string> :=
    {KeyReturnCode, KeyError, KeyHardDown, KeyReason, KeySlowLevel, KeyHttpStatus,
     KeyRrset, KeyNotAfter, KeyDaysLeft, KeyHasKey}

  /** `bool(meta.get("hard_down"))`: the result is a network-level failure. */
  predicate HardDown(meta: Obj) {
    Truthy(Get(meta, KeyHardDown))
  }

  /** Every executor's exception handler: status 2 with the error text and the
      hard-down flag added to whatever meta was recorded before the failure. */
  function HardFailure(meta: Obj, error: string, latency: nat): (r: CheckResult)
    ensures r.status == Crit && r.latency == latency && HardDown(r.meta)
    ensures Get(r.meta, KeyError) == VText(error)
    ensures r.meta.Keys == meta.Keys + {KeyError, KeyHardDown}
    ensures forall k :: k in meta && k != KeyError && k != KeyHardDown ==> r.meta[k] == meta[k]
  {
    CheckResult(Crit, latency, meta[KeyError := VText(error)][KeyHardDown := VBool(true)])
  }

  /** The shared latency tail of the executors once the protocol exchange has
      succeeded: OK below `warn`, otherwise WARN with a reason and, when the
      executor has a very-slow tier, a `slow_level` of "very" or "mild". */
  function LatencyVerdict(latency: nat, warn: int, verySlow: Option<int>, reason: string, meta: Obj): (r: CheckResult)
    ensures r.latency == latency
    ensures r.status == Ok <==> latency < warn
    ensures r.status != Crit
    ensures r.status == Ok ==> r.meta == meta
    ensures r.status == Warn ==> Get(r.meta, KeyReason) == VText(reason)
    ensures r.status == Warn && verySlow.Some? ==>
              (Get(r.meta, KeySlowLevel) == VText("very") <==> latency >= verySlow.value)
              && Get(r.meta, KeySlowLevel) in {VText("very"), VText("mild")}
    ensures r.meta.Keys <= meta.Keys + {KeyReason, KeySlowLevel}
    ensures forall k :: k in meta && k != KeyReason && k != KeySlowLevel ==> k in r.meta && r.meta[k] == meta[k]
  {
    if latency < warn then CheckResult(Ok, latency, meta)
    else
      var m := meta[KeyReason := VText(reason)];
      match verySlow
      case None => CheckResult(Warn, latency, m)
      case Some(v) => CheckResult(Warn, latency, m[KeySlowLevel := VText(if latency >= v then "very" else "mild")])
  }

  // ---------------------------------------------------------------- ping

  /** What running `ping -c 1 -W <timeout> <host>` produced. */
  datatype PingOutcome =
    | PingExited(returnCode: int, stderr: string, latency: nat)
    | PingFailed(message: string, latency: nat)

  function CheckPing(o: PingOutcome, th: Thresholds): (r: CheckResult)
    ensures r.latency == o.latency
    ensures r.status == Crit <==> o.PingFailed? || o.returnCode != 0
    ensures HardDown(r.meta) <==> r.status == Crit
    ensures o.PingExited? ==> Get(r.meta, KeyReturnCode) == VInt(o.returnCode)
    ensures o.PingExited? && o.returnCode != 0 ==>
              Get(r.meta, KeyError) == VText(if Strip(o.stderr) == [] then "ping_failed" else Strip(o.stderr))
    ensures o.PingExited? && o.returnCode == 0 ==>
              (r.status == Ok <==> o.latency < ThresholdInt(th, "ping_warn_ms", PingWarnMs))
    ensures o.PingExited? && o.returnCode == 0 && r.status == Warn ==>
              && Get(r.meta, KeyReason) == VText("slow_ping")
              && (Get(r.meta, KeySlowLevel) == VText("very") <==> o.latency >= ThresholdInt(th, "ping_very_slow_ms", PingVerySlowMs))
    ensures r.meta.Keys <= ExecutorMetaKeys
  {
    var warn := ThresholdInt(th, "ping_warn_ms", PingWarnMs);
    var verySlow := ThresholdInt(th, "ping_very_slow_ms", PingVerySlowMs);
    match o
    case PingFailed(msg, latency) => HardFailure(map[], msg, latency)
    case PingExited(code, stderr, latency) =>
      var meta := map[KeyReturnCode := VInt(code)];
      if code != 0 then
        var err := Strip(stderr);
        HardFailure(meta, if err == [] then "ping_failed" else err, latency)
      else LatencyVerdict(latency, warn, Some(verySlow), "slow_ping", meta)
  }

  // ---------------------------------------------------------------- http

  /** What `requests.get(url, ...)` produced: a response, a timeout, or any other
      exception (a `RequestException` or not, both handled alike). */
  datatype HttpOutcome =
    | HttpResponse(code: int, latency: nat)
    | HttpTimedOut(latency: nat)
    | HttpFailed(message: string, latency: nat)

  function CheckHttp(o: HttpOutcome, th: Thresholds): (r: CheckResult)
    ensures r.latency == o.latency
    ensures r.status == Crit <==> !o.HttpResponse?
    ensures HardDown(r.meta) <==> !o.HttpResponse?
    ensures o.HttpTimedOut? ==> Get(r.meta, KeyError) == VText("timeout")
    ensures o.HttpResponse? ==> Get(r.meta, KeyHttpStatus) == VInt(o.code)
    ensures o.HttpResponse? && o.code >= 500 ==> r.status == Warn && Get(r.meta, KeyReason) == VText("http_5xx")
    ensures o.HttpResponse? && 400 <= o.code < 500 ==> r.status == Warn && Get(r.meta, KeyReason) == VText("http_4xx")
    ensures o.HttpResponse? && o.code < 400 ==>
              (r.status == Ok <==> o.latency < ThresholdInt(th, "http_warn_ms", HttpWarnMs))
    ensures o.HttpResponse? && o.code < 400 && r.status == Warn ==>
              && Get(r.meta, KeyReason) == VText("slow_http")
              && (Get(r.meta, KeySlowLevel) == VText("very") <==> o.latency >= ThresholdInt(th, "http_very_slow_ms", HttpVerySlowMs))
    ensures r.meta.Keys <= ExecutorMetaKeys
  {
    var warn := ThresholdInt(th, "http_warn_ms", HttpWarnMs);
    var verySlow := ThresholdInt(th, "http_very_slow_ms", HttpVerySlowMs);
    match o
    case HttpTimedOut(latency) => HardFailure(map[], "timeout", latency)
    case HttpFailed(msg, latency) => HardFailure(map[], msg, latency)
    case HttpResponse(code, latency) =>
      var meta := map[KeyHttpStatus := VInt(code)];
      if code >= 500 then CheckResult(Warn, latency, meta[KeyReason := VText("http_5xx")])
      else if 400 <= code < 500 then CheckResult(Warn, latency, meta[KeyReason := VText("http_4xx")])
      else LatencyVerdict(latency, warn, Some(verySlow), "slow_http", meta)
  }

  // ---------------------------------------------------------------- dns

  /** What resolving the A record produced: the answer's text or an exception. */
  datatype DnsOutcome =
    | DnsAnswer(rrset: string, latency: nat)
    | DnsFailed(message: string, latency: nat)

  function CheckDns(o: DnsOutcome, th: Thresholds): (r: CheckResult)
    ensures r.latency == o.latency
    ensures r.status == Crit <==> o.DnsFailed?
    ensures HardDown(r.meta) <==> o.DnsFailed?
    ensures o.DnsAnswer? ==> Get(r.meta, KeyRrset) == VText(o.rrset)
    ensures o.DnsAnswer? ==> (r.status == Ok <==> o.latency < ThresholdInt(th, "dns_warn_ms", DnsWarnMs))
    ensures o.DnsAnswer? && r.status == Warn ==> Get(r.meta, KeyReason) == VText("slow_dns")
    ensures KeySlowLevel !in r.meta
    ensures r.meta.Keys <= ExecutorMetaKeys
  {
    var warn := ThresholdInt(th, "dns_warn_ms", DnsWarnMs);
    match o
    case DnsFailed(msg, latency) => HardFailure(map[], msg, latency)
    case DnsAnswer(rrset, latency) =>
      LatencyVerdict(latency, warn, None, "slow_dns", map[KeyRrset := VText(rrset)])
  }

  // ---------------------------------------------------------------- tcp

  /** Whether `socket.create_connection((host, port))` connected. */
  datatype TcpOutcome =
    | TcpConnected(latency: nat)
    | TcpFailed(message: string, latency: nat)

  function CheckTcp(o: TcpOutcome, th: Thresholds): (r: CheckResult)
    ensures r.latency == o.latency
    ensures r.status == Crit <==> o.TcpFailed?
    ensures HardDown(r.meta) <==> o.TcpFailed?
    ensures o.TcpConnected? ==> (r.status == Ok <==> o.latency < ThresholdInt(th, "tcp_warn_ms", TcpWarnMs))
    ensures o.TcpConnected? && r.status == Warn ==>
              Get(r.meta, KeyReason) == VText("slow_tcp") &&
              (Get(r.meta, KeySlowLevel) == VText("very") <==> o.latency >= ThresholdInt(th, "tcp_very_slow_ms", TcpVerySlowMs))
    ensures r.meta.Keys <= ExecutorMetaKeys
  {
    var warn := ThresholdInt(th, "tcp_warn_ms", TcpWarnMs);
    var verySlow := ThresholdInt(th, "tcp_very_slow_ms", TcpVerySlowMs);
    match o
    case TcpFailed(msg, latency) => HardFailure(map[], msg, latency)
    case TcpConnected(latency) => LatencyVerdict(latency, warn, Some(verySlow), "slow_tcp", map[])
  }

  // ---------------------------------------------------------------- ssl_cert

  /** What the TLS handshake produced: the certificate's `notAfter` (as ISO text)
      and the whole days left until it, or an exception (connection, handshake or
      date parsing). */
  datatype CertOutcome =
    | CertExpiry(notAfter: string, daysLeft: int, latency: nat)
    | CertFailed(message: string, latency: nat)

  /** The certificate policy: no latency threshold, only days left. */
  function CheckSslCert(o: CertOutcome): (r: CheckResult)
    ensures r.latency == o.latency
    ensures o.CertExpiry? ==> (r.status == Ok <==> o.daysLeft >= 30)
    ensures o.CertExpiry? ==> (r.status == Warn <==> 7 <= o.daysLeft < 30)
    ensures o.CertExpiry? ==> (r.status == Crit <==> o.daysLeft < 7)
    ensures o.CertExpiry? ==> Get(r.meta, KeyDaysLeft) == VInt(o.daysLeft)
    ensures o.CertFailed? ==> r.status == Crit
    ensures HardDown(r.meta) <==> o.CertFailed?
    ensures r.meta.Keys <= ExecutorMetaKeys
  {
    match o
    case CertFailed(msg, latency) => HardFailure(map[], msg, latency)
    case CertExpiry(notAfter, days, latency) =>
      var meta := map[KeyNotAfter := VText(notAfter), KeyDaysLeft := VInt(days)];
      CheckResult(if days >= 30 then Ok else if days >= 7 then Warn else Crit, latency, meta)
  }

  /** More days left never makes the certificate verdict worse. */
  lemma CertPolicyMonotone(notAfter: string, d1: int, d2: int, latency: nat)
    requires d1 <= d2
    ensures CheckSslCert(CertExpiry(notAfter, d2, latency)).status <= CheckSslCert(CertExpiry(notAfter, d1, latency)).status
  {
  }

  /** For every latency-graded executor, a slower answer is never reported
      better than a faster one under the same thresholds (for json_api, a 200
      answer that decodes and holds the expected key, if any). */
  lemma SlowerIsNeverBetter(th: Thresholds, l1: nat, l2: nat)
    requires l1 <= l2
    ensures CheckPing(PingExited(0, "", l1), th).status <= CheckPing(PingExited(0, "", l2), th).status
    ensures CheckTcp(TcpConnected(l1), th).status <= CheckTcp(TcpConnected(l2), th).status
    ensures CheckDns(DnsAnswer("", l1), th).status <= CheckDns(DnsAnswer("", l2), th).status
    ensures forall code :: 200 <= code < 400 ==>
              CheckHttp(HttpResponse(code, l1), th).status <= CheckHttp(HttpResponse(code, l2), th).status
    ensures forall key: Value ::
              CheckJsonApi(JsonResponse(200, JsonDoc(KeyPresent), l1), key, th).status
                <= CheckJsonApi(JsonResponse(200, JsonDoc(KeyPresent), l2), key, th).status
  {
  }

  // ---------------------------------------------------------------- json_api

  /** What `expect_key in data` did on the decoded body: found the key, did not,
      or raised (the body decoded to a number, a boolean or null), in which case
      the executor's generic handler measured a new elapsed time. */
  datatype KeyProbe = KeyPresent | KeyMissing | KeyProbeFailed(message: string, latency: nat)

  /** Whether `resp.json()` decoded the body. */
  datatype JsonBody = NotJson | JsonDoc(key: KeyProbe)

  datatype JsonOutcome =
    | JsonResponse(code: int, body: JsonBody, latency: nat)
    | JsonTimedOut(latency: nat)
    | JsonFailed(message: string, latency: nat)

  /** The key test raised inside the executor's `try`. */
  predicate KeyTestRaises(o: JsonOutcome, expectKey: Value) {
    && o.JsonResponse? && o.code == 200 && o.body.JsonDoc?
    && Truthy(expectKey) && o.body.key.KeyProbeFailed?
  }

  /** The response passed every semantic test (200, decodable, key present if one
      is expected), so only latency decides. */
  predicate JsonSemanticallyOk(o: JsonOutcome, expectKey: Value) {
    && o.JsonResponse? && o.code == 200 && o.body.JsonDoc?
    && (Truthy(expectKey) ==> o.body.key.KeyPresent?)
  }

  function CheckJsonApi(o: JsonOutcome, expectKey: Value, th: Thresholds): (r: CheckResult)
    ensures r.status == Crit <==> !o.JsonResponse? || KeyTestRaises(o, expectKey)
    ensures HardDown(r.meta) <==> r.status == Crit
    ensures o.JsonResponse? ==> Get(r.meta, KeyHttpStatus) == VInt(o.code)
    ensures o.JsonResponse? && o.code != 200 ==>
              r.status == Warn && Get(r.meta, KeyReason) == VText("http_" + IntText(o.code))
    ensures o.JsonResponse? && o.code == 200 && o.body.NotJson? ==>
              r.status == Warn && Get(r.meta, KeyError) == VText("json_decode_failed")
    ensures o.JsonResponse? && o.code == 200 && o.body.JsonDoc? && Truthy(expectKey) && o.body.key.KeyMissing? ==>
              r.status == Warn && Get(r.meta, KeyError) == VText("missing_key:" + Render(expectKey))
                && Get(r.meta, KeyHasKey) == VBool(false)
    ensures JsonSemanticallyOk(o, expectKey) ==>
              (r.status == Ok <==> o.latency < ThresholdInt(th, "json_warn_ms", JsonWarnMs))
    ensures JsonSemanticallyOk(o, expectKey) && r.status == Warn ==>
              && Get(r.meta, KeyReason) == VText("slow_json_api")
              && (Get(r.meta, KeySlowLevel) == VText("very") <==> o.latency >= ThresholdInt(th, "json_very_slow_ms", JsonVerySlowMs))
    ensures o.JsonTimedOut? ==> Get(r.meta, KeyError) == VText("timeout")
    ensures !KeyTestRaises(o, expectKey) ==> r.latency == o.latency
    ensures r.meta.Keys <= ExecutorMetaKeys
  {
    var warn := ThresholdInt(th, "json_warn_ms", JsonWarnMs);
    var verySlow := ThresholdInt(th, "json_very_slow_ms", JsonVerySlowMs);
    match o
    case JsonTimedOut(latency) => HardFailure(map[], "timeout", latency)
    case JsonFailed(msg, latency) => HardFailure(map[], msg, latency)
    case JsonResponse(code, body, latency) =>
      var meta := map[KeyHttpStatus := VInt(code)];
      if code != 200 then CheckResult(Warn, latency, meta[KeyReason := VText("http_" + IntText(code))])
      else
        match body
        case NotJson => CheckResult(Warn, latency, meta[KeyError := VText("json_decode_failed")])
        case JsonDoc(key) =>
          if !Truthy(expectKey) then LatencyVerdict(latency, warn, Some(verySlow), "slow_json_api", meta)
          else
            match key
            case KeyProbeFailed(msg, failedAt) => HardFailure(meta, msg, failedAt)
            case KeyMissing =>
              CheckResult(Warn, latency, meta[KeyHasKey := VBool(false)][KeyError := VText("missing_key:" + Render(expectKey))])
            case KeyPresent =>
              LatencyVerdict(latency, warn, Some(verySlow), "slow_json_api", meta[KeyHasKey := VBool(true)])
  }
}
