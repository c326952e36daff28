/** Address derivation (`resolve_host_address`), payload construction
    (`build_check_payload`) and the dispatcher (`run_check`) of
    collector/collector.py. The network is a parameter: a record of pure functions
    from the executor's arguments to the outcome it observed. */
module Dispatch {
  import opened Base
  import opened Text
  import opened Values
  import opened Thresholds
  import opened Checks

  /** The per-kind timeouts (seconds) from the `collector` configuration section. */
  datatype Timeouts = Timeouts(ping: int, http: int, dns: int, tcp: int)

  /** The outcome each probing library call would observe for the given arguments
      (host or URL, port where there is one, timeout, expected key). */
  datatype Network = Network(
    ping: (Value, int) -> PingOutcome,
    http: (Value, int) -> HttpOutcome,
    dns: (Value, int) -> DnsOutcome,
    tcp: (Value, int, int) -> TcpOutcome,
    tls: (Value, int, int) -> CertOutcome,
    jsonApi: (Value, int, Value) -> JsonOutcome)

  /** A service entry of services.json: its top-level fields and its `params`
      object (`service.get("params", {}) or {}`). */
  datatype Service = Service(fields: Obj, params: Obj)

  /** The kind-specific argument dictionary handed to `run_check`. */
  type Payload = Obj

  /** The check kinds `run_check` knows, and everything else. */
  datatype Kind = Ping | Http | Dns | Tcp | SslCert | JsonApi | Unknown

  /** The `type` field of a service, read as a check kind. */
  function KindOf(v: Value): Kind {
    if v == VText("ping") then Ping
    else if v == VText("http") then Http
    else if v == VText("dns") then Dns
    else if v == VText("tcp") then Tcp
    else if v == VText("ssl_cert") then SslCert
    else if v == VText("json_api") then JsonApi
    else Unknown
  }

  predicate KnownKind(kind: Value) {
    KindOf(kind) != Unknown
  }

  /** The kinds that cannot run without a network address. */
  predicate NeedsAddress(kind: Value) {
    KindOf(kind) in {Ping, Dns, Tcp, SslCert}
  }

  /** `key in t and t[key]`. */
  predicate Present(t: Payload, key: string) {
    key in t && Truthy(t[key])
  }

  /** The fields `run_check` demands of a payload of the given kind. */
  predicate HasRequiredFields(kind: Value, t: Payload) {
    match KindOf(kind)
    case Ping | Dns => Present(t, "host")
    case Http | JsonApi => Present(t, "url")
    case Tcp | SslCert => Present(t, "host") && "port" in t && t["port"] != VNone
    case Unknown => false
  }

  /** The dispatcher's own error result: status 2, no latency, hard down. */
  function DispatchError(error: string): (r: CheckResult)
    ensures r.status == Crit && r.latency == 0 && HardDown(r.meta)
    ensures r.meta.Keys == {KeyError, KeyHardDown}
  {
    CheckResult(Crit, 0, map[KeyError := VText(error), KeyHardDown := VBool(true)])
  }

  /** The error `run_check` reports for a payload of a known kind that lacks a
      field it requires. */
  function MissingFieldError(k: Kind): string {
    match k
    case Ping | Dns => "missing_field:host"
    case Http | JsonApi => "missing_field:url"
    case Tcp | SslCert => "missing_field:host|port"
    case Unknown => ""
  }

  /** `run_check(ttype, t, timeouts, thresholds)`: each known kind is routed to
      its own executor with its own timeout (ssl_cert shares the tcp one). It
      raises (`Raised`) only where `int(t["port"])` does. */
  function RunCheck(kind: Value, t: Payload, timeouts: Timeouts, th: Thresholds, net: Network): (r: Raises<CheckResult>)
    ensures !KnownKind(kind) ==> r == Returns(DispatchError("unknown_type:" + Render(kind)))
    ensures KnownKind(kind) && !HasRequiredFields(kind, t) ==>
              r == Returns(DispatchError(MissingFieldError(KindOf(kind))))
    ensures r.Raised? <==>
              KindOf(kind) in {Tcp, SslCert} && HasRequiredFields(kind, t) && ToInt(t["port"]).None?
    ensures r.Returns? && HardDown(r.value.meta) ==> r.value.status == Crit
    ensures r.Returns? && r.value.status == Crit && !HardDown(r.value.meta) ==> KindOf(kind) == SslCert
    ensures r.Returns? ==> r.value.meta.Keys <= ExecutorMetaKeys
    ensures KindOf(kind) == Ping && HasRequiredFields(kind, t) ==>
              r == Returns(CheckPing(net.ping(t["host"], timeouts.ping), th))
    ensures KindOf(kind) == Http && HasRequiredFields(kind, t) ==>
              r == Returns(CheckHttp(net.http(t["url"], timeouts.http), th))
    ensures KindOf(kind) == Dns && HasRequiredFields(kind, t) ==>
              r == Returns(CheckDns(net.dns(t["host"], timeouts.dns), th))
    ensures KindOf(kind) == Tcp && HasRequiredFields(kind, t) && ToInt(t["port"]).Some? ==>
              r == Returns(CheckTcp(net.tcp(t["host"], ToInt(t["port"]).value, timeouts.tcp), th))
    ensures KindOf(kind) == SslCert && HasRequiredFields(kind, t) && ToInt(t["port"]).Some? ==>
              r == Returns(CheckSslCert(net.tls(t["host"], ToInt(t["port"]).value, timeouts.tcp)))
    ensures KindOf(kind) == JsonApi && HasRequiredFields(kind, t) ==>
              r == Returns(CheckJsonApi(net.jsonApi(t["url"], timeouts.http, Get(t, "expect_key")), Get(t, "expect_key"), th))
  {
    match KindOf(kind)
    case Ping =>
      if !Present(t, "host") then Returns(DispatchError("missing_field:host"))
      else Returns(CheckPing(net.ping(t["host"], timeouts.ping), th))
    case Http =>
      if !Present(t, "url") then Returns(DispatchError("missing_field:url"))
      else Returns(CheckHttp(net.http(t["url"], timeouts.http), th))
    case Dns =>
      if !Present(t, "host") then Returns(DispatchError("missing_field:host"))
      else Returns(CheckDns(net.dns(t["host"], timeouts.dns), th))
    case Tcp =>
      if !HasRequiredFields(kind, t) then Returns(DispatchError("missing_field:host|port"))
      else
        (match ToInt(t["port"])
         case None => Raised
         case Some(port) => Returns(CheckTcp(net.tcp(t["host"], port, timeouts.tcp), th)))
    case SslCert =>
      if !HasRequiredFields(kind, t) then Returns(DispatchError("missing_field:host|port"))
      else
        (match ToInt(t["port"])
         case None => Raised
         case Some(port) => Returns(CheckSslCert(net.tls(t["host"], port, timeouts.tcp))))
    case JsonApi =>
      if !Present(t, "url") then Returns(DispatchError("missing_field:url"))
      else
        var expectKey := Get(t, "expect_key");
        Returns(CheckJsonApi(net.jsonApi(t["url"], timeouts.http, expectKey), expectKey, th))
    case Unknown => Returns(DispatchError("unknown_type:" + Render(kind)))
  }

  /** `_hostname_from_url(url)`, given `urlparse(...).hostname` as `urlHost`. A
      value that is not text makes `urlparse` raise, which gives `None`. */
  function HostnameFromUrl(url: Value, urlHost: string -> Option<string>): Option<string> {
    if !Truthy(url) then None
    else match url
      case VText(s) => urlHost(s)
      case _ => None
  }

  /** `host and host.get("address")`. */
  predicate HasAddress(host: Option<Obj>) {
    host.Some? && Truthy(Get(host.value, "address"))
  }

  /** `resolve_host_address(service, host)`: the host's own address, stripped,
      wins whenever the host has a truthy one (even when it strips to nothing);
      only otherwise is the hostname of `params.url` used. */
  function ResolveHostAddress(service: Service, host: Option<Obj>, urlHost: string -> Option<string>): (r: Option<string>)
    ensures r.Some? ==> r.value != []
    ensures HasAddress(host) ==>
              var text := Render(Get(host.value, "address"));
              && (r.None? <==> forall i :: 0 <= i < |text| ==> IsSpace(text[i]))
              && (r.Some? ==> r.value == Strip(text))
    ensures !HasAddress(host) ==>
              var hn := HostnameFromUrl(Get(service.params, "url"), urlHost);
              r == (if hn.Some? && hn.value != [] then hn else None)
  {
    if HasAddress(host) then
      var a := Strip(Render(Get(host.value, "address")));
      if a == [] then None else Some(a)
    else
      var hn := HostnameFromUrl(Get(service.params, "url"), urlHost);
      if hn.Some? && hn.value != [] then hn else None
  }

  /** A host address that is present but only whitespace yields no address at all:
      the URL's hostname is not consulted. */
  lemma BlankAddressHasNoUrlFallback(service: Service, host: Obj, urlHost: string -> Option<string>)
    requires Truthy(Get(host, "address"))
    requires forall i :: 0 <= i < |Render(Get(host, "address"))| ==> IsSpace(Render(Get(host, "address"))[i])
    ensures ResolveHostAddress(service, Some(host), urlHost) == None
  {
  }

  function AddressValue(a: Option<string>): Value {
    match a
    case None => VNone
    case Some(s) => VText(s)
  }

  /** The HTTP URL synthesised from `scheme`, the address and `path` when
      `params.url` is empty. */
  function SynthesizedUrl(params: Obj, address: string): (url: string)
    ensures |url| >= 3
  {
    Render(GetOr(params, "scheme", VText("https"))) + "://" + address + Render(GetOr(params, "path", VText("/")))
  }

  /** `build_check_payload(service, host)`: the kind and its argument dictionary. */
  function BuildCheckPayload(service: Service, host: Option<Obj>, urlHost: string -> Option<string>): (r: (Value, Payload))
    requires "type" in service.fields
    ensures r.0 == service.fields["type"]
    ensures NeedsAddress(r.0) ==>
              "host" in r.1 && r.1["host"] == AddressValue(ResolveHostAddress(service, host, urlHost))
    ensures KindOf(r.0) == SslCert ==> "port" in r.1 && r.1["port"] == GetOr(service.params, "port", VInt(443))
    ensures KindOf(r.0) == Tcp ==> "port" in r.1 && r.1["port"] == Get(service.params, "port")
    ensures KindOf(r.0) == Http ==> "url" in r.1
    ensures KindOf(r.0) == Http && Truthy(Get(service.params, "url")) ==> r.1["url"] == service.params["url"]
    ensures KindOf(r.0) == Http && !Truthy(Get(service.params, "url")) && ResolveHostAddress(service, host, urlHost).Some? ==>
              r.1["url"] == VText(SynthesizedUrl(service.params, ResolveHostAddress(service, host, urlHost).value))
    ensures KindOf(r.0) == JsonApi ==>
              r.1 == map["url" := Get(service.params, "url"), "expect_key" := Get(service.params, "expect_key")]
    ensures !KnownKind(r.0) ==> r.1 == map[]
  {
    var kind := service.fields["type"];
    var params := service.params;
    var address := ResolveHostAddress(service, host, urlHost);
    var t :=
      match KindOf(kind)
      case Ping | Dns => map["host" := AddressValue(address)]
      case Http =>
        var url := Get(params, "url");
        map["url" := if !Truthy(url) && address.Some? then VText(SynthesizedUrl(params, address.value)) else url]
      case SslCert => map["host" := AddressValue(address), "port" := GetOr(params, "port", VInt(443))]
      case JsonApi => map["url" := Get(params, "url"), "expect_key" := Get(params, "expect_key")]
      case Tcp => map["host" := AddressValue(address), "port" := Get(params, "port")]
      case Unknown => map[];
    (kind, t)
  }

  /** With neither a URL nor scheme and path configured, an HTTP check of a host
      at address `a` requests `https://a/`. */
  lemma DefaultHttpUrl(service: Service, host: Option<Obj>, urlHost: string -> Option<string>)
    requires "type" in service.fields && KindOf(service.fields["type"]) == Http
    requires "url" !in service.params && "scheme" !in service.params && "path" !in service.params
    requires ResolveHostAddress(service, host, urlHost).Some?
    ensures BuildCheckPayload(service, host, urlHost).1["url"]
              == VText("https://" + ResolveHostAddress(service, host, urlHost).value + "/")
  {
    assert !Truthy(Get(service.params, "url"));
    DefaultSynthesizedUrl(service.params, ResolveHostAddress(service, host, urlHost).value);
  }

  /** Without `scheme` and `path`, the synthesised URL is `https://<address>/`. */
  lemma DefaultSynthesizedUrl(params: Obj, address: string)
    requires "scheme" !in params && "path" !in params
    ensures SynthesizedUrl(params, address) == "https://" + address + "/"
  {
    assert Render(GetOr(params, "scheme", VText("https"))) == "https";
    assert Render(GetOr(params, "path", VText("/"))) == "/";
  }

  /** Once an address is known, the payload of a ping, dns or http check carries
      what `run_check` requires, so such an admitted service never reports a
      missing field. */
  lemma {:induction false} AddressedPayloadHasRequiredFields(service: Service, host: Option<Obj>, urlHost: string -> Option<string>)
    requires "type" in service.fields
    requires KindOf(service.fields["type"]) == Ping || KindOf(service.fields["type"]) == Dns
             || KindOf(service.fields["type"]) == Http
    requires ResolveHostAddress(service, host, urlHost).Some?
    ensures HasRequiredFields(service.fields["type"], BuildCheckPayload(service, host, urlHost).1)
  {
    if KindOf(service.fields["type"]) == Http {
      AddressedHttpPayload(service, host, urlHost);
    } else {
      AddressedHostPayload(service, host, urlHost);
    }
  }

  lemma AddressedHttpPayload(service: Service, host: Option<Obj>, urlHost: string -> Option<string>)
    requires "type" in service.fields && KindOf(service.fields["type"]) == Http
    requires ResolveHostAddress(service, host, urlHost).Some?
    ensures Present(BuildCheckPayload(service, host, urlHost).1, "url")
  {
    var t := BuildCheckPayload(service, host, urlHost).1;
    if !Truthy(Get(service.params, "url")) {
      assert t["url"] == VText(SynthesizedUrl(service.params, ResolveHostAddress(service, host, urlHost).value));
    }
  }

  lemma AddressedHostPayload(service: Service, host: Option<Obj>, urlHost: string -> Option<string>)
    requires "type" in service.fields && NeedsAddress(service.fields["type"])
    requires ResolveHostAddress(service, host, urlHost).Some?
    ensures Present(BuildCheckPayload(service, host, urlHost).1, "host")
  {
  }

  /** For tcp and ssl_cert an address is not enough: the check also needs a
      non-null port, which ssl_cert defaults to 443 and tcp does not default. */
  lemma AddressedPortPayload(service: Service, host: Option<Obj>, urlHost: string -> Option<string>)
    requires "type" in service.fields
    requires KindOf(service.fields["type"]) == Tcp || KindOf(service.fields["type"]) == SslCert
    requires ResolveHostAddress(service, host, urlHost).Some?
    ensures var t := BuildCheckPayload(service, host, urlHost).1;
            HasRequiredFields(service.fields["type"], t) <==> t["port"] != VNone
    ensures KindOf(service.fields["type"]) == Tcp ==>
              (HasRequiredFields(service.fields["type"], BuildCheckPayload(service, host, urlHost).1) <==>
                 Get(service.params, "port") != VNone)
  {
  }
}
