/** The read side of api/api.py that decides what the dashboard shows: the
    `ttl_cache` decorator, `parse_meta_json`, `build_host_services_index`,
    `aggregate_host_health` and the host selection of `get_targets_geo`. The
    database query is the `last` map, the clock is `now`, and the cached loaders'
    file reads are their results. */
module Api {
  import opened Base
  import opened Values

  // ---------------------------------------------------------------------------
  // ttl_cache

  /** The decorator's closure state: `expires` and `value` (`None` as `None`). */
  datatype TtlState<V> = TtlState(expires: real, value: Option<V>)

  /** The state of a freshly decorated loader. */
  function InitialTtlState<V>(): TtlState<V> {
    TtlState(0.0, None)
  }

  /** `ttl_seconds` of the three cached loaders. */
  const LoaderTtlSeconds: real := 60.0

  /** What a call of the wrapped loader returns, the state it leaves, and whether
      it ran the underlying loader. */
  datatype TtlCall<V> = TtlCall(result: Raises<Option<V>>, state: TtlState<V>, calledLoader: bool)

  /** One call of `wrapped()` at time `now`, where `loaded` is what the underlying
      loader would return (or raise) if called. */
  function TtlCached<V>(st: TtlState<V>, now: real, ttl: real, loaded: Raises<Option<V>>): (r: TtlCall<V>)
    ensures !r.calledLoader <==> now < st.expires && st.value.Some?
    ensures !r.calledLoader ==> r.result == Returns(st.value) && r.state == st
    ensures r.calledLoader ==> r.result == loaded
    ensures r.calledLoader && loaded.Raised? ==> r.state == st
    ensures r.calledLoader && loaded.Returns? ==> r.state == TtlState(now + ttl, loaded.value)
  {
    if now < st.expires && st.value.Some? then TtlCall(Returns(st.value), st, false)
    else
      match loaded
      case Raised => TtlCall(Raised, st, true)
      case Returns(v) => TtlCall(Returns(v), TtlState(now + ttl, v), true)
  }

  /** A loaded value is served, without loading again, to every call made before
      `ttl` seconds have passed, whatever the loader would answer by then. */
  lemma CachedWithinTtl<V>(st: TtlState<V>, t0: real, t1: real, ttl: real, v: V, later: Raises<Option<V>>)
    requires t0 <= t1 < t0 + ttl
    requires TtlCached(st, t0, ttl, Returns(Some(v))).calledLoader
    ensures var first := TtlCached(st, t0, ttl, Returns(Some(v)));
            var second := TtlCached(first.state, t1, ttl, later);
            !second.calledLoader && second.result == Returns(Some(v))
  {
  }

  /** Once `ttl` seconds have passed, the next call loads again. */
  lemma ReloadsAfterTtl<V>(st: TtlState<V>, t0: real, t1: real, ttl: real, v: Option<V>, later: Raises<Option<V>>)
    requires t1 >= t0 + ttl
    requires TtlCached(st, t0, ttl, Returns(v)).calledLoader
    ensures TtlCached(TtlCached(st, t0, ttl, Returns(v)).state, t1, ttl, later).calledLoader
  {
  }

  /** A loader that returned `None` is called again on the very next call: `None`
      is never served from the cache. A loader that raised leaves the cache as it
      was. */
  lemma NoneIsNeverCached<V>(st: TtlState<V>, t0: real, t1: real, ttl: real, later: Raises<Option<V>>)
    requires TtlCached(st, t0, ttl, Returns(None)).calledLoader
    ensures TtlCached(TtlCached(st, t0, ttl, Returns(None)).state, t1, ttl, later).calledLoader
  {
  }

  /** The first call of a freshly decorated loader always loads. */
  lemma FirstCallLoads<V>(now: real, ttl: real, loaded: Raises<Option<V>>)
    ensures TtlCached(InitialTtlState(), now, ttl, loaded).calledLoader
  {
  }

  // ---------------------------------------------------------------------------
  // parse_meta_json

  /** `{"_meta_parse_error": True}`. */
  const ParseErrorMarker := VContainer("{'_meta_parse_error': True}", 1, true)

  /** The new content of one row's `field`, where `decode` is `json.loads` on
      text (`None` where it raises). */
  function ParseMetaCell(raw: Value, decode: string -> Option<Value>): (r: Value)
    ensures !Truthy(raw) || (raw.VContainer? && raw.isObject) ==> r == raw
    ensures raw.VText? && raw.s != [] ==> r == (if decode(raw.s).Some? then decode(raw.s).value else ParseErrorMarker)
  {
    if !Truthy(raw) then raw
    else if raw.VContainer? && raw.isObject then raw
    else match raw
      case VText(s) =>
        (match decode(s)
         case Some(v) => v
         case None => ParseErrorMarker)
      case _ => ParseErrorMarker
  }

  /** One row of `parse_meta_json`: its `field`, when present, replaced by the
      parsed cell. */
  function ParseMetaRow(row: Obj, field: string, decode: string -> Option<Value>): (r: Obj)
    ensures r.Keys == row.Keys
    ensures forall k :: k in row && k != field ==> r[k] == row[k]
    ensures field in row ==> r[field] == ParseMetaCell(row[field], decode)
  {
    if field in row then row[field := ParseMetaCell(row[field], decode)] else row
  }

  /** `parse_meta_json(rows, field)`: each row with its `field` decoded in place. */
  function ParseMetaJson(rows: seq<Obj>, field: string, decode: string -> Option<Value>): (r: seq<Obj>)
    ensures |r| == |rows|
    ensures forall i :: 0 <= i < |rows| ==> r[i].Keys == rows[i].Keys
    ensures forall i, k :: 0 <= i < |rows| && k in rows[i] && k != field ==> r[i][k] == rows[i][k]
    ensures forall i :: 0 <= i < |rows| && field in rows[i] ==> r[i][field] == ParseMetaCell(rows[i][field], decode)
  {
    seq(|rows|, i requires 0 <= i < |rows| => ParseMetaRow(rows[i], field, decode))
  }

  /** Whenever decoding yields objects, as it does for the measurements' meta
      column, a second pass changes nothing: every cell is then an object, a
      falsy value or the error marker. */
  lemma ParseMetaJsonIdempotent(rows: seq<Obj>, field: string, decode: string -> Option<Value>)
    requires forall s :: decode(s).Some? ==> decode(s).value.VContainer? && decode(s).value.isObject
    ensures ParseMetaJson(ParseMetaJson(rows, field, decode), field, decode) == ParseMetaJson(rows, field, decode)
  {
    var once := ParseMetaJson(rows, field, decode);
    var twice := ParseMetaJson(once, field, decode);
    forall i | 0 <= i < |rows| && field in rows[i]
      ensures ParseMetaCell(once[i][field], decode) == once[i][field]
    {
      var raw := rows[i][field];
      if raw.VText? && raw.s != [] && decode(raw.s).Some? {
        assert decode(raw.s).value.VContainer?;
      }
    }
    assert forall i :: 0 <= i < |rows| ==> twice[i] == once[i];
  }

  // ---------------------------------------------------------------------------
  // build_host_services_index

  /** A service entry the index lists: enabled, with a truthy host id and a
      truthy service id. */
  predicate Indexed(s: Obj) {
    Enabled(s) && Truthy(Get(s, "host_id")) && Truthy(Get(s, "service_id"))
  }

  /** The service ids the index lists under host `h`, in file order. */
  function Listed(services: seq<Obj>, h: Value): (r: seq<Value>)
    ensures |r| <= |services|
    decreases |services|
  {
    if services == [] then []
    else
      var s := services[|services| - 1];
      Listed(services[..|services| - 1], h)
        + (if Indexed(s) && Get(s, "host_id") == h then [Get(s, "service_id")] else [])
  }

  /** Some listed service has a host id that cannot be a dictionary key, so the
      index raises. */
  predicate UnkeyableHost(services: seq<Obj>) {
    exists j :: 0 <= j < |services| && Indexed(services[j]) && !Hashable(Get(services[j], "host_id"))
  }

  /** `build_host_services_index(services)`: host id → the ids of its enabled
      services. */
  method BuildHostServicesIndex(services: seq<Obj>) returns (r: Raises<map<Value, seq<Value>>>)
    ensures r.Raised? <==> UnkeyableHost(services)
    ensures r.Returns? ==> forall h :: h in r.value <==> Listed(services, h) != []
    ensures r.Returns? ==> forall h :: h in r.value ==> r.value[h] == Listed(services, h)
  {
    var idx: map<Value, seq<Value>> := map[];
    var i := 0;
    while i < |services|
      invariant 0 <= i <= |services|
      invariant !UnkeyableHost(services[..i])
      invariant IndexOf(idx, services[..i])
    {
      var s := services[i];
      IndexStep(services, i);
      if Indexed(s) && !Hashable(Get(s, "host_id")) {
        return Raised;
      }
      IndexExtends(idx, services, i);
      idx := Extend(idx, s);
      i := i + 1;
    }
    assert services[..i] == services;
    return Returns(idx);
  }

  /** `idx` is the index of `services`: its keys are the hosts with a listed
      service, each mapped to its listed service ids. */
  ghost predicate IndexOf(idx: map<Value, seq<Value>>, services: seq<Obj>) {
    forall h :: (h in idx <==> Listed(services, h) != []) && (h in idx ==> idx[h] == Listed(services, h))
  }

  /** The loop body on one entry: `idx.setdefault(hid, []).append(sid)` for an
      indexed entry, nothing otherwise. */
  function Extend(idx: map<Value, seq<Value>>, s: Obj): map<Value, seq<Value>> {
    if Indexed(s) then
      var hid := Get(s, "host_id");
      idx[hid := (if hid in idx then idx[hid] else []) + [Get(s, "service_id")]]
    else idx
  }

  lemma IndexExtends(idx: map<Value, seq<Value>>, services: seq<Obj>, i: nat)
    requires i < |services| && IndexOf(idx, services[..i])
    ensures IndexOf(Extend(idx, services[i]), services[..i + 1])
  {
    IndexStep(services, i);
  }

  /** One more service entry extends every host's list by at most its own id,
      and makes the index raise exactly when it is indexed under an unhashable
      host id. */
  lemma {:induction false} IndexStep(services: seq<Obj>, i: nat)
    requires i < |services|
    ensures forall h :: Listed(services[..i + 1], h) == Listed(services[..i], h)
              + (if Indexed(services[i]) && Get(services[i], "host_id") == h then [Get(services[i], "service_id")] else [])
    ensures UnkeyableHost(services[..i + 1]) <==>
              UnkeyableHost(services[..i]) || (Indexed(services[i]) && !Hashable(Get(services[i], "host_id")))
  {
    var pre := services[..i + 1];
    assert pre[..i] == services[..i];
    assert pre[i] == services[i];
    if UnkeyableHost(pre) && !(Indexed(services[i]) && !Hashable(Get(services[i], "host_id"))) {
      var j :| 0 <= j < |pre| && Indexed(pre[j]) && !Hashable(Get(pre[j], "host_id"));
      assert pre[j] == services[..i][j];
    }
    if UnkeyableHost(services[..i]) {
      var j :| 0 <= j < i && Indexed(services[..i][j]) && !Hashable(Get(services[..i][j], "host_id"));
      assert pre[j] == services[..i][j];
    }
  }

  // ---------------------------------------------------------------------------
  // aggregate_host_health

  /** The latest measurement of a service: `{"status": …, "latency_ms": …}`. */
  datatype LastRow = LastRow(status: int, latencyMs: int)

  /** The statuses of those ids that have a latest measurement, in order. */
  function Statuses(ids: seq<Value>, last: map<Value, LastRow>): (r: seq<int>)
    ensures forall st :: st in r <==> exists i :: 0 <= i < |ids| && ids[i] in last && last[ids[i]].status == st
    decreases |ids|
  {
    if ids == [] then []
    else
      var id := ids[|ids| - 1];
      var front := ids[..|ids| - 1];
      var r := Statuses(front, last) + (if id in last then [last[id].status] else []);
      assert forall i :: 0 <= i < |front| ==> front[i] == ids[i];
      r
  }

  /** A service whose latency counts towards the host's: not OK, with a positive
      latency. */
  predicate Contributes(ids: seq<Value>, last: map<Value, LastRow>, i: int)
    requires 0 <= i < |ids|
  {
    ids[i] in last && last[ids[i]].status > 0 && last[ids[i]].latencyMs > 0
  }

  /** The latencies of the contributing services, in order. */
  function Latencies(ids: seq<Value>, last: map<Value, LastRow>): (r: seq<int>)
    ensures forall x :: x in r <==> exists i :: 0 <= i < |ids| && Contributes(ids, last, i) && last[ids[i]].latencyMs == x
    decreases |ids|
  {
    if ids == [] then []
    else
      var id := ids[|ids| - 1];
      var front := ids[..|ids| - 1];
      var r := Latencies(front, last)
               + (if id in last && last[id].status > 0 && last[id].latencyMs > 0 then [last[id].latencyMs] else []);
      assert forall i :: 0 <= i < |front| ==> front[i] == ids[i];
      assert forall i :: 0 <= i < |front| ==> (Contributes(front, last, i) <==> Contributes(ids, last, i));
      r
  }

  /** `max(xs)`. */
  function Max(xs: seq<int>): (m: int)
    requires xs != []
    ensures m in xs && forall i :: 0 <= i < |xs| ==> xs[i] <= m
  {
    if |xs| == 1 then xs[0]
    else
      var rest := Max(xs[1..]);
      assert forall i :: 1 <= i < |xs| ==> xs[i] == xs[1..][i - 1];
      if xs[0] >= rest then xs[0] else rest
  }

  predicate AnyStatus(ids: seq<Value>, last: map<Value, LastRow>, st: int) {
    exists i :: 0 <= i < |ids| && ids[i] in last && last[ids[i]].status == st
  }

  /** `max(lats) if lats else 0`: the largest latency among the contributing
      services, or 0 when none contributes. */
  function WorstLatency(ids: seq<Value>, last: map<Value, LastRow>): (w: int)
    ensures w >= 0
    ensures forall i :: 0 <= i < |ids| && Contributes(ids, last, i) ==> last[ids[i]].latencyMs <= w
    ensures w > 0 ==> exists i :: 0 <= i < |ids| && Contributes(ids, last, i) && last[ids[i]].latencyMs == w
    ensures w == 0 ==> forall i :: 0 <= i < |ids| ==> !Contributes(ids, last, i)
  {
    var lats := Latencies(ids, last);
    LatenciesCoverContributors(ids, last);
    if lats != [] then MaxBoundsLatencies(ids, last); Max(lats) else 0
  }

  lemma LatenciesCoverContributors(ids: seq<Value>, last: map<Value, LastRow>)
    ensures forall i :: 0 <= i < |ids| && Contributes(ids, last, i) ==> last[ids[i]].latencyMs in Latencies(ids, last)
  {
    forall i | 0 <= i < |ids| && Contributes(ids, last, i)
      ensures last[ids[i]].latencyMs in Latencies(ids, last)
    {
    }
  }

  lemma MaxBoundsLatencies(ids: seq<Value>, last: map<Value, LastRow>)
    requires Latencies(ids, last) != []
    ensures forall i :: 0 <= i < |ids| && Contributes(ids, last, i) ==> last[ids[i]].latencyMs <= Max(Latencies(ids, last))
  {
    var lats := Latencies(ids, last);
    forall i | 0 <= i < |ids| && Contributes(ids, last, i)
      ensures last[ids[i]].latencyMs <= Max(lats)
    {
      var x := last[ids[i]].latencyMs;
      assert x in lats;
      var k :| 0 <= k < |lats| && lats[k] == x;
    }
  }

  /** The worst status among the services' latest measurements (2 before 1
      before anything else) and, when it is not OK, the largest latency of a
      non-OK service: what `aggregate_host_health` answers when it does not
      raise. */
  function HostHealth(ids: seq<Value>, last: map<Value, LastRow>): (r: (int, int))
    ensures 0 <= r.0 <= 2 && r.1 >= 0
    ensures r.0 == 2 <==> AnyStatus(ids, last, 2)
    ensures r.0 == 1 <==> !AnyStatus(ids, last, 2) && AnyStatus(ids, last, 1)
    ensures r.0 == 0 ==> r.1 == 0
    ensures r.0 > 0 ==> r.1 == WorstLatency(ids, last)
  {
    var statuses := Statuses(ids, last);
    assert (2 in statuses) == AnyStatus(ids, last, 2);
    assert (1 in statuses) == AnyStatus(ids, last, 1);
    if statuses == [] then (0, 0)
    else if 2 in statuses then (2, WorstLatency(ids, last))
    else if 1 in statuses then (1, WorstLatency(ids, last))
    else (0, 0)
  }

  /** Some id is a list or an object, which `last_by_service.get(sid)` rejects. */
  predicate AnyUnhashable(ids: seq<Value>) {
    exists i :: 0 <= i < |ids| && !Hashable(ids[i])
  }

  /** `aggregate_host_health(service_ids, last_by_service)`: raises on the first
      service id that cannot be a dictionary key, and otherwise answers the
      host's health. */
  function AggregateHostHealth(ids: seq<Value>, last: map<Value, LastRow>): (r: Raises<(int, int)>)
    ensures r.Raised? <==> AnyUnhashable(ids)
    ensures r.Returns? ==> r.value == HostHealth(ids, last)
  {
    if AnyUnhashable(ids) then Raised else Returns(HostHealth(ids, last))
  }

  /** A host none of whose services has been measured shows as OK with no
      latency, unless one of its service ids cannot be looked up at all. */
  lemma UnmeasuredHostIsOk(ids: seq<Value>, last: map<Value, LastRow>)
    requires forall i :: 0 <= i < |ids| ==> ids[i] !in last
    ensures AggregateHostHealth(ids, last) == if AnyUnhashable(ids) then Raised else Returns((0, 0))
  {
  }

  /** A hashable service id without a latest measurement does not change a
      host's health; an unhashable one makes the aggregation raise. */
  lemma {:induction false} UnmeasuredServiceIsIgnored(ids: seq<Value>, x: Value, last: map<Value, LastRow>)
    requires x !in last
    ensures AggregateHostHealth(ids + [x], last) == if Hashable(x) then AggregateHostHealth(ids, last) else Raised
  {
    var ids' := ids + [x];
    assert ids'[..|ids'| - 1] == ids;
    assert Statuses(ids', last) == Statuses(ids, last);
    assert Latencies(ids', last) == Latencies(ids, last);
    assert ids'[|ids|] == x;
    assert AnyUnhashable(ids') <==> AnyUnhashable(ids) || !Hashable(x) by {
      if AnyUnhashable(ids') && Hashable(x) {
        var i :| 0 <= i < |ids'| && !Hashable(ids'[i]);
        assert ids[i] == ids'[i];
      }
      if AnyUnhashable(ids) {
        var i :| 0 <= i < |ids| && !Hashable(ids[i]);
        assert ids'[i] == ids[i];
      }
    }
  }

  // ---------------------------------------------------------------------------
  // get_targets_geo

  /** One entry of the targets-geo answer (the coordinates are not modelled). */
  datatype TargetGeo = TargetGeo(id: Value, name: Value, status: int, latencyMs: int)

  /** `item.get("host_id") or item.get("id")`. */
  function ItemHostId(item: Obj): Value {
    Or(Get(item, "host_id"), Get(item, "id"))
  }

  /** The positions of the geo entries that have a host id: increasing, and
      covering every such entry. */
  function SelectedPositions(items: seq<Obj>): (ps: seq<int>)
    ensures |ps| <= |items|
    ensures forall j :: 0 <= j < |ps| ==> 0 <= ps[j] < |items| && Truthy(ItemHostId(items[ps[j]]))
    ensures forall j, k :: 0 <= j < k < |ps| ==> ps[j] < ps[k]
    ensures forall i :: 0 <= i < |items| && Truthy(ItemHostId(items[i])) ==> i in ps
    decreases |items|
  {
    if items == [] then []
    else
      var n := |items| - 1;
      var front := SelectedPositions(items[..n]);
      assert forall i :: 0 <= i < n ==> items[..n][i] == items[i];
      front + (if Truthy(ItemHostId(items[n])) then [n] else [])
  }

  /** `selected_host_ids`: the host ids of the geo entries that have one, in
      order. */
  function SelectedHostIds(items: seq<Obj>): (r: seq<Value>)
    ensures |r| <= |items|
    ensures forall j :: 0 <= j < |r| ==> Truthy(r[j])
  {
    var ps := SelectedPositions(items);
    seq(|ps|, j requires 0 <= j < |ps| => ItemHostId(items[ps[j]]))
  }

  /** `name = item.get("name") or hosts.get(hid, {}).get("name") or hid`. */
  function DisplayName(item: Obj, hosts: map<Value, Obj>, hid: Value): (name: Value)
    ensures Truthy(hid) ==> Truthy(name)
    ensures Truthy(Get(item, "name")) ==> name == Get(item, "name")
    ensures !Truthy(Get(item, "name")) && hid in hosts && Truthy(Get(hosts[hid], "name")) ==>
              name == Get(hosts[hid], "name")
    ensures !Truthy(Get(item, "name")) && !(hid in hosts && Truthy(Get(hosts[hid], "name"))) ==> name == hid
  {
    Or(Or(Get(item, "name"), if hid in hosts then Get(hosts[hid], "name") else VNone), hid)
  }

  /** The conversions whose outcome depends on the Python runtime rather than
      on the values: whether `float()` reads a text as a number (Python's float
      syntax), and whether pydantic's `str` fields accept integers and booleans
      (pydantic 1 turns them into text, pydantic 2 rejects them). */
  datatype Conversions = Conversions(textIsFloat: string -> bool, numbersAsText: bool)

  /** The least integer magnitude that `float()` refuses with `OverflowError`:
      `2^1024 - 2^970`, halfway between the largest finite double and `2^1024`,
      which rounds to even and so up to `2^1024`. */
  const FloatOverflow: int :=
    0xFFFFFFFFFFFFFC00_0000000000000000_0000000000000000_0000000000000000_0000000000000000_0000000000000000_0000000000000000_0000000000000000_0000000000000000_0000000000000000_0000000000000000_0000000000000000_0000000000000000_0000000000000000_0000000000000000_0000000000000000

  /** `float(v)` succeeds: booleans convert, integers convert when they round
      to a finite double, text converts when it spells a number, and null, lists
      and objects raise. */
  predicate FloatAccepts(v: Value, conv: Conversions) {
    match v
    case VBool(_) => true
    case VInt(i) => -FloatOverflow < i < FloatOverflow
    case VText(s) => conv.textIsFloat(s)
    case _ => false
  }

  /** `float(item["lat"])` and `float(item["lng"])` both succeed. */
  predicate CoordinatesReadable(item: Obj, conv: Conversions) {
    && "lat" in item && "lng" in item
    && FloatAccepts(item["lat"], conv) && FloatAccepts(item["lng"], conv)
  }

  /** pydantic accepts `v` for a `str` field: text always, integers and
      booleans only when the runtime turns numbers into text, null, lists and
      objects never. */
  predicate StrFieldAccepts(v: Value, conv: Conversions) {
    match v
    case VText(_) => true
    case VInt(_) => conv.numbersAsText
    case VBool(_) => conv.numbersAsText
    case _ => false
  }

  /** Validating `TargetGeo(id=hid, name=name, …)` succeeds. The name is never
      null for a truthy host id, so `Optional[str]` asks what `str` asks; the
      status and latency are integers and the coordinates came from `float()`. */
  predicate TargetFieldsValid(item: Obj, hosts: map<Value, Obj>, conv: Conversions) {
    var hid := ItemHostId(item);
    StrFieldAccepts(hid, conv) && StrFieldAccepts(DisplayName(item, hosts, hid), conv)
  }

  /** Answering for `item` raises: it has a host id that cannot be a dictionary
      key, one of that host's listed service ids cannot be one, its coordinates
      are missing or not numbers, or its host id or display name is not
      something `TargetGeo` takes as text. Entries without a host id are
      skipped and never raise. */
  predicate EntryRaises(item: Obj, hosts: map<Value, Obj>, services: seq<Obj>, conv: Conversions) {
    var hid := ItemHostId(item);
    && Truthy(hid)
    && (|| !Hashable(hid) || AnyUnhashable(Listed(services, hid))
        || !CoordinatesReadable(item, conv) || !TargetFieldsValid(item, hosts, conv))
  }

  /** The hosts of the first `limit` geo entries, each with its display name and
      its health aggregated over its enabled services' latest measurements. The
      `region` filter of the endpoint is part of the query that produced
      `last`. */
  method TargetsGeo(geo: seq<Obj>, limit: int, services: seq<Obj>, hosts: map<Value, Obj>, last: map<Value, LastRow>,
                    conv: Conversions)
    returns (r: Raises<seq<TargetGeo>>)
    requires 1 <= limit <= 500
    ensures r.Raised? <==>
              geo != [] && (UnkeyableHost(services) || exists j :: 0 <= j < |Window(geo, limit)|
                                                                 && EntryRaises(Window(geo, limit)[j], hosts, services, conv))
    ensures r.Returns? ==> r.value == Targets(Window(geo, limit), hosts, services, last)
  {
    if geo == [] {
      return Returns([]);
    }
    var items := Window(geo, limit);
    var index := BuildHostServicesIndex(services);
    if index.Raised? {
      return Raised;
    }
    r := CollectTargets(items, index.value, hosts, services, last, conv);
  }

  /** The loops of `get_targets_geo` over the selected geo entries, given the
      host → service ids index. The source looks every selected host up in the
      index before it builds any entry; since a raise discards the whole
      answer, one pass that raises at the first failing entry answers the same. */
  method CollectTargets(items: seq<Obj>, index: map<Value, seq<Value>>, hosts: map<Value, Obj>, services: seq<Obj>,
                        last: map<Value, LastRow>, conv: Conversions)
    returns (r: Raises<seq<TargetGeo>>)
    requires forall h :: h in index ==> index[h] == Listed(services, h)
    requires forall h :: h !in index ==> Listed(services, h) == []
    ensures r.Raised? <==> exists j :: 0 <= j < |items| && EntryRaises(items[j], hosts, services, conv)
    ensures r.Returns? ==> r.value == Targets(items, hosts, services, last)
  {
    var out: seq<TargetGeo> := [];
    var i := 0;
    while i < |items|
      invariant 0 <= i <= |items|
      invariant out == Targets(items[..i], hosts, services, last)
      invariant forall j :: 0 <= j < i ==> !EntryRaises(items[j], hosts, services, conv)
    {
      var item := items[i];
      GeoStep(items, i, hosts, services, last);
      var hid := ItemHostId(item);
      if Truthy(hid) {
        if !Hashable(hid) {
          return Raised;
        }
        var sids := if hid in index then index[hid] else [];
        var health := AggregateHostHealth(sids, last);
        if health.Raised? || !CoordinatesReadable(item, conv) || !TargetFieldsValid(item, hosts, conv) {
          return Raised;
        }
        out := out + [TargetEntry(item, hosts, services, last)];
      }
      i := i + 1;
    }
    assert items[..i] == items;
    return Returns(out);
  }

  /** One more geo entry extends the answer by at most the entry's own host. */
  lemma {:induction false} GeoStep(items: seq<Obj>, i: nat, hosts: map<Value, Obj>, services: seq<Obj>,
                                   last: map<Value, LastRow>)
    requires i < |items|
    ensures Targets(items[..i + 1], hosts, services, last)
              == Targets(items[..i], hosts, services, last)
                 + (if Truthy(ItemHostId(items[i])) then [TargetEntry(items[i], hosts, services, last)] else [])
  {
    assert items[..i + 1][..i] == items[..i];
    assert items[..i + 1][i] == items[i];
  }

  /** `geo_raw[:limit_hosts]`. */
  function Window(geo: seq<Obj>, limit: int): (w: seq<Obj>)
    requires limit >= 1
    ensures |w| == if |geo| < limit then |geo| else limit
    ensures |w| <= limit && w == geo[..|w|]
  {
    if |geo| < limit then geo else geo[..limit]
  }

  /** The answer entry for a geo entry with host id `ItemHostId(item)`. */
  function TargetEntry(item: Obj, hosts: map<Value, Obj>, services: seq<Obj>, last: map<Value, LastRow>): (e: TargetGeo)
    ensures e.id == ItemHostId(item) && e.name == DisplayName(item, hosts, e.id)
    ensures (e.status, e.latencyMs) == HostHealth(Listed(services, e.id), last)
  {
    var hid := ItemHostId(item);
    var health := HostHealth(Listed(services, hid), last);
    TargetGeo(hid, DisplayName(item, hosts, hid), health.0, health.1)
  }

  /** The entries of the answer for the given geo entries when none of them
      raises, in order. */
  function Targets(items: seq<Obj>, hosts: map<Value, Obj>, services: seq<Obj>, last: map<Value, LastRow>): seq<TargetGeo>
    decreases |items|
  {
    if items == [] then []
    else
      var item := items[|items| - 1];
      Targets(items[..|items| - 1], hosts, services, last)
        + (if Truthy(ItemHostId(item)) then [TargetEntry(item, hosts, services, last)] else [])
  }

  /** The j-th answer entry is built from the j-th geo entry that has a host id:
      that id, the entry's display name and the host's aggregated health. */
  lemma {:induction false} TargetsMatchSelection(items: seq<Obj>, hosts: map<Value, Obj>, services: seq<Obj>,
                                                 last: map<Value, LastRow>)
    ensures var t := Targets(items, hosts, services, last);
            var ps := SelectedPositions(items);
            && |t| == |ps|
            && forall j :: 0 <= j < |t| ==>
                 && t[j] == TargetEntry(items[ps[j]], hosts, services, last)
                 && t[j].id == SelectedHostIds(items)[j]
    decreases |items|
  {
    if items != [] {
      var n := |items| - 1;
      var front := items[..n];
      TargetsMatchSelection(front, hosts, services, last);
      var t0, ps0 := Targets(front, hosts, services, last), SelectedPositions(front);
      var t, ps := Targets(items, hosts, services, last), SelectedPositions(items);
      var selected := Truthy(ItemHostId(items[n]));
      assert t == t0 + (if selected then [TargetEntry(items[n], hosts, services, last)] else []);
      assert ps == ps0 + (if selected then [n] else []);
      forall j | 0 <= j < |t0|
        ensures t[j] == TargetEntry(items[ps[j]], hosts, services, last)
      {
        assert t[j] == t0[j] && ps[j] == ps0[j];
        assert front[ps0[j]] == items[ps0[j]];
      }
    }
  }

  /** The answer never lists more hosts than `limit_hosts`. */
  lemma TargetsWithinLimit(geo: seq<Obj>, limit: int, hosts: map<Value, Obj>, services: seq<Obj>,
                           last: map<Value, LastRow>)
    requires 1 <= limit <= 500
    ensures |Targets(Window(geo, limit), hosts, services, last)| <= limit
  {
    TargetsMatchSelection(Window(geo, limit), hosts, services, last);
  }
}
