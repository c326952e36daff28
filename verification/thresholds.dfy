/** The `collector.thresholds` section of the configuration and the tolerant
    integer reader the executors use on it (`_tint` in collector/collector.py). */
module Thresholds {
  import opened Base
  import opened Text
  import opened Values

  /** The thresholds mapping. A section that is not a mapping at all behaves, under
      `_tint`, exactly like the empty mapping, so it is not a separate case here. */
  type Thresholds = Obj

  const PingWarnMs := 500
  const PingVerySlowMs := 1500
  const HttpWarnMs := 8000
  const HttpVerySlowMs := 20000
  const DnsWarnMs := 1200
  const TcpWarnMs := 1500
  const TcpVerySlowMs := 4000
  const JsonWarnMs := 8000
  const JsonVerySlowMs := 20000

  /** `_tint(thresholds, key, default)`: the configured value read with `int()`,
      or the default when the key is absent or `int()` raises. */
  function ThresholdInt(th: Thresholds, key: string, default: int): (r: int)
    ensures r == default || (key in th && ToInt(th[key]) == Some(r))
    ensures key in th && ToInt(th[key]).Some? ==> r == ToInt(th[key]).value
  {
    if key !in th then default
    else
      match ToInt(th[key])
      case None => default
      case Some(n) => n
  }

  /** A threshold written as a number, or as that number's decimal text with any
      surrounding whitespace, is read back as that number. */
  lemma {:induction false} ThresholdFromText(th: Thresholds, key: string, default: int, n: int, pad: string)
    requires forall i :: 0 <= i < |pad| ==> IsSpace(pad[i])
    requires key in th && th[key] == VText(pad + IntText(n) + pad)
    ensures ThresholdInt(th, key, default) == n
  {
    ParsePadded(n, pad);
  }

  lemma {:induction false} ParsePadded(n: int, pad: string)
    requires forall i :: 0 <= i < |pad| ==> IsSpace(pad[i])
    ensures ParseInt(pad + IntText(n) + pad) == Some(n)
  {
    var t := IntText(n);
    var s := pad + t + pad;
    assert s == pad + (t + pad);
    TrimLeftPad(pad, t + pad);
    assert TrimLeft(s) == t + pad;
    TrimRightPad(t, pad);
    assert Strip(s) == t;
    StripKeepsTrimmed(t);
    ParseIntText(n);
  }

  lemma {:induction false} TrimLeftPad(pad: string, rest: string)
    requires forall i :: 0 <= i < |pad| ==> IsSpace(pad[i])
    requires rest != [] && !IsSpace(rest[0])
    ensures TrimLeft(pad + rest) == rest
    decreases |pad|
  {
    var s := pad + rest;
    if pad != [] {
      assert s[0] == pad[0] && IsSpace(s[0]);
      assert s[1..] == pad[1..] + rest;
      assert TrimLeft(s) == TrimLeft(s[1..]);
      TrimLeftPad(pad[1..], rest);
    } else {
      assert s == rest;
      assert s != [] && !IsSpace(s[0]);
    }
  }

  lemma {:induction false} TrimRightPad(body: string, pad: string)
    requires forall i :: 0 <= i < |pad| ==> IsSpace(pad[i])
    requires body != [] && !IsSpace(body[|body| - 1])
    ensures TrimRight(body + pad) == body
    decreases |pad|
  {
    if pad != [] {
      assert (body + pad)[..|body + pad| - 1] == body + pad[..|pad| - 1];
      TrimRightPad(body, pad[..|pad| - 1]);
    } else {
      assert body + pad == body;
    }
  }

  /** A null, list or object threshold, or one written as blank text, is one
      that `int()` rejects: it falls back to the default instead of failing the
      check. */
  lemma UnreadableThresholdUsesDefault(th: Thresholds, key: string, default: int)
    requires key in th && (th[key].VNone? || th[key].VContainer? || (th[key].VText? && Strip(th[key].s) == []))
    ensures ThresholdInt(th, key, default) == default
  {
  }
}
