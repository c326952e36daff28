/** The two-strike anti-flapping state machine of `run_one_service`
    (collector/collector.py): per-service `FAIL_STREAK` / `OK_STREAK` counters that
    turn the first hard-down of a run into WARN and let only a second consecutive
    one through as CRIT. The counters are an explicit value threaded through the
    calls instead of module-level dictionaries. */
module Hysteresis {
  import opened Values
  import opened Checks

  /** `FAIL_STREAK` and `OK_STREAK`, keyed by service id. */
  datatype Streaks = Streaks(fail: map<Value, nat>, ok: map<Value, nat>)

  /** The state of a freshly started collector process. */
  const NoStreaks := Streaks(map[], map[])

  /** `FAIL_STREAK.get(key, 0)`. */
  function FailCount(s: Streaks, key: Value): nat {
    if key in s.fail then s.fail[key] else 0
  }

  /** `OK_STREAK.get(key, 0)`. */
  function OkCount(s: Streaks, key: Value): nat {
    if key in s.ok then s.ok[key] else 0
  }

  const KeySoftened := "softened"

  /** What one evaluation reports, and the counters it leaves behind. */
  datatype Reported = Reported(result: CheckResult, streaks: Streaks)

  /** The hysteresis step for the service `key` given its executor result `raw`. */
  function TwoStrike(s: Streaks, key: Value, raw: CheckResult): (r: Reported)
    ensures HardDown(raw.meta) ==>
              FailCount(r.streaks, key) == FailCount(s, key) + 1 && OkCount(r.streaks, key) == 0
    ensures !HardDown(raw.meta) ==>
              FailCount(r.streaks, key) == 0 && OkCount(r.streaks, key) == OkCount(s, key) + 1
    ensures HardDown(raw.meta) && FailCount(s, key) == 0 ==>
              && r.result.status == Warn
              && r.result.latency == raw.latency
              && Get(r.result.meta, KeySoftened) == VText("first_hard_down")
              && (forall k :: k in raw.meta && k != KeySoftened ==> k in r.result.meta && r.result.meta[k] == raw.meta[k])
              && r.result.meta.Keys == raw.meta.Keys + {KeySoftened}
    ensures !(HardDown(raw.meta) && FailCount(s, key) == 0) ==> r.result == raw
    ensures forall k :: k != key ==> FailCount(r.streaks, k) == FailCount(s, k) && OkCount(r.streaks, k) == OkCount(s, k)
  {
    if HardDown(raw.meta) then
      var fails := FailCount(s, key) + 1;
      var s' := Streaks(s.fail[key := fails], s.ok[key := 0]);
      if fails < 2 then
        Reported(CheckResult(Warn, raw.latency, raw.meta[KeySoftened := VText("first_hard_down")]), s')
      else Reported(raw, s')
    else
      Reported(raw, Streaks(s.fail[key := 0], s.ok[key := OkCount(s, key) + 1]))
  }

  /** Both counters of service `key` agree in `a` and `b`. */
  predicate SameCounters(a: Streaks, b: Streaks, key: Value) {
    FailCount(a, key) == FailCount(b, key) && OkCount(a, key) == OkCount(b, key)
  }

  /** The step for `key` reads and writes only the counters of `key`: counters
      that agree there give the same report and agree there afterwards. */
  lemma TwoStrikeSeesOwnCounters(s1: Streaks, s2: Streaks, key: Value, raw: CheckResult)
    requires SameCounters(s1, s2, key)
    ensures TwoStrike(s1, key, raw).result == TwoStrike(s2, key, raw).result
    ensures SameCounters(TwoStrike(s1, key, raw).streaks, TwoStrike(s2, key, raw).streaks, key)
  {
  }

  /** A result as every executor shapes it: the hard-down flag only comes with
      status 2. */
  predicate ExecutorShaped(r: CheckResult) {
    HardDown(r.meta) ==> r.status == Crit
  }

  /** The reported statuses of one service over successive cycles, starting from
      the counters `s`; the last result is evaluated last. */
  function Replay(s: Streaks, key: Value, raws: seq<CheckResult>): (r: (seq<CheckResult>, Streaks))
    ensures |r.0| == |raws|
    decreases |raws|
  {
    if raws == [] then ([], s)
    else
      var prev := Replay(s, key, raws[..|raws| - 1]);
      var step := TwoStrike(prev.1, key, raws[|raws| - 1]);
      (prev.0 + [step.result], step.streaks)
  }

  /** The number of hard-down results at the end of `raws`. */
  function TrailingHardDowns(raws: seq<CheckResult>): nat
    ensures TrailingHardDowns(raws) <= |raws|
  {
    if raws == [] || !HardDown(raws[|raws| - 1].meta) then 0
    else TrailingHardDowns(raws[..|raws| - 1]) + 1
  }

  /** The fail counter of a service is the length of its current run of
      hard-downs, added to what the counter held before the run when every result
      so far was hard-down. */
  lemma {:induction false} FailCountIsTrailingRun(s: Streaks, key: Value, raws: seq<CheckResult>)
    ensures FailCount(Replay(s, key, raws).1, key) ==
              if TrailingHardDowns(raws) == |raws| then FailCount(s, key) + |raws| else TrailingHardDowns(raws)
    decreases |raws|
  {
    if raws != [] {
      FailCountIsTrailingRun(s, key, raws[..|raws| - 1]);
    }
  }

  /** Replaying a prefix reproduces the prefix of the reports. */
  lemma {:induction false} ReplayPrefix(s: Streaks, key: Value, raws: seq<CheckResult>, n: nat)
    requires n <= |raws|
    ensures Replay(s, key, raws[..n]).0 == Replay(s, key, raws).0[..n]
    decreases |raws|
  {
    if n < |raws| {
      assert raws[..|raws| - 1][..n] == raws[..n];
      ReplayPrefix(s, key, raws[..|raws| - 1], n);
    } else {
      assert raws[..n] == raws;
    }
  }

  /** The report at position `i` is the hysteresis step applied to the counters
      left by the `i` earlier results. */
  lemma {:induction false} ReplayAt(s: Streaks, key: Value, raws: seq<CheckResult>, i: nat)
    requires i < |raws|
    ensures Replay(s, key, raws).0[i] == TwoStrike(Replay(s, key, raws[..i]).1, key, raws[i]).result
  {
    var pre := raws[..i + 1];
    assert Replay(s, key, pre).0[i] == TwoStrike(Replay(s, key, raws[..i]).1, key, raws[i]).result by {
      ReplayLast(s, key, pre);
      assert pre[..i] == raws[..i];
      assert pre[i] == raws[i];
    }
    assert Replay(s, key, raws).0[i] == Replay(s, key, pre).0[i] by {
      ReplayPrefix(s, key, raws, i + 1);
      assert Replay(s, key, raws).0[i] == Replay(s, key, raws).0[..i + 1][i];
    }
  }

  /** The last report is the step applied to the counters left by the others. */
  lemma ReplayLast(s: Streaks, key: Value, raws: seq<CheckResult>)
    requires raws != []
    ensures Replay(s, key, raws).0[|raws| - 1]
              == TwoStrike(Replay(s, key, raws[..|raws| - 1]).1, key, raws[|raws| - 1]).result
  {
    var prev := Replay(s, key, raws[..|raws| - 1]);
    assert |prev.0| == |raws| - 1;
  }

  /** From a cold start, a hard-down is reported CRIT exactly when the previous
      cycle's result for the same service was also hard-down, and a non-hard
      result keeps the executor's status (so CRIT without the hard-down flag is
      the certificate policy's own verdict). */
  lemma {:induction false} CritOnlyWhenConfirmed(key: Value, raws: seq<CheckResult>, i: nat)
    requires forall j :: 0 <= j < |raws| ==> ExecutorShaped(raws[j])
    requires i < |raws|
    ensures HardDown(raws[i].meta) ==>
              (Replay(NoStreaks, key, raws).0[i].status == Crit <==> i > 0 && HardDown(raws[i - 1].meta))
    ensures HardDown(raws[i].meta) && !(i > 0 && HardDown(raws[i - 1].meta)) ==>
              Replay(NoStreaks, key, raws).0[i].status == Warn
    ensures !HardDown(raws[i].meta) ==> Replay(NoStreaks, key, raws).0[i] == raws[i]
  {
    ReplayAt(NoStreaks, key, raws, i);
    FailCountIsTrailingRun(NoStreaks, key, raws[..i]);
    if i > 0 {
      assert raws[..i][..i - 1] == raws[..i - 1];
      assert raws[..i][i - 1] == raws[i - 1];
    }
  }

  /** Flapping: when no two consecutive results are hard-down, no cycle is ever
      reported CRIT because of a hard-down — each one is softened to WARN. */
  lemma {:induction false} AlternatingNeverCritical(key: Value, raws: seq<CheckResult>)
    requires forall j :: 0 <= j < |raws| ==> ExecutorShaped(raws[j])
    requires forall j :: 0 < j < |raws| ==> !(HardDown(raws[j - 1].meta) && HardDown(raws[j].meta))
    ensures forall j :: 0 <= j < |raws| && HardDown(raws[j].meta) ==> Replay(NoStreaks, key, raws).0[j].status == Warn
  {
    forall j | 0 <= j < |raws| && HardDown(raws[j].meta)
      ensures Replay(NoStreaks, key, raws).0[j].status == Warn
    {
      ReplayAt(NoStreaks, key, raws, j);
      FailCountIsTrailingRun(NoStreaks, key, raws[..j]);
      if j > 0 {
        assert raws[..j][..j - 1] == raws[..j - 1];
      }
    }
  }

  /** A process restart forgets every streak: the first hard-down after it is
      always softened. */
  lemma FirstHardDownAfterRestartIsSoftened(key: Value, raw: CheckResult)
    requires HardDown(raw.meta)
    ensures TwoStrike(NoStreaks, key, raw).result.status == Warn
  {
  }

  /** Hard-down, hard-down, ok, hard-down from a cold start reports WARN, CRIT,
      the ok result unchanged, and WARN again: one success resets the streak. */
  lemma SuccessResetsStreak(key: Value, down: CheckResult, up: CheckResult)
    requires HardDown(down.meta) && down.status == Crit
    requires !HardDown(up.meta)
    ensures var out := Replay(NoStreaks, key, [down, down, up, down]).0;
            out[0].status == Warn && out[1].status == Crit && out[2] == up && out[3].status == Warn
  {
    var raws := [down, down, up, down];
    CritOnlyWhenConfirmed(key, raws, 0);
    CritOnlyWhenConfirmed(key, raws, 1);
    CritOnlyWhenConfirmed(key, raws, 2);
    CritOnlyWhenConfirmed(key, raws, 3);
  }
}
