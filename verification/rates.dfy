/**
 * The report a normal run prints (mackerel-plugin-memcached-lite.go:175-216): three gauges,
 * four per-second rates, the cache hit rate and two more gauges, each stamped with the run's
 * time. Counter differences use Go's int64 arithmetic; a value printed with %f is kept as the
 * exact quotient of the two int64 operands the source converts to float64.
 */
module Rates {
  import opened GoInt
  import opened Counters
  import opened Sequences

  /** The common prefix of the plugin's metric names. */
  const Prefix: string := "memcached-lite."

  /** The key under which a run stores its own time in the stats map. */
  const TimeKey: string := "_time_"

  /** A printed value: %d of an int64, or %f of float64(num)/float64(den). */
  datatype Value = Int(n: int64) | Ratio(num: int64, den: int64)

  /** One output line: name, value and Unix time, separated by tabs. */
  datatype Metric = Metric(name: string, value: Value, time: int64)

  /** The number a value stands for; a quotient only when its divisor is not zero. */
  function RealOf(v: Value): real
    requires v.Ratio? ==> v.den != 0
  {
    match v
    case Int(n) => n as real
    case Ratio(num, den) => num as real / den as real
  }

  /**
   * How far a counter moved since the previous run (:190-193): the int64 difference, or the
   * current value itself when that difference is negative, as after a server restart.
   */
  function Gap(cur: int64, prev: int64): (g: int64)
    ensures MinInt64 <= cur - prev <= MaxInt64 && cur >= prev ==> g == cur - prev
    ensures MinInt64 <= cur - prev <= MaxInt64 && cur < prev ==> g == cur
    ensures 0 <= cur ==> 0 <= g
    ensures 0 <= prev && MinInt64 <= cur - prev ==> g <= cur
  {
    var d := Wrap64(cur - prev);
    if d < 0 then cur else d
  }

  /** The seconds between the two runs (:175): the int64 difference of the stored times. */
  function Period(cur: Counters, prev: Counters): (p: int64)
    ensures MinInt64 <= Get(cur, TimeKey) - Get(prev, TimeKey) <= MaxInt64 ==>
              p == Get(cur, TimeKey) - Get(prev, TimeKey)
  {
    Wrap64(Get(cur, TimeKey) - Get(prev, TimeKey))
  }

  /**
   * The cache hit rate in percent (:198-212): 0 when hits + misses is not positive, otherwise
   * float64(hits*100) / float64(hits+misses), both products taken in int64.
   */
  function HitRate(hits: int64, misses: int64): (v: Value)
    ensures v.Ratio? && v.den > 0
    ensures Wrap64(hits + misses) <= 0 ==> v.num == 0
  {
    var total := Wrap64(hits + misses);
    if total <= 0 then Ratio(0, 1) else Ratio(Wrap64(hits * 100), total)
  }

  /** The map literal the rate loop ranges over (:187): metric suffix to stat name. */
  const RateTable: map<string, string> := map[
    "req-per-sec.get" := "cmd_get",
    "req-per-sec.set" := "cmd_set",
    "eviction-per-sec.total" := "evictions",
    "eviction-per-sec.unfetched" := "evicted_unfetched"]

  /** The same entries in the order the literal lists them. */
  const RatePairs: seq<(string, string)> := [
    ("req-per-sec.get", "cmd_get"),
    ("req-per-sec.set", "cmd_set"),
    ("eviction-per-sec.total", "evictions"),
    ("eviction-per-sec.unfetched", "evicted_unfetched")]

  /** The line one entry of the rate loop prints (:189-195). */
  function RateMetric(pair: (string, string), cur: Counters, prev: Counters, period: int64, now: int64): Metric
  {
    Metric(Prefix + pair.0, Ratio(Gap(Get(cur, pair.1), Get(prev, pair.1)), period), now)
  }

  /** The rate lines for the entries of pairs, in that order. */
  function RateMetrics(pairs: seq<(string, string)>, cur: Counters, prev: Counters, period: int64, now: int64): seq<Metric>
  {
    Image(pairs, pair => RateMetric(pair, cur, prev, period, now))
  }

  /** The three gauges printed before the rates (:178-183). */
  function Gauges(cur: Counters, now: int64): seq<Metric>
  {
    [Metric(Prefix + "cache-usage-byte.used", Int(Get(cur, "bytes")), now),
     Metric(Prefix + "cache-usage-byte.max", Int(Get(cur, "limit_maxbytes")), now),
     Metric(Prefix + "cache-items.current", Int(Get(cur, "curr_items")), now)]
  }

  /** The hit rate and the two connection gauges printed after the rates (:198-216). */
  function Trailer(cur: Counters, prev: Counters, now: int64): seq<Metric>
  {
    var hits := Gap(Get(cur, "get_hits"), Get(prev, "get_hits"));
    var misses := Gap(Get(cur, "get_misses"), Get(prev, "get_misses"));
    [Metric(Prefix + "cache-hit.rate", HitRate(hits, misses), now),
     Metric(Prefix + "connections.current", Int(Get(cur, "curr_connections")), now),
     Metric(Prefix + "connections.max", Int(Get(cur, "maxconns")), now)]
  }

  /** The whole report with the rate lines in the order the map literal lists them. */
  function Report(cur: Counters, prev: Counters, now: int64): seq<Metric>
  {
    Gauges(cur, now) + RateMetrics(RatePairs, cur, prev, Period(cur, prev), now) + Trailer(cur, prev, now)
  }

  /**
   * out is a report the plugin can print: Go visits the rate map in an unspecified order, so
   * the four rate lines may come in any order between the fixed lines.
   */
  ghost predicate IsReportOf(out: seq<Metric>, cur: Counters, prev: Counters, now: int64)
  {
    var r := Report(cur, prev, now);
    |out| == 10 && out[..3] == r[..3] && out[7..] == r[7..] && multiset(out[3..7]) == multiset(r[3..7])
  }

  /** The names of the ten lines, as the graph definition declares them (:228-285). */
  const MetricNames: seq<string> := [
    Prefix + "cache-usage-byte.used",
    Prefix + "cache-usage-byte.max",
    Prefix + "cache-items.current",
    Prefix + "req-per-sec.get",
    Prefix + "req-per-sec.set",
    Prefix + "eviction-per-sec.total",
    Prefix + "eviction-per-sec.unfetched",
    Prefix + "cache-hit.rate",
    Prefix + "connections.current",
    Prefix + "connections.max"]

  /** The rate map and its literal order hold the same four entries, each once. */
  lemma RateTableOrder()
    ensures Distinct(RatePairs)
    ensures forall p :: p in RateTable.Items <==> p in RatePairs
  {
    forall p ensures p in RateTable.Items <==> p in RatePairs {
      assert p in RateTable.Items <==> p.0 in RateTable && RateTable[p.0] == p.1;
    }
  }

  /** Visiting every entry of the rate map once visits the four entries of the literal, permuted. */
  lemma VisitedAll(visited: seq<(string, string)>)
    requires Distinct(visited)
    requires forall p :: p in visited <==> p in RateTable.Items
    ensures multiset(visited) == multiset(RatePairs)
    ensures |visited| == |RatePairs|
  {
    RateTableOrder();
    SameElements(visited, RatePairs);
    assert |visited| == |multiset(visited)|;
  }

  /**
   * The rate loop (:187-196): visit the entries of the rate map in any order and print one
   * line for each. Whatever the order, the lines are those of the literal order, permuted.
   */
  method EmitRates(cur: Counters, prev: Counters, period: int64, now: int64) returns (out: seq<Metric>)
    ensures multiset(out) == multiset(RateMetrics(RatePairs, cur, prev, period, now))
    ensures |out| == |RatePairs|
  {
    var f := pair => RateMetric(pair, cur, prev, period, now);
    out := [];
    var remaining := RateTable.Items;
    ghost var visited: seq<(string, string)> := [];
    while remaining != {}
      invariant remaining <= RateTable.Items
      invariant forall p :: p in visited <==> p in RateTable.Items && p !in remaining
      invariant Distinct(visited)
      invariant out == Image(visited, f)
      decreases remaining
    {
      var pair :| pair in remaining;
      ImageConcat(visited, [pair], f);
      out := out + [RateMetric(pair, cur, prev, period, now)];
      visited := visited + [pair];
      remaining := remaining - {pair};
    }
    VisitedAll(visited);
    ImagePermutation(visited, RatePairs, f);
  }

  /** A counter the previous run did not see counts in full. */
  lemma GapMissingKey(cur: Counters, prev: Counters, key: string)
    requires key !in prev
    ensures Gap(Get(cur, key), Get(prev, key)) == Get(cur, key)
  {
  }

  /** The difference wraps like Go's: far below the previous value it wraps to a large gap. */
  lemma GapWraps()
    ensures Gap(MinInt64, 1) == MaxInt64
  {
  }

  /**
   * Without int64 overflow the hit rate is 100 * hits / (hits + misses), a percentage, and 0
   * when nothing was requested.
   */
  lemma HitRateBounds(hits: int64, misses: int64)
    requires 0 <= hits && 0 <= misses
    requires hits + misses <= MaxInt64 && hits * 100 <= MaxInt64
    ensures hits + misses == 0 ==> RealOf(HitRate(hits, misses)) == 0.0
    ensures hits + misses > 0 ==>
              RealOf(HitRate(hits, misses)) == (100 * hits) as real / (hits + misses) as real
    ensures 0.0 <= RealOf(HitRate(hits, misses)) <= 100.0
  {
    var v := HitRate(hits, misses);
    if hits + misses > 0 {
      assert v == Ratio(100 * hits, hits + misses);
      QuotientAtMost((100 * hits) as real, (hits + misses) as real, 100.0);
    }
  }

  /** A non-negative quotient is at most c when the dividend is at most c times the divisor. */
  lemma QuotientAtMost(n: real, d: real, c: real)
    requires 0.0 <= n && 0.0 < d && n <= c * d
    ensures 0.0 <= n / d <= c
  {
    var q := n / d;
    assert q * d == n;
    if q > c {
      assert (q - c) * d > 0.0;
    }
  }

  /** Three hits and one miss give 75 percent. */
  lemma HitRateExample()
    ensures RealOf(HitRate(3, 1)) == 75.0
  {
  }

  /**
   * One minute after a snapshot with cmd_get at 100, a cmd_get of 160 is reported as one
   * request per second. The time is a parameter fixed by the requires so that the solver
   * keeps it as a name rather than unfolding the literal throughout.
   */
  lemma RateExample(now: int64)
    requires now == 1060
    ensures var cur := map["cmd_get" := 160, TimeKey := now];
            var prev := map["cmd_get" := 100, TimeKey := 1000];
            var m := RateMetric(RatePairs[0], cur, prev, Period(cur, prev), now);
            m.name == Prefix + "req-per-sec.get" && m.value.den != 0 && RealOf(m.value) == 1.0
  {
    var cur: Counters := map["cmd_get" := 160, TimeKey := now];
    var prev: Counters := map["cmd_get" := 100, TimeKey := 1000];
    assert Get(cur, "cmd_get") == 160 && Get(prev, "cmd_get") == 100;
    assert Get(cur, TimeKey) == 1060 && Get(prev, TimeKey) == 1000;
  }

  /** The name of a line. */
  function NameOf(m: Metric): string { m.name }

  /** The fixed lines around any ordering of the rate lines make a report. */
  lemma Assembled(cur: Counters, prev: Counters, now: int64, rates: seq<Metric>)
    requires multiset(rates) == multiset(RateMetrics(RatePairs, cur, prev, Period(cur, prev), now))
    requires |rates| == 4
    ensures IsReportOf(Gauges(cur, now) + rates + Trailer(cur, prev, now), cur, prev, now)
  {
    var out := Gauges(cur, now) + rates + Trailer(cur, prev, now);
    var r := Report(cur, prev, now);
    assert out[..3] == Gauges(cur, now) == r[..3];
    assert out[3..7] == rates;
    assert r[3..7] == RateMetrics(RatePairs, cur, prev, Period(cur, prev), now);
    assert out[7..] == Trailer(cur, prev, now) == r[7..];
  }

  /** The rate lines of a report are the four lines of the rate loop, in some order. */
  lemma ReportRates(out: seq<Metric>, cur: Counters, prev: Counters, now: int64)
    requires IsReportOf(out, cur, prev, now)
    ensures forall i :: 3 <= i < 7 ==>
              exists p :: p in RatePairs && out[i] == RateMetric(p, cur, prev, Period(cur, prev), now)
  {
    var rates := RateMetrics(RatePairs, cur, prev, Period(cur, prev), now);
    assert Report(cur, prev, now)[3..7] == rates;
    forall i | 3 <= i < 7
      ensures exists p :: p in RatePairs && out[i] == RateMetric(p, cur, prev, Period(cur, prev), now)
    {
      assert out[i] in multiset(out[3..7]) by { assert out[3..7][i - 3] == out[i]; }
      assert out[i] in rates;
      var j :| 0 <= j < 4 && rates[j] == out[i];
      assert RatePairs[j] in RatePairs;
    }
  }

  /** Every line of a report is stamped with the run's time. */
  lemma ReportTimes(out: seq<Metric>, cur: Counters, prev: Counters, now: int64)
    requires IsReportOf(out, cur, prev, now)
    ensures |out| == 10
    ensures forall i :: 0 <= i < 10 ==> out[i].time == now
  {
    ReportRates(out, cur, prev, now);
    var r := Report(cur, prev, now);
    forall i | 0 <= i < 10 ensures out[i].time == now {
      if i < 3 {
        assert out[i] == out[..3][i] == r[..3][i];
      } else if i >= 7 {
        assert out[i] == out[7..][i - 7] == r[7..][i - 7];
      }
    }
  }

  /** The report in the literal order names its lines as the graph definition lists them. */
  lemma ReportOrderNames(cur: Counters, prev: Counters, now: int64)
    ensures Image(Report(cur, prev, now), NameOf) == MetricNames
  {
    var r := Report(cur, prev, now);
    var rates := RateMetrics(RatePairs, cur, prev, Period(cur, prev), now);
    forall i | 0 <= i < 10 ensures Image(r, NameOf)[i] == MetricNames[i] {
      if 3 <= i < 7 {
        assert r[i] == rates[i - 3];
      }
    }
  }

  /** The ten metric names differ from each other. */
  lemma MetricNamesDistinct()
    ensures Distinct(MetricNames)
  {
    var suffixes := [
      "cache-usage-byte.used", "cache-usage-byte.max", "cache-items.current",
      "req-per-sec.get", "req-per-sec.set", "eviction-per-sec.total", "eviction-per-sec.unfetched",
      "cache-hit.rate", "connections.current", "connections.max"];
    forall i | 0 <= i < 10 ensures MetricNames[i][|Prefix|..] == suffixes[i] {
      assert MetricNames[i] == Prefix + suffixes[i];
    }
    forall i, j | 0 <= i < j < 10 ensures MetricNames[i] != MetricNames[j] {
      assert suffixes[i] != suffixes[j];
    }
  }

  /** A report names its lines as the graph definition does, each once. */
  lemma ReportNames(out: seq<Metric>, cur: Counters, prev: Counters, now: int64)
    requires IsReportOf(out, cur, prev, now)
    ensures multiset(Image(out, NameOf)) == multiset(MetricNames)
  {
    var r := Report(cur, prev, now);
    assert out == out[..3] + out[3..7] + out[7..];
    assert r == r[..3] + r[3..7] + r[7..];
    ImagePermutation(out[3..7], r[3..7], NameOf);
    ImageConcat(out[..3] + out[3..7], out[7..], NameOf);
    ImageConcat(out[..3], out[3..7], NameOf);
    ImageConcat(r[..3] + r[3..7], r[7..], NameOf);
    ImageConcat(r[..3], r[3..7], NameOf);
    ReportOrderNames(cur, prev, now);
  }
}
