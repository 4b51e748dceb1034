/**
 * The figures of components/PerformanceMetrics.tsx: the aggregation of one
 * `/api/latency` snapshot, the colour classes of the figures, the uptime text
 * and the Healthy/Degraded/Critical status line.
 *
 * The snapshot's `latest` object is taken as the sequence of its values
 * (`Object.values`).
 */
module PerformanceMetrics {
  import opened Options
  import opened Samples
  import opened Seqs
  import JsMath
  import Text

  datatype Metrics = Metrics(totalServers: nat, activeConnections: nat, avgLatency: int, failureRate: real)

  /** `l.rttMs !== null`. */
  predicate HasRtt(l: Sample) {
    l.rttMs.Some?
  }

  /** `l.status === 'error' || l.status === 'timeout'`. */
  predicate HasFailed(l: Sample) {
    l.status == Error || l.status == Timeout
  }

  /** The sum of the round-trip times that are present. */
  function RttSum(ls: seq<Sample>): int {
    if |ls| == 0 then 0
    else (if HasRtt(ls[0]) then ls[0].rttMs.value else 0) + RttSum(ls[1..])
  }

  /** `data.servers?.length || 0`. */
  function TotalServers(servers: Option<seq<ServerDef>>): (n: nat)
    ensures servers.None? ==> n == 0
    ensures servers.Some? ==> n == |servers.value|
  {
    if servers.Some? then |servers.value| else 0
  }

  /** `Math.round(sum / n)`. */
  function Mean(sum: int, n: nat): (r: int)
    requires n > 0
    ensures r as real - 0.5 <= sum as real / n as real < r as real + 0.5
  {
    JsMath.Round(sum as real / n as real)
  }

  /** `failed / total * 100`, or 0 with no servers. */
  function FailureRate(failed: nat, total: nat): (r: real)
    ensures total == 0 ==> r == 0.0
    ensures total > 0 ==> r * total as real == failed as real * 100.0
    ensures failed <= total ==> 0.0 <= r <= 100.0
  {
    if total > 0 then
      ShareTimesWhole(failed, total);
      failed as real / total as real * 100.0
    else
      0.0
  }

  /** `part / whole * 100` times `whole` is `part * 100`, and at most 100 when `part <= whole`. */
  lemma ShareTimesWhole(part: nat, whole: nat)
    requires whole > 0
    ensures part as real / whole as real * 100.0 * whole as real == part as real * 100.0
    ensures 0.0 <= part as real / whole as real * 100.0
    ensures part <= whole ==> part as real / whole as real * 100.0 <= 100.0
  {
    var q := part as real / whole as real;
    assert q * whole as real == part as real;
    assert q * 100.0 * whole as real == (q * whole as real) * 100.0;
    if part <= whole {
      assert q <= 1.0;
    }
  }

  /** One snapshot's figures: roster size, live servers, rounded mean rtt and the failed share in percent. */
  function Aggregate(servers: Option<seq<ServerDef>>, latest: seq<Sample>): (m: Metrics)
    ensures m.totalServers == TotalServers(servers)
    ensures m.activeConnections == |Filter(latest, HasRtt)| <= |latest|
    ensures m.activeConnections == 0 ==> m.avgLatency == 0
    ensures m.activeConnections > 0 ==> m.avgLatency == Mean(RttSum(latest), m.activeConnections)
    ensures m.failureRate == FailureRate(|Filter(latest, HasFailed)|, m.totalServers)
  {
    var total := TotalServers(servers);
    var active := |Filter(latest, HasRtt)|;
    var failed := |Filter(latest, HasFailed)|;
    var avg := if active > 0 then Mean(RttSum(latest), active) else 0;
    Metrics(total, active, avg, FailureRate(failed, total))
  }

  lemma MulStep(n: int, x: int)
    ensures (n + 1) * x == n * x + x
  {
  }

  /** Bounds on every present rtt bound their sum by the number of live samples. */
  lemma {:induction false} RttSumBounds(ls: seq<Sample>, lo: int, hi: int)
    requires forall k :: 0 <= k < |ls| && HasRtt(ls[k]) ==> lo <= ls[k].rttMs.value <= hi
    ensures |Filter(ls, HasRtt)| * lo <= RttSum(ls) <= |Filter(ls, HasRtt)| * hi
  {
    if |ls| > 0 {
      RttSumBounds(ls[1..], lo, hi);
      var n := |Filter(ls[1..], HasRtt)|;
      if HasRtt(ls[0]) {
        assert Filter(ls, HasRtt) == [ls[0]] + Filter(ls[1..], HasRtt);
        MulStep(n, lo);
        MulStep(n, hi);
      } else {
        assert Filter(ls, HasRtt) == Filter(ls[1..], HasRtt);
      }
    }
  }

  /** A sum of `n` values within `[lo, hi]`, divided by `n`, stays within `[lo, hi]`. */
  lemma MeanWithin(sum: int, n: nat, lo: int, hi: int)
    requires n > 0 && n * lo <= sum <= n * hi
    ensures lo as real <= sum as real / n as real <= hi as real
  {
    var mean := sum as real / n as real;
    assert mean * n as real == sum as real;
    assert (mean - lo as real) * n as real == sum as real - (n * lo) as real;
    assert (hi as real - mean) * n as real == (n * hi) as real - sum as real;
  }

  /** The mean latency lies within any bounds that hold every present rtt, so between the least and the greatest. */
  lemma AvgWithin(servers: Option<seq<ServerDef>>, latest: seq<Sample>, lo: int, hi: int)
    requires forall k :: 0 <= k < |latest| && HasRtt(latest[k]) ==> lo <= latest[k].rttMs.value <= hi
    requires exists k :: 0 <= k < |latest| && HasRtt(latest[k])
    ensures lo <= Aggregate(servers, latest).avgLatency <= hi
  {
    var k :| 0 <= k < |latest| && HasRtt(latest[k]);
    FilterMembership(latest, HasRtt, latest[k]);
    var n := |Filter(latest, HasRtt)|;
    RttSumBounds(latest, lo, hi);
    MeanWithin(RttSum(latest), n, lo, hi);
    JsMath.RoundWithin(RttSum(latest) as real / n as real, lo, hi);
    assert Aggregate(servers, latest).avgLatency == Mean(RttSum(latest), n);
  }

  /** With well-formed samples every sample is either live or failed, never both. */
  lemma ActivePlusFailed(servers: Option<seq<ServerDef>>, latest: seq<Sample>)
    requires forall k :: 0 <= k < |latest| ==> WellFormed(latest[k])
    ensures Aggregate(servers, latest).activeConnections + |Filter(latest, HasFailed)| == |latest|
  {
    FilterComplement(latest, HasRtt, HasFailed);
  }

  /** The failure rate is a percentage when no more samples failed than there are servers. */
  lemma FailureRateBounds(servers: Option<seq<ServerDef>>, latest: seq<Sample>)
    requires |Filter(latest, HasFailed)| <= TotalServers(servers)
    ensures 0.0 <= Aggregate(servers, latest).failureRate <= 100.0
  {
  }

  // ---------------------------------------------------------------- colours

  const GreenClass := "text-green-600 dark:text-green-400"
  const YellowClass := "text-yellow-600 dark:text-yellow-400"
  const RedClass := "text-red-600 dark:text-red-400"

  /** Green below `g`, yellow below `y`, red from `y` on. */
  function Band(x: real, g: real, y: real): (c: string)
    requires g <= y
    ensures c in {GreenClass, YellowClass, RedClass}
    ensures c == GreenClass <==> x < g
    ensures c == YellowClass <==> g <= x < y
    ensures c == RedClass <==> y <= x
  {
    if x < g then GreenClass else if x < y then YellowClass else RedClass
  }

  /** `getLatencyColor`: thresholds 50 and 100 ms. */
  function LatencyClass(latency: int): (c: string)
    ensures c == Band(latency as real, 50.0, 100.0)
    ensures c == GreenClass <==> latency < 50
    ensures c == RedClass <==> latency >= 100
  {
    if latency < 50 then GreenClass else if latency < 100 then YellowClass else RedClass
  }

  /** `getFailureRateColor`: thresholds 1 % and 3 %. */
  function FailureRateClass(rate: real): (c: string)
    ensures c == Band(rate, 1.0, 3.0)
  {
    if rate < 1.0 then GreenClass else if rate < 3.0 then YellowClass else RedClass
  }

  /** `getUsageColor`: thresholds 50 % and 80 %. */
  function UsageClass(usage: real): (c: string)
    ensures c == Band(usage, 50.0, 80.0)
  {
    if usage < 50.0 then GreenClass else if usage < 80.0 then YellowClass else RedClass
  }

  function Rank(c: string): nat {
    if c == GreenClass then 0 else if c == YellowClass then 1 else 2
  }

  /** A larger figure never gets a better class. */
  lemma BandMonotone(a: real, b: real, g: real, y: real)
    requires g <= y && a <= b
    ensures Rank(Band(a, g, y)) <= Rank(Band(b, g, y))
  {
  }

  // ----------------------------------------------------------------- uptime

  /** The hours and minutes `formatUptime` prints: `floor(s / 3600)` and `floor((s % 3600) / 60)`. */
  function UptimeParts(seconds: int): (hm: (int, int))
    ensures seconds >= 0 ==> 0 <= hm.1 < 60 && hm.0 >= 0
    ensures seconds >= 0 ==> 3600 * hm.0 + 60 * hm.1 <= seconds < 3600 * hm.0 + 60 * hm.1 + 60
  {
    (seconds / 3600, JsMath.Rem(seconds, 3600) / 60)
  }

  /** `` `${hours}h ${minutes}m` ``: two space-free words, the printed hours then 'h', the printed minutes then 'm'. */
  function FormatUptime(seconds: int): (t: string)
    ensures var hm := UptimeParts(seconds);
      Text.Split(t, ' ') == [Text.IntToString(hm.0) + "h", Text.IntToString(hm.1) + "m"]
  {
    var hm := UptimeParts(seconds);
    var hs, ms := Text.IntToString(hm.0) + "h", Text.IntToString(hm.1) + "m";
    NoSpace(hm.0);
    NoSpace(hm.1);
    Text.SplitJoin([hs, ms], ' ');
    assert Text.Join([hs, ms], ' ') == hs + " " + ms;
    hs + " " + ms
  }

  /** Reads the hours and minutes back from an uptime text. */
  function ParseUptime(t: string): Option<(int, int)> {
    var pieces := Text.Split(t, ' ');
    if |pieces| == 2 && |pieces[0]| > 0 && pieces[0][|pieces[0]| - 1] == 'h'
       && |pieces[1]| > 0 && pieces[1][|pieces[1]| - 1] == 'm'
    then
      var h := Text.ParseInt(pieces[0][..|pieces[0]| - 1]);
      var m := Text.ParseInt(pieces[1][..|pieces[1]| - 1]);
      if h.Some? && m.Some? then Some((h.value, m.value)) else None
    else None
  }

  lemma NoSpace(n: int)
    ensures ' ' !in Text.IntToString(n) + "h" && ' ' !in Text.IntToString(n) + "m"
  {
    var s := Text.IntToString(n);
    forall k | 0 <= k < |s| ensures s[k] != ' ' {}
  }

  /** The uptime text names the hours and minutes it was made from. */
  lemma UptimeRoundTrip(seconds: int)
    ensures ParseUptime(FormatUptime(seconds)) == Some(UptimeParts(seconds))
  {
    var hm := UptimeParts(seconds);
    var hs, ms := Text.IntToString(hm.0) + "h", Text.IntToString(hm.1) + "m";
    assert hs[..|hs| - 1] == Text.IntToString(hm.0);
    assert ms[..|ms| - 1] == Text.IntToString(hm.1);
    Text.IntRoundTrip(hm.0);
    Text.IntRoundTrip(hm.1);
  }

  // ----------------------------------------------------------------- status

  datatype SystemStatus = Healthy | Degraded | Critical

  /** Healthy with a live server and under 10 % failures, Degraded with a live server otherwise, else Critical. */
  function StatusOf(m: Metrics): (s: SystemStatus)
    ensures s == Healthy <==> m.activeConnections > 0 && m.failureRate < 10.0
    ensures s == Degraded <==> m.activeConnections > 0 && m.failureRate >= 10.0
    ensures s == Critical <==> m.activeConnections == 0
  {
    if m.activeConnections > 0 && m.failureRate < 10.0 then Healthy
    else if m.activeConnections > 0 then Degraded
    else Critical
  }

  /** A snapshot in which no server answered is Critical. */
  lemma NoLiveSampleIsCritical(servers: Option<seq<ServerDef>>, latest: seq<Sample>)
    requires forall k :: 0 <= k < |latest| ==> !HasRtt(latest[k])
    ensures StatusOf(Aggregate(servers, latest)) == Critical
  {
    FilterDropsAll(latest, HasRtt);
  }

  /** A snapshot in which every server of a non-empty roster answered is Healthy. */
  lemma AllLiveIsHealthy(servers: seq<ServerDef>, latest: seq<Sample>)
    requires |latest| > 0
    requires forall k :: 0 <= k < |latest| ==> WellFormed(latest[k]) && HasRtt(latest[k])
    ensures StatusOf(Aggregate(Some(servers), latest)) == Healthy
  {
    FilterKeepsAll(latest, HasRtt);
    FilterDropsAll(latest, HasFailed);
  }
}
