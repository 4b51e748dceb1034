/**
 * The data logic of components/GlobeClient.tsx, apart from rendering: which
 * servers pass the filters, the points drawn for them, the arcs between every
 * pair of them, and the time window asked for when a server is selected.
 */
module GlobeClient {
  import opened Options
  import opened Samples
  import opened Seqs
  import opened ControlPanel
  import JsMath
  import Text
  import Utils
  import HistoryRoute
  import LatencyWorker

  /** `latest[id]?.rttMs ?? null`. */
  function RttOf(latest: map<string, Sample>, id: string): Option<int> {
    if id in latest then latest[id].rttMs else None
  }

  /** The three conditions of the server filter. */
  predicate Passes(f: Filters, latest: map<string, Sample>, s: ServerDef) {
    && s.provider in f.providers
    && (|f.exchanges| == 0 || s.exchange in f.exchanges)
    && (RttOf(latest, s.id).None? ||
        (f.latencyRange.min <= RttOf(latest, s.id).value && RttOf(latest, s.id).value <= f.latencyRange.max))
  }

  /** `servers.filter(...)`: the servers that pass, in roster order. */
  function FilterServers(servers: seq<ServerDef>, f: Filters, latest: map<string, Sample>): (r: seq<ServerDef>)
    ensures IsSubsequence(r, servers)
    ensures forall s :: s in r <==> s in servers && Passes(f, latest, s)
    ensures forall s :: multiset(r)[s] == if Passes(f, latest, s) then multiset(servers)[s] else 0
  {
    var keep := (s: ServerDef) => Passes(f, latest, s);
    FilterCountsAll(servers, keep);
    FilterMembers(servers, keep);
    FilterIsSubsequence(servers, keep);
    Filter(servers, keep)
  }

  /** After a reset, a server of a known provider passes unless its rtt lies outside 0..1000. */
  lemma ResetFilterAdmits(latest: map<string, Sample>, s: ServerDef)
    requires s.provider in ProviderIds
    ensures Passes(ResetFilters(), latest, s) <==>
      RttOf(latest, s.id).None? || 0 <= RttOf(latest, s.id).value <= 1000
  {
  }

  /** `getProviderColor`. */
  function ProviderColor(provider: string): (c: string)
    ensures provider == "AWS" <==> c == "#FF9900"
    ensures provider == "GCP" <==> c == "#4285F4"
    ensures provider == "Azure" <==> c == "#00BCF2"
    ensures provider !in {"AWS", "GCP", "Azure"} <==> c == "#8B5CF6"
  {
    if provider == "AWS" then "#FF9900"
    else if provider == "GCP" then "#4285F4"
    else if provider == "Azure" then "#00BCF2"
    else "#8B5CF6"
  }

  datatype Point = Point(id: string, lat: real, lng: real, size: real, color: string, labelText: string)

  /** The point's tooltip: exchange, provider, region, address and the rtt, status or 'n/a'. */
  function PointLabel(s: ServerDef, latest: map<string, Sample>): string {
    var rtt := RttOf(latest, s.id);
    s.exchange + " (" + s.provider + ")\n" + s.regionCode + "\n" + s.host + ":" + Text.IntToString(s.port) +
    "\nLatency: " +
    (if rtt.Some? then Text.IntToString(rtt.value) + " ms"
     else if s.id in latest then StatusText(latest[s.id].status)
     else "n/a")
  }

  /** One point per filtered server, in order, carrying its id, position and provider colour. */
  function BuildPoints(filtered: seq<ServerDef>, latest: map<string, Sample>): (pts: seq<Point>)
    ensures |pts| == |filtered|
    ensures forall k :: 0 <= k < |pts| ==>
      pts[k].id == filtered[k].id && pts[k].lat == filtered[k].lat && pts[k].lng == filtered[k].lng &&
      pts[k].color == ProviderColor(filtered[k].provider)
  {
    seq(|filtered|, k requires 0 <= k < |filtered| =>
      Point(filtered[k].id, filtered[k].lat, filtered[k].lng, 0.8, ProviderColor(filtered[k].provider),
            PointLabel(filtered[k], latest)))
  }

  // ------------------------------------------------------------------ arcs

  /** A JavaScript truthy rtt: present and not zero. */
  predicate Truthy(r: Option<int>) {
    r.Some? && r.value != 0
  }

  /** `ra || 9999`. */
  function OrPenalty(r: Option<int>): int {
    if Truthy(r) then r.value else 9999
  }

  /** The pair's average: none when both rtts are falsy, else the rounded mean with 9999 for a falsy one. */
  function PairAverage(ra: Option<int>, rb: Option<int>): (avg: Option<int>)
    ensures avg.None? <==> !Truthy(ra) && !Truthy(rb)
    ensures Truthy(ra) && Truthy(rb) ==> avg == Some(JsMath.Round((ra.value + rb.value) as real / 2.0))
    ensures Truthy(ra) && Truthy(rb) ==>
      (if ra.value <= rb.value then ra.value else rb.value) <= avg.value <=
      (if ra.value <= rb.value then rb.value else ra.value)
    ensures Truthy(ra) != Truthy(rb) ==>
      avg == Some(JsMath.Round(((if Truthy(ra) then ra.value else rb.value) + 9999) as real / 2.0))
  {
    if Truthy(ra) || Truthy(rb) then
      var mean := (OrPenalty(ra) + OrPenalty(rb)) as real / 2.0;
      if Truthy(ra) && Truthy(rb) then
        JsMath.RoundWithin(mean, if ra.value <= rb.value then ra.value else rb.value,
                                 if ra.value <= rb.value then rb.value else ra.value);
        Some(JsMath.Round(mean))
      else
        Some(JsMath.Round(mean))
    else
      None
  }

  /** The latency-mode arc colour, written as its own chain; it is the colour `latencyColor` gives. */
  function LatencyArcColor(avg: Option<int>): (c: string)
    ensures c == Utils.LatencyColor(avg)
  {
    if avg.None? then "#888888"
    else if avg.value < 50 then "#00ff7f"
    else if avg.value < 150 then "#ffeb3b"
    else "#ff4d4f"
  }

  /** `regionCode.split('-')[0]`. */
  function RegionOf(regionCode: string): (r: string)
    ensures '-' !in r
    ensures |r| <= |regionCode| && regionCode[..|r|] == r
    ensures |r| == |regionCode| || regionCode[|r|] == '-'
  {
    Text.SplitFirst(regionCode, '-');
    Text.Split(regionCode, '-')[0]
  }

  datatype Style = Style(color: string, stroke: real, altitude: real, dash: Option<(int, int)>)

  /** The topology-mode style, chosen by same provider and same region. */
  function TopologyStyle(a: ServerDef, b: ServerDef): (st: Style)
    ensures st.color == "#10B981" <==> a.provider == b.provider && RegionOf(a.regionCode) == RegionOf(b.regionCode)
    ensures st.color == "#3B82F6" <==> a.provider == b.provider && RegionOf(a.regionCode) != RegionOf(b.regionCode)
    ensures st.color == "#F59E0B" <==> a.provider != b.provider && RegionOf(a.regionCode) == RegionOf(b.regionCode)
    ensures st.color == "#EF4444" <==> a.provider != b.provider && RegionOf(a.regionCode) != RegionOf(b.regionCode)
  {
    var sameProvider := a.provider == b.provider;
    var sameRegion := RegionOf(a.regionCode) == RegionOf(b.regionCode);
    if sameProvider && sameRegion then Style("#10B981", 0.8, 0.1, None)
    else if sameProvider then Style("#3B82F6", 0.6, 0.15, Some((3, 3)))
    else if sameRegion then Style("#F59E0B", 0.4, 0.08, Some((1, 2)))
    else Style("#EF4444", 0.3, 0.2, None)
  }

  /** The topology class does not depend on which end of the arc is which. */
  lemma TopologySymmetric(a: ServerDef, b: ServerDef)
    ensures TopologyStyle(a, b) == TopologyStyle(b, a)
  {
  }

  datatype Arc = Arc(
    startLat: real, startLng: real, endLat: real, endLng: real,
    style: Style, labelText: string)

  function AvgText(avg: Option<int>): string {
    if avg.Some? then Text.IntToString(avg.value) + " ms" else "n/a"
  }

  function ArcLabel(a: ServerDef, b: ServerDef, avg: Option<int>, showTopology: bool): string {
    var ends := a.exchange + " \U{2194} " + b.exchange;
    if showTopology then
      ends + "\nProvider: " + (if a.provider == b.provider then a.provider else a.provider + " \U{2194} " + b.provider) +
      "\nLatency: " + AvgText(avg)
    else
      ends + "\nAvg: " + AvgText(avg)
  }

  /** The arc from `a` to `b`: topology style, or latency style coloured by the pair's average. */
  function MakeArc(a: ServerDef, b: ServerDef, latest: map<string, Sample>, showTopology: bool): (arc: Arc)
    ensures arc.startLat == a.lat && arc.startLng == a.lng && arc.endLat == b.lat && arc.endLng == b.lng
    ensures showTopology ==> arc.style == TopologyStyle(a, b)
    ensures !showTopology ==>
      arc.style == Style(Utils.LatencyColor(PairAverage(RttOf(latest, a.id), RttOf(latest, b.id))), 0.4, 0.15, None)
  {
    var avg := PairAverage(RttOf(latest, a.id), RttOf(latest, b.id));
    var style := if showTopology then TopologyStyle(a, b) else Style(LatencyArcColor(avg), 0.4, 0.15, None);
    Arc(a.lat, a.lng, b.lat, b.lng, style, ArcLabel(a, b, avg, showTopology))
  }

  /** The index pairs `(i, k)` with `i < k < j`, in increasing `k`. */
  function Row(i: nat, j: nat): (ps: seq<(nat, nat)>)
    ensures |ps| == if j > i then j - i - 1 else 0
    ensures forall m :: 0 <= m < |ps| ==> ps[m].0 == i && i < ps[m].1 < j
    ensures forall m :: 0 <= m < |ps| ==> ps[m].1 == i + 1 + m
    decreases j
  {
    if j <= i + 1 then [] else Row(i, j - 1) + [(i, j - 1)]
  }

  /** The pairs of rows `0 .. i-1` of an `n`-element list, in the order the nested loops visit them. */
  function PairsBefore(i: nat, n: nat): (ps: seq<(nat, nat)>)
    ensures forall m :: 0 <= m < |ps| ==> ps[m].0 < i && ps[m].0 < ps[m].1 < n
  {
    if i == 0 then [] else PairsBefore(i - 1, n) + Row(i - 1, n)
  }

  /** Every pair of an `n`-element list. */
  function Pairs(n: nat): seq<(nat, nat)> {
    PairsBefore(n, n)
  }

  /** `2 |PairsBefore(i, n)| == i (2n - i - 1)`: rows 0..i-1 hold n-1, n-2, ... pairs. */
  lemma {:induction false} PairsBeforeLength(i: nat, n: nat)
    requires i <= n
    ensures 2 * |PairsBefore(i, n)| == i * (2 * n - i - 1)
  {
    if i > 0 {
      PairsBeforeLength(i - 1, n);
      assert |Row(i - 1, n)| == n - i;
      assert (i - 1) * (2 * n - i) + 2 * (n - i) == i * (2 * n - i - 1);
    }
  }

  /** Every pair `a < b < n` with `a < i` is among the first `i` rows. */
  lemma {:induction false} PairsBeforeComplete(i: nat, n: nat, a: nat, b: nat)
    requires a < i && a < b < n
    ensures (a, b) in PairsBefore(i, n)
  {
    var front := PairsBefore(i - 1, n);
    var row := Row(i - 1, n);
    assert PairsBefore(i, n) == front + row;
    if a == i - 1 {
      assert row[b - i] == (a, b);
      assert (a, b) in row;
    } else {
      PairsBeforeComplete(i - 1, n, a, b);
      assert (a, b) in front;
    }
  }

  predicate LexLess(p: (nat, nat), q: (nat, nat)) {
    p.0 < q.0 || (p.0 == q.0 && p.1 < q.1)
  }

  /** Strictly increasing in lexicographic order. */
  predicate LexOrdered(ps: seq<(nat, nat)>) {
    forall x, y :: 0 <= x < y < |ps| ==> LexLess(ps[x], ps[y])
  }

  /** The pairs come in strictly increasing lexicographic order, so none repeats. */
  lemma {:induction false} PairsBeforeOrdered(i: nat, n: nat)
    ensures LexOrdered(PairsBefore(i, n))
  {
    if i > 0 {
      PairsBeforeOrdered(i - 1, n);
      var front := PairsBefore(i - 1, n);
      var row := Row(i - 1, n);
      var ps := front + row;
      assert PairsBefore(i, n) == ps;
      assert LexOrdered(front);
      forall x, y | 0 <= x < y < |ps| ensures LexLess(ps[x], ps[y]) {
        if y < |front| {
          assert ps[x] == front[x] && ps[y] == front[y];
          assert LexLess(front[x], front[y]);
        } else if x < |front| {
          assert ps[x] == front[x] && ps[y] == row[y - |front|];
          assert front[x].0 < i - 1 && row[y - |front|].0 == i - 1;
        } else {
          assert ps[x] == row[x - |front|] && ps[y] == row[y - |front|];
          assert row[x - |front|].1 == i + (x - |front|) && row[y - |front|].1 == i + (y - |front|);
        }
      }
    }
  }

  /** The pairs of an `n`-element list are exactly the `a < b < n`, each once, `n(n-1)/2` in all. */
  lemma PairsExact(n: nat)
    ensures |Pairs(n)| == n * (n - 1) / 2
    ensures forall a: nat, b: nat :: (a, b) in Pairs(n) <==> a < b < n
    ensures forall x, y :: 0 <= x < y < |Pairs(n)| ==> Pairs(n)[x] != Pairs(n)[y]
  {
    PairsBeforeLength(n, n);
    PairsBeforeOrdered(n, n);
    assert LexOrdered(Pairs(n));
    forall a: nat, b: nat | a < b < n ensures (a, b) in Pairs(n) {
      PairsBeforeComplete(n, n, a, b);
    }
  }

  /** Both indices of every pair are below `n`. */
  predicate InRange(ps: seq<(nat, nat)>, n: nat) {
    forall m :: 0 <= m < |ps| ==> ps[m].0 < n && ps[m].1 < n
  }

  /** The arcs for a list of index pairs, in the pairs' order. */
  function ArcsOf(fs: seq<ServerDef>, latest: map<string, Sample>, showTopology: bool, ps: seq<(nat, nat)>): (arcs: seq<Arc>)
    requires InRange(ps, |fs|)
  {
    seq(|ps|, m requires 0 <= m < |ps| => MakeArc(fs[ps[m].0], fs[ps[m].1], latest, showTopology))
  }

  /** The arcs the effect builds: one per pair of filtered servers when arcs or topology are shown, else none. */
  function ArcsSpec(fs: seq<ServerDef>, latest: map<string, Sample>, showArcs: bool, showTopology: bool): seq<Arc> {
    if showArcs || showTopology then ArcsOf(fs, latest, showTopology, Pairs(|fs|)) else []
  }

  /** There are `n(n-1)/2` arcs when shown, one for each pair `i < j`, and none otherwise. */
  lemma ArcCount(fs: seq<ServerDef>, latest: map<string, Sample>, showArcs: bool, showTopology: bool)
    ensures var arcs := ArcsSpec(fs, latest, showArcs, showTopology);
      |arcs| == if showArcs || showTopology then |fs| * (|fs| - 1) / 2 else 0
  {
    PairsExact(|fs|);
  }

  /** When arcs are shown, the pair `a < b` of filtered servers is joined by its arc. */
  lemma ArcForPair(fs: seq<ServerDef>, latest: map<string, Sample>, showArcs: bool, showTopology: bool, a: nat, b: nat)
    requires showArcs || showTopology
    requires a < b < |fs|
    ensures MakeArc(fs[a], fs[b], latest, showTopology) in ArcsSpec(fs, latest, showArcs, showTopology)
  {
    var ps := Pairs(|fs|);
    PairsBeforeComplete(|fs|, |fs|, a, b);
    var m :| 0 <= m < |ps| && ps[m] == (a, b);
    assert ArcsSpec(fs, latest, showArcs, showTopology)[m] == MakeArc(fs[a], fs[b], latest, showTopology);
  }

  /** When arcs are shown, every pair `a < b` of filtered servers is joined by its arc, and every arc joins such a pair. */
  lemma ArcForEachPair(fs: seq<ServerDef>, latest: map<string, Sample>, showArcs: bool, showTopology: bool)
    requires showArcs || showTopology
    ensures var arcs := ArcsSpec(fs, latest, showArcs, showTopology);
      (forall a: nat, b: nat :: a < b < |fs| ==> MakeArc(fs[a], fs[b], latest, showTopology) in arcs) &&
      (forall k :: 0 <= k < |arcs| ==>
         exists a: nat, b: nat :: a < b < |fs| && arcs[k] == MakeArc(fs[a], fs[b], latest, showTopology))
  {
    var ps := Pairs(|fs|);
    var arcs := ArcsSpec(fs, latest, showArcs, showTopology);
    forall a: nat, b: nat | a < b < |fs| ensures MakeArc(fs[a], fs[b], latest, showTopology) in arcs {
      ArcForPair(fs, latest, showArcs, showTopology, a, b);
    }
    forall k | 0 <= k < |arcs|
      ensures exists a: nat, b: nat :: a < b < |fs| && arcs[k] == MakeArc(fs[a], fs[b], latest, showTopology)
    {
      assert arcs == ArcsOf(fs, latest, showTopology, ps);
      var a, b := ps[k].0, ps[k].1;
      assert a < b < |fs|;
      assert arcs[k] == MakeArc(fs[a], fs[b], latest, showTopology);
    }
  }

  /** The arcs of two runs of pairs, one after the other. */
  lemma ArcsOfAppend(fs: seq<ServerDef>, latest: map<string, Sample>, showTopology: bool, a: seq<(nat, nat)>, b: seq<(nat, nat)>)
    requires InRange(a, |fs|) && InRange(b, |fs|)
    ensures InRange(a + b, |fs|)
    ensures ArcsOf(fs, latest, showTopology, a + b)
            == ArcsOf(fs, latest, showTopology, a) + ArcsOf(fs, latest, showTopology, b)
  {
    assert InRange(a + b, |fs|) by {
      forall m | 0 <= m < |a + b| ensures (a + b)[m].0 < |fs| && (a + b)[m].1 < |fs| {
        if m >= |a| {
          assert (a + b)[m] == b[m - |a|];
        }
      }
    }
  }

  /** Row `i` of an `n`-element list stays inside the list. */
  lemma RowFacts(i: nat, j: nat, n: nat)
    requires i < n && j <= n
    ensures InRange(Row(i, j), n)
  {
  }

  /** A full row appended to the earlier rows gives the arcs of one more row. */
  lemma RowDone(fs: seq<ServerDef>, latest: map<string, Sample>, showTopology: bool, i: nat, row: seq<Arc>)
    requires i < |fs| && InRange(PairsBefore(i, |fs|), |fs|)
    requires |row| == |fs| - i - 1
    requires forall m :: 0 <= m < |row| ==> row[m] == MakeArc(fs[i], fs[i + 1 + m], latest, showTopology)
    ensures InRange(PairsBefore(i + 1, |fs|), |fs|)
    ensures ArcsOf(fs, latest, showTopology, PairsBefore(i + 1, |fs|))
            == ArcsOf(fs, latest, showTopology, PairsBefore(i, |fs|)) + row
  {
    RowFacts(i, |fs|, |fs|);
    assert ArcsOf(fs, latest, showTopology, Row(i, |fs|)) == row;
    assert PairsBefore(i + 1, |fs|) == PairsBefore(i, |fs|) + Row(i, |fs|);
    ArcsOfAppend(fs, latest, showTopology, PairsBefore(i, |fs|), Row(i, |fs|));
  }

  /** The inner loop: the arcs `(i, j)` for `i < j < |fs|`, in increasing `j`. */
  method RowArcs(fs: seq<ServerDef>, latest: map<string, Sample>, showTopology: bool, i: nat)
    returns (row: seq<Arc>)
    requires i < |fs|
    ensures |row| == |fs| - i - 1
    ensures forall m :: 0 <= m < |row| ==> row[m] == MakeArc(fs[i], fs[i + 1 + m], latest, showTopology)
  {
    row := [];
    var j := i + 1;
    while j < |fs|
      invariant i + 1 <= j <= |fs|
      invariant |row| == j - i - 1
      invariant forall m :: 0 <= m < |row| ==> row[m] == MakeArc(fs[i], fs[i + 1 + m], latest, showTopology)
    {
      row := row + [MakeArc(fs[i], fs[j], latest, showTopology)];
      j := j + 1;
    }
  }

  /** The nested loops over `i < j` that push one arc per pair of filtered servers. */
  method BuildArcs(fs: seq<ServerDef>, latest: map<string, Sample>, showArcs: bool, showTopology: bool)
    returns (pairs: seq<Arc>)
    ensures pairs == ArcsSpec(fs, latest, showArcs, showTopology)
  {
    pairs := [];
    if showArcs || showTopology {
      var i := 0;
      while i < |fs|
        invariant 0 <= i <= |fs|
        invariant InRange(PairsBefore(i, |fs|), |fs|)
        invariant pairs == ArcsOf(fs, latest, showTopology, PairsBefore(i, |fs|))
      {
        var row := RowArcs(fs, latest, showTopology, i);
        RowDone(fs, latest, showTopology, i, row);
        pairs := pairs + row;
        i := i + 1;
      }
    }
  }

  // ----------------------------------------------------------- time window

  /** `getTimeRangeHours`. */
  function TimeRangeHours(range: string): (h: int)
    ensures h in {1, 24, 168, 720}
    ensures range == "24h" ==> h == 24
    ensures range == "7d" ==> h == 168
    ensures range == "30d" ==> h == 720
    ensures range !in {"24h", "7d", "30d"} ==> h == 1
  {
    if range == "1h" then 1
    else if range == "24h" then 24
    else if range == "7d" then 24 * 7
    else if range == "30d" then 24 * 30
    else 1
  }

  /** The `[from, to]` asked for: `to` is now and `from` lies the range's hours before it. */
  function HistoryWindow(now: int, range: string): (w: (int, int))
    ensures w.1 == now
    ensures w.1 - w.0 == TimeRangeHours(range) * 3600000
    ensures w.0 < w.1
  {
    (now - TimeRangeHours(range) * 60 * 60 * 1000, now)
  }

  /** The history the panel fetches holds exactly the server's samples from the selected range, in order. */
  lemma WindowQuery(history: map<string, seq<Sample>>, id: string, now: int, range: string)
    requires id != ""
    ensures var w := HistoryWindow(now, range);
      var r := HistoryRoute.Get(history, Some(id), HistoryRoute.At(w.0), HistoryRoute.At(w.1));
      && r.HistoryOk?
      && IsSubsequence(r.history, LatencyWorker.HistoryOf(history, id))
      && (forall k :: 0 <= k < |r.history| ==>
            now - TimeRangeHours(range) * 3600000 <= r.history[k].timestamp <= now)
      && (forall s :: (s in LatencyWorker.HistoryOf(history, id) &&
                       now - TimeRangeHours(range) * 3600000 <= s.timestamp <= now) ==> s in r.history)
  {
  }
}
