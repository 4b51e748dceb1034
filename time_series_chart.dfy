/**
 * The CSV export of components/TimeSeriesChart.tsx: a fixed header line, then
 * one `timestamp,rttMs,status` line per sample (an absent rtt printed as the
 * empty field), and the name of the downloaded file.
 */
module TimeSeriesChart {
  import opened Options
  import Text

  /** The chart's own sample shape: the timestamp and status arrive as text. */
  datatype ChartSample = ChartSample(timestamp: string, rttMs: Option<int>, status: string)

  const CsvHeader := "timestamp,rttMs,status\n"

  /** `d.rttMs ?? ''`: a present rtt (zero included) prints as its digits, an absent one as nothing. */
  function RttField(rtt: Option<int>): (f: string)
    ensures rtt.None? <==> f == ""
    ensures ',' !in f && '\n' !in f
  {
    if rtt.Some? then Text.IntToString(rtt.value) else ""
  }

  /** Where the three fields and the two commas of `a,b,c` sit. */
  lemma FieldPositions(a: string, b: string, c: string)
    ensures var row, i, j := a + "," + b + "," + c, |a|, |a| + 1 + |b|;
      |row| == j + 1 + |c| && row[i] == ',' && row[j] == ',' &&
      row[..i] == a && row[i + 1..j] == b && row[j + 1..] == c
  {
    var row := a + "," + b + "," + c;
    assert row == (a + "," + b) + ("," + c);
  }

  /** Three fields free of commas and line breaks give a comma line that splits back into them. */
  lemma SplitThree(a: string, b: string, c: string)
    requires ',' !in a && ',' !in b && ',' !in c
    requires '\n' !in a && '\n' !in b && '\n' !in c
    ensures '\n' !in a + "," + b + "," + c
    ensures Text.Split(a + "," + b + "," + c, ',') == [a, b, c]
  {
    var parts := [a, b, c];
    assert Text.Join(parts, ',') == a + "," + b + "," + c by {
      assert parts[1..][1..] == [c];
      assert Text.Join(parts[1..], ',') == b + "," + c;
      assert Text.Join(parts, ',') == a + "," + Text.Join(parts[1..], ',');
    }
    Text.SplitJoin(parts, ',');
  }

  /** `` `${d.timestamp},${d.rttMs ?? ''},${d.status}` ``: a clean sample's line splits back into its three fields. */
  function CsvRow(d: ChartSample): (row: string)
    ensures var i, j := |d.timestamp|, |d.timestamp| + 1 + |RttField(d.rttMs)|;
      |row| == j + 1 + |d.status| && row[i] == ',' && row[j] == ',' &&
      row[..i] == d.timestamp && row[i + 1..j] == RttField(d.rttMs) && row[j + 1..] == d.status
    ensures Clean(d) ==> '\n' !in row && Text.Split(row, ',') == [d.timestamp, RttField(d.rttMs), d.status]
  {
    var row := d.timestamp + "," + RttField(d.rttMs) + "," + d.status;
    FieldPositions(d.timestamp, RttField(d.rttMs), d.status);
    if Clean(d) then
      SplitThree(d.timestamp, RttField(d.rttMs), d.status);
      row
    else
      row
  }

  /** `data.map(row).join('\n')`: empty exactly when there is no data. */
  function CsvBody(data: seq<ChartSample>): (body: string)
    ensures body == "" <==> data == []
  {
    var rows := seq(|data|, k requires 0 <= k < |data| => CsvRow(data[k]));
    if |rows| > 0 then
      assert |Text.Join(rows, '\n')| >= |rows[0]|;
      Text.Join(rows, '\n')
    else
      Text.Join(rows, '\n')
  }

  /** The whole file: the header, then the body. */
  function Csv(data: seq<ChartSample>): (csv: string)
    ensures Text.StartsWith(csv, CsvHeader)
    ensures data == [] ==> csv == CsvHeader
  {
    CsvHeader + CsvBody(data)
  }

  /** `` `${serverId}_latency_history.csv` ``. */
  function DownloadName(serverId: string): (name: string)
    ensures |name| == |serverId| + |"_latency_history.csv"|
    ensures name[..|serverId|] == serverId
    ensures name[|serverId|..] == "_latency_history.csv"
  {
    serverId + "_latency_history.csv"
  }

  /** Different servers get different file names. */
  lemma DownloadNameInjective(a: string, b: string)
    requires DownloadName(a) == DownloadName(b)
    ensures a == b
  {
    assert |a| == |b|;
    assert DownloadName(a)[..|a|] == a;
  }

  // ------------------------------------------------------------- reading back

  /** The body of a non-empty export has exactly one line per sample, in order, and no trailing line break. */
  lemma BodyLines(data: seq<ChartSample>)
    requires |data| > 0
    requires forall k :: 0 <= k < |data| ==> Clean(data[k])
    ensures Text.Split(CsvBody(data), '\n') == seq(|data|, k requires 0 <= k < |data| => CsvRow(data[k]))
  {
    var rows := seq(|data|, k requires 0 <= k < |data| => CsvRow(data[k]));
    Text.SplitJoin(rows, '\n');
  }

  /** Reads one line back into a sample. */
  function ParseRow(line: string): Option<ChartSample> {
    var fields := Text.Split(line, ',');
    if |fields| != 3 then None
    else if fields[1] == "" then Some(ChartSample(fields[0], None, fields[2]))
    else
      var rtt := Text.ParseInt(fields[1]);
      if rtt.Some? then Some(ChartSample(fields[0], rtt, fields[2])) else None
  }

  function ParseRows(lines: seq<string>): (r: Option<seq<ChartSample>>)
    ensures r.Some? ==> |r.value| == |lines|
  {
    if |lines| == 0 then Some([])
    else
      var head := ParseRow(lines[0]);
      var rest := ParseRows(lines[1..]);
      if head.Some? && rest.Some? then Some([head.value] + rest.value) else None
  }

  /** Reads an exported file back: the header, then the lines of the body (none when the body is empty). */
  function ParseCsv(csv: string): Option<seq<ChartSample>> {
    if !Text.StartsWith(csv, CsvHeader) then None
    else
      var body := csv[|CsvHeader|..];
      if body == "" then Some([]) else ParseRows(Text.Split(body, '\n'))
  }

  /** A sample's fields hold neither the field separator nor the line separator. */
  predicate Clean(d: ChartSample) {
    ',' !in d.timestamp && ',' !in d.status && '\n' !in d.timestamp && '\n' !in d.status
  }

  /** A clean sample's line reads back as the sample and holds no line break. */
  lemma RowRoundTrip(d: ChartSample)
    requires Clean(d)
    ensures '\n' !in CsvRow(d)
    ensures ParseRow(CsvRow(d)) == Some(d)
  {
    if d.rttMs.Some? {
      Text.IntRoundTrip(d.rttMs.value);
    }
  }

  lemma {:induction false} RowsRoundTrip(data: seq<ChartSample>)
    requires forall k :: 0 <= k < |data| ==> Clean(data[k])
    ensures ParseRows(seq(|data|, k requires 0 <= k < |data| => CsvRow(data[k]))) == Some(data)
  {
    var rows := seq(|data|, k requires 0 <= k < |data| => CsvRow(data[k]));
    if |data| > 0 {
      RowRoundTrip(data[0]);
      RowsRoundTrip(data[1..]);
      assert rows[1..] == seq(|data[1..]|, k requires 0 <= k < |data[1..]| => CsvRow(data[1..][k]));
      assert [data[0]] + data[1..] == data;
    }
  }

  /** Reading an export of clean samples gives back exactly those samples, one per line, in order. */
  lemma CsvRoundTrip(data: seq<ChartSample>)
    requires forall k :: 0 <= k < |data| ==> Clean(data[k])
    ensures ParseCsv(Csv(data)) == Some(data)
  {
    var csv := Csv(data);
    assert csv[|CsvHeader|..] == CsvBody(data);
    if |data| > 0 {
      BodyLines(data);
      RowsRoundTrip(data);
    }
  }
}
