/** `latencyColor` (lib/utils.ts): the colour band of a round-trip time. */
module Utils {
  import opened Options

  const Gray := "#888888"
  const Green := "#00ff7f"
  const Yellow := "#ffeb3b"
  const Red := "#ff4d4f"

  /** Gray for no measurement, then green below 50 ms, yellow below 150 ms, red from 150 ms. */
  function LatencyColor(rtt: Option<int>): (c: string)
    ensures c in {Gray, Green, Yellow, Red}
    ensures c == Gray <==> rtt.None?
    ensures c == Green <==> rtt.Some? && rtt.value < 50
    ensures c == Yellow <==> rtt.Some? && 50 <= rtt.value < 150
    ensures c == Red <==> rtt.Some? && 150 <= rtt.value
  {
    if rtt.None? then Gray
    else if rtt.value < 50 then Green
    else if rtt.value < 150 then Yellow
    else Red
  }

  /** How bad a band is: green 0, yellow 1, red 2, anything else (gray) 3. */
  function Severity(c: string): nat {
    if c == Green then 0 else if c == Yellow then 1 else if c == Red then 2 else 3
  }

  /** A larger round-trip time never gets a better band. */
  lemma LatencyColorMonotone(a: int, b: int)
    requires a <= b
    ensures Severity(LatencyColor(Some(a))) <= Severity(LatencyColor(Some(b)))
    ensures Severity(LatencyColor(Some(b))) <= 2
  {
  }
}
