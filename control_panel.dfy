/**
 * The filter handlers of components/ControlPanel.tsx, as functions from the
 * current filters to the ones passed to `onFiltersChange`.
 */
module ControlPanel {
  import opened Seqs

  datatype LatencyRange = LatencyRange(min: int, max: int)

  datatype Filters = Filters(providers: seq<string>, exchanges: seq<string>, latencyRange: LatencyRange)

  /** Which end of the latency range an input edits. */
  datatype RangeField = Min | Max

  /** The provider ids the panel offers, in display order. */
  const ProviderIds: seq<string> := ["AWS", "GCP", "Azure", "Other"]

  /**
   * The toggle both list handlers use: drop every occurrence of an item that
   * is present, append one that is absent.
   */
  function Toggle(items: seq<string>, item: string): (r: seq<string>)
    ensures item in r <==> item !in items
    ensures forall x :: x != item ==> (x in r <==> x in items)
    ensures item !in items ==> r == items + [item]
    ensures item in items ==> IsSubsequence(r, items)
    ensures item in items ==> forall x :: multiset(r)[x] == if x == item then 0 else multiset(items)[x]
  {
    if item in items then
      var keep := (x: string) => x != item;
      FilterCountsAll(items, keep);
      FilterMembers(items, keep);
      FilterIsSubsequence(items, keep);
      Filter(items, keep)
    else
      items + [item]
  }

  /** Toggling an absent item twice gives the list back. */
  lemma ToggleTwiceAbsent(items: seq<string>, item: string)
    requires item !in items
    ensures Toggle(Toggle(items, item), item) == items
  {
    var keep := (x: string) => x != item;
    FilterAppend(items, [item], keep);
    FilterKeepsAll(items, keep);
    assert Filter([item], keep) == [];
  }

  /** `handleProviderToggle`: only `providers` changes. */
  function ToggleProvider(f: Filters, providerId: string): (r: Filters)
    ensures r.providers == Toggle(f.providers, providerId)
    ensures r.exchanges == f.exchanges && r.latencyRange == f.latencyRange
  {
    f.(providers := Toggle(f.providers, providerId))
  }

  /** `handleExchangeToggle`: only `exchanges` changes. */
  function ToggleExchange(f: Filters, exchange: string): (r: Filters)
    ensures r.exchanges == Toggle(f.exchanges, exchange)
    ensures r.providers == f.providers && r.latencyRange == f.latencyRange
  {
    f.(exchanges := Toggle(f.exchanges, exchange))
  }

  /** `handleLatencyRangeChange`: the named bound becomes `value`; everything else stays. */
  function SetLatencyBound(f: Filters, field: RangeField, value: int): (r: Filters)
    ensures r.providers == f.providers && r.exchanges == f.exchanges
    ensures field == Min ==> r.latencyRange.min == value && r.latencyRange.max == f.latencyRange.max
    ensures field == Max ==> r.latencyRange.max == value && r.latencyRange.min == f.latencyRange.min
  {
    match field
    case Min => f.(latencyRange := f.latencyRange.(min := value))
    case Max => f.(latencyRange := f.latencyRange.(max := value))
  }

  /** `resetFilters`: every provider, no exchange restriction, range 0..1000, whatever was set before. */
  function ResetFilters(): (r: Filters)
    ensures r.providers == ProviderIds && r.exchanges == [] && r.latencyRange == LatencyRange(0, 1000)
  {
    Filters(["AWS", "GCP", "Azure", "Other"], [], LatencyRange(0, 1000))
  }
}
