/**
 * `GET /api/latency/history` (app/api/latency/history/route.ts): the samples of
 * one server whose timestamp lies in an inclusive window, read from the
 * worker's history without changing it.
 */
module HistoryRoute {
  import opened Options
  import opened Samples
  import opened Seqs
  import opened LatencyWorker

  /**
   * One end of the window as the query string gives it: absent or empty
   * (`!from`), a time, or a string `Date` cannot parse (its time is NaN, and
   * every comparison with NaN is false).
   */
  datatype Bound = Unset | At(ms: int) | Unparsable

  datatype Response =
    | BadRequest(status: int, error: string)
    | HistoryOk(serverId: string, history: seq<Sample>)

  predicate NotBefore(t: int, from: Bound) {
    match from
    case Unset => true
    case At(f) => t >= f
    case Unparsable => false
  }

  predicate NotAfter(t: int, to: Bound) {
    match to
    case Unset => true
    case At(f) => t <= f
    case Unparsable => false
  }

  predicate InWindow(s: Sample, from: Bound, to: Bound) {
    NotBefore(s.timestamp, from) && NotAfter(s.timestamp, to)
  }

  /**
   * The handler. A missing or empty `serverId` is a 400; otherwise the
   * server's history (empty for an unknown id) filtered to the window, echoing
   * the id. Being a function of `history`, it changes nothing in the store.
   */
  function Get(history: map<string, seq<Sample>>, serverId: Option<string>, from: Bound, to: Bound): (r: Response)
    ensures r.BadRequest? <==> serverId.None? || serverId.value == ""
    ensures r.BadRequest? ==> r.status == 400 && r.error == "serverId required"
    ensures r.HistoryOk? ==> r.serverId == serverId.value
    ensures r.HistoryOk? ==> IsSubsequence(r.history, HistoryOf(history, r.serverId))
    ensures r.HistoryOk? ==> forall k :: 0 <= k < |r.history| ==> InWindow(r.history[k], from, to)
    ensures r.HistoryOk? ==>
      forall s :: s in HistoryOf(history, r.serverId) && InWindow(s, from, to) ==> s in r.history
  {
    if serverId.None? || serverId.value == "" then
      BadRequest(400, "serverId required")
    else
      var h := HistoryOf(history, serverId.value);
      var keep := (s: Sample) => InWindow(s, from, to);
      FilterIsSubsequence(h, keep);
      FilterMembers(h, keep);
      HistoryOk(serverId.value, Filter(h, keep))
  }

  /** The result keeps each in-window sample as often as the history holds it, and no other sample. */
  lemma QueryCounts(history: map<string, seq<Sample>>, id: string, from: Bound, to: Bound, s: Sample)
    requires id != ""
    ensures var r := Get(history, Some(id), from, to);
      multiset(r.history)[s] == if InWindow(s, from, to) then multiset(HistoryOf(history, id))[s] else 0
  {
    FilterCounts(HistoryOf(history, id), (x: Sample) => InWindow(x, from, to), s);
  }

  /** With neither bound given, the whole history comes back. */
  lemma UnboundedReturnsAll(history: map<string, seq<Sample>>, id: string)
    requires id != ""
    ensures Get(history, Some(id), Unset, Unset) == HistoryOk(id, HistoryOf(history, id))
  {
    FilterKeepsAll(HistoryOf(history, id), (x: Sample) => InWindow(x, Unset, Unset));
  }

  /** An id with no history is answered with an empty list, not an error. */
  lemma UnknownIdIsEmpty(history: map<string, seq<Sample>>, id: string, from: Bound, to: Bound)
    requires id != "" && id !in history
    ensures Get(history, Some(id), from, to) == HistoryOk(id, [])
  {
  }

  /** A window `[t0, t0]` over a history with exactly one sample at `t0` returns just that sample. */
  lemma SingleInstant(history: map<string, seq<Sample>>, id: string, i: nat, t0: int)
    requires id != "" && i < |HistoryOf(history, id)|
    requires HistoryOf(history, id)[i].timestamp == t0
    requires forall j :: 0 <= j < |HistoryOf(history, id)| && j != i ==> HistoryOf(history, id)[j].timestamp != t0
    ensures Get(history, Some(id), At(t0), At(t0)) == HistoryOk(id, [HistoryOf(history, id)[i]])
  {
    FilterSingle(HistoryOf(history, id), (x: Sample) => InWindow(x, At(t0), At(t0)), i);
  }
}
