/**
 * The latency sample store of lib/latencyWorker.ts: the latest sample and a
 * bounded history per server id, fed by the TCP polling round and by the RIPE
 * Atlas result callback, both through one commit rule.
 *
 * The pure functions (`CommitTo`, `Round`, `AtlasCommit`) say what each
 * operation does to the store's value; the class `WorkerState` holds the state
 * the source mutates in place and its methods are proved against them.
 */
module LatencyWorker {
  import opened Options
  import opened Samples
  import JsMath
  import Text

  /** At most this many samples are kept per server. */
  const Capacity: nat := 2000
  /** The polling period `makeInitialState` configures. */
  const DefaultIntervalMs: nat := 5000

  /** What the TCP probe reports: a round-trip time, or a failure with the error's message if it has one. */
  datatype ProbeOutcome = Connected(rttMs: int) | Failed(message: Option<string>)

  /** The `result.rtt` field of an Atlas payload: absent (or `result` absent), a number, or some other value. */
  datatype AtlasRtt = Missing | Number(value: real) | NonNumber

  /** An Atlas payload as far as the callback reads it; `target` is `None` when it is absent or not a string. */
  datatype AtlasPayload = AtlasPayload(target: Option<string>, rtt: AtlasRtt)

  /** The value of the store: `latest` and `history`, keyed by server id. */
  datatype Store = Store(latest: map<string, Sample>, history: map<string, seq<Sample>>)

  /** `state.history[id] || []`. */
  function HistoryOf(history: map<string, seq<Sample>>, id: string): seq<Sample> {
    if id in history then history[id] else []
  }

  /** Push `s`, then drop the oldest entry once the list is longer than `Capacity`. */
  function PushCapped(h: seq<Sample>, s: Sample): (r: seq<Sample>)
    ensures |r| > 0 && r[|r| - 1] == s
    ensures |h| < Capacity ==> r == h + [s]
    ensures |h| >= Capacity ==> r == h[1..] + [s]
    ensures |h| <= Capacity ==> |r| <= Capacity
  {
    var pushed := h + [s];
    if |pushed| > Capacity then pushed[1..] else pushed
  }

  /** The commit rule: `latest[id] = s`, push onto `history[id]`, shift when over capacity. */
  function CommitTo(st: Store, s: Sample): (r: Store)
    ensures s.id in r.latest && r.latest[s.id] == s
    ensures s.id in r.history && r.history[s.id] == PushCapped(HistoryOf(st.history, s.id), s)
  {
    Store(st.latest[s.id := s], st.history[s.id := PushCapped(HistoryOf(st.history, s.id), s)])
  }

  /** A commit for one id leaves the entries of every other id as they were. */
  lemma CommitOther(st: Store, s: Sample, id: string)
    requires id != s.id
    ensures var r := CommitTo(st, s);
      (id in r.latest <==> id in st.latest) && (id in st.latest ==> r.latest[id] == st.latest[id]) &&
      (id in r.history <==> id in st.history) && (id in st.history ==> r.history[id] == st.history[id]) &&
      HistoryOf(r.history, id) == HistoryOf(st.history, id)
  {
  }

  /** A commit changes nothing outside the committed id: both maps agree with the old ones once that id is removed. */
  lemma CommitLeavesRest(st: Store, s: Sample)
    ensures var r := CommitTo(st, s);
      r.latest - {s.id} == st.latest - {s.id} && r.history - {s.id} == st.history - {s.id}
  {
    var r := CommitTo(st, s);
    assert r.latest - {s.id} == st.latest - {s.id};
    assert r.history - {s.id} == st.history - {s.id};
  }

  /** The history of one id: non-empty, within capacity, all for that id and well formed. */
  ghost predicate HistoryInv(h: seq<Sample>, id: string) {
    && 0 < |h| <= Capacity
    && forall k :: 0 <= k < |h| ==> h[k].id == id && WellFormed(h[k])
  }

  /**
   * The store's invariant: the same ids have a latest sample and a history,
   * only roster ids appear, and `latest[id]` is the last sample of `history[id]`.
   */
  ghost predicate StoreInv(st: Store, roster: set<string>) {
    && st.latest.Keys == st.history.Keys
    && st.latest.Keys <= roster
    && EntriesInv(st)
  }

  /** Each id's history satisfies `HistoryInv` and ends with its latest sample. */
  ghost predicate EntriesInv(st: Store)
    requires st.latest.Keys == st.history.Keys
  {
    forall id :: id in st.history ==>
      HistoryInv(st.history[id], id) && st.history[id][|st.history[id]| - 1] == st.latest[id]
  }

  lemma CommitKeepsInv(st: Store, roster: set<string>, s: Sample)
    requires StoreInv(st, roster) && s.id in roster && WellFormed(s)
    ensures StoreInv(CommitTo(st, s), roster)
  {
    var r := CommitTo(st, s);
    var h := HistoryOf(st.history, s.id);
    assert |h| <= Capacity && forall k :: 0 <= k < |h| ==> h[k].id == s.id && WellFormed(h[k]);
    assert HistoryInv(r.history[s.id], s.id);
    forall id | id in r.history && id != s.id
      ensures HistoryInv(r.history[id], id) && r.history[id][|r.history[id]| - 1] == r.latest[id]
    {
      CommitOther(st, s, id);
    }
    assert r.latest.Keys == st.latest.Keys + {s.id};
    assert r.history.Keys == st.history.Keys + {s.id};
  }

  /** Commits for two different ids can be applied in either order. */
  lemma CommitCommutes(st: Store, a: Sample, b: Sample)
    requires a.id != b.id
    ensures CommitTo(CommitTo(st, a), b) == CommitTo(CommitTo(st, b), a)
  {
    var ab := CommitTo(CommitTo(st, a), b);
    var ba := CommitTo(CommitTo(st, b), a);
    assert ab.latest == ba.latest;
    assert HistoryOf(CommitTo(st, a).history, b.id) == HistoryOf(st.history, b.id);
    assert HistoryOf(CommitTo(st, b).history, a.id) == HistoryOf(st.history, a.id);
    assert ab.history == ba.history;
  }

  /** A polling round's timestamps keep a time-ordered history time-ordered. */
  lemma PushKeepsTimeOrder(h: seq<Sample>, s: Sample)
    requires forall i, j :: 0 <= i < j < |h| ==> h[i].timestamp <= h[j].timestamp
    requires forall i :: 0 <= i < |h| ==> h[i].timestamp <= s.timestamp
    ensures var r := PushCapped(h, s);
      forall i, j :: 0 <= i < j < |r| ==> r[i].timestamp <= r[j].timestamp
  {
  }

  // ---------------------------------------------------------------- polling

  /** The sample `pollOnce` builds for one server from its probe outcome. */
  function RoundSample(server: ServerDef, now: int, outcome: ProbeOutcome): (r: Sample)
    ensures r.id == server.id && r.host == server.host && r.port == server.port
    ensures r.timestamp == now
    ensures WellFormed(r)
    ensures outcome.Connected? ==> r.status == Ok && r.rttMs == Some(outcome.rttMs)
    ensures outcome.Failed? ==> r.rttMs == None && r.status != Ok
    ensures outcome.Failed? ==> (r.status == Timeout <==> outcome.message == Some("timeout"))
  {
    match outcome
    case Connected(rtt) => Sample(server.id, server.host, server.port, now, Some(rtt), Ok)
    case Failed(message) =>
      Sample(server.id, server.host, server.port, now, None,
             if message == Some("timeout") then Timeout else Error)
  }

  /** The samples of one round, in roster order. */
  function RoundSamples(servers: seq<ServerDef>, now: int, outcomes: seq<ProbeOutcome>): (r: seq<Sample>)
    requires |outcomes| == |servers|
    ensures |r| == |servers|
    ensures forall k :: 0 <= k < |r| ==> r[k].id == servers[k].id && r[k].timestamp == now && WellFormed(r[k])
  {
    seq(|servers|, k requires 0 <= k < |servers| => RoundSample(servers[k], now, outcomes[k]))
  }

  /** Commits the samples one after the other, first to last. */
  function CommitAll(st: Store, samples: seq<Sample>): Store
    decreases |samples|
  {
    if |samples| == 0 then st
    else CommitTo(CommitAll(st, samples[..|samples| - 1]), samples[|samples| - 1])
  }

  /** After a run of commits every id there was before still has an entry. */
  lemma {:induction false} CommitAllKeeps(st: Store, samples: seq<Sample>, id: string)
    ensures var r := CommitAll(st, samples);
      (id in st.latest ==> id in r.latest) && (id in st.history ==> id in r.history)
    decreases |samples|
  {
    if |samples| > 0 {
      CommitAllKeeps(st, samples[..|samples| - 1], id);
    }
  }

  /** After a run of commits every committed id has an entry. */
  lemma {:induction false} CommitAllCovers(st: Store, samples: seq<Sample>, k: nat)
    requires k < |samples|
    ensures var r := CommitAll(st, samples);
      samples[k].id in r.latest && samples[k].id in r.history
    decreases |samples|
  {
    var n := |samples| - 1;
    var prev := CommitAll(st, samples[..n]);
    assert CommitAll(st, samples) == CommitTo(prev, samples[n]);
    if k < n && samples[k].id != samples[n].id {
      CommitAllCovers(st, samples[..n], k);
      assert samples[..n][k] == samples[k];
      CommitOther(prev, samples[n], samples[k].id);
    }
  }

  /** Both coverage facts at once, for every committed id and every earlier id. */
  lemma CommitAllCoversAll(st: Store, samples: seq<Sample>)
    ensures var r := CommitAll(st, samples);
      (forall k :: 0 <= k < |samples| ==> samples[k].id in r.latest && samples[k].id in r.history) &&
      (forall id :: id in st.latest ==> id in r.latest)
  {
    forall k | 0 <= k < |samples| ensures samples[k].id in CommitAll(st, samples).latest && samples[k].id in CommitAll(st, samples).history {
      CommitAllCovers(st, samples, k);
    }
    forall id | id in st.latest ensures id in CommitAll(st, samples).latest {
      CommitAllKeeps(st, samples, id);
    }
  }

  /** One round: the servers' samples, all stamped `now`, committed in roster order. */
  function Round(st: Store, servers: seq<ServerDef>, now: int, outcomes: seq<ProbeOutcome>): (r: Store)
    requires |outcomes| == |servers|
    ensures forall k :: 0 <= k < |servers| ==> servers[k].id in r.latest && servers[k].id in r.history
    ensures forall id :: id in st.latest ==> id in r.latest
  {
    var samples := RoundSamples(servers, now, outcomes);
    CommitAllCoversAll(st, samples);
    CommitAll(st, samples)
  }

  /** Committing one more sample is the shorter run of commits followed by that commit. */
  lemma CommitAllStep(st: Store, samples: seq<Sample>, i: nat)
    requires i < |samples|
    ensures CommitAll(st, samples[..i + 1]) == CommitTo(CommitAll(st, samples[..i]), samples[i])
  {
    assert samples[..i + 1][..i] == samples[..i];
  }

  /** A run of commits leaves every id that none of the samples carries as it was. */
  lemma {:induction false} CommitAllLeavesOthers(st: Store, samples: seq<Sample>, id: string)
    requires forall k :: 0 <= k < |samples| ==> samples[k].id != id
    ensures var r := CommitAll(st, samples);
      (id in r.latest <==> id in st.latest) && (id in st.latest ==> r.latest[id] == st.latest[id]) &&
      (id in r.history <==> id in st.history) && HistoryOf(r.history, id) == HistoryOf(st.history, id)
    decreases |samples|
  {
    if |samples| > 0 {
      var n := |samples| - 1;
      CommitAllLeavesOthers(st, samples[..n], id);
      CommitOther(CommitAll(st, samples[..n]), samples[n], id);
    }
  }

  /** With distinct ids, the order of the commits does not matter: any permutation gives the same store. */
  lemma CommitAllOrderFree(st: Store, a: seq<Sample>, b: seq<Sample>)
    requires forall i, j :: 0 <= i < j < |a| ==> a[i].id != a[j].id
    requires forall i, j :: 0 <= i < j < |b| ==> b[i].id != b[j].id
    requires multiset(a) == multiset(b)
    ensures CommitAll(st, a) == CommitAll(st, b)
  {
    var ra, rb := CommitAll(st, a), CommitAll(st, b);
    forall id
      ensures (id in ra.latest <==> id in rb.latest) && (id in ra.latest ==> ra.latest[id] == rb.latest[id])
      ensures (id in ra.history <==> id in rb.history) && (id in ra.history ==> ra.history[id] == rb.history[id])
    {
      if k :| 0 <= k < |a| && a[k].id == id {
        assert a[k] in multiset(b);
        var m :| 0 <= m < |b| && b[m] == a[k];
        CommitAllEach(st, a, k);
        CommitAllEach(st, b, m);
        CommitAllCovers(st, a, k);
        CommitAllCovers(st, b, m);
      } else {
        forall m | 0 <= m < |b| ensures b[m].id != id {
          assert b[m] in multiset(a);
        }
        CommitAllLeavesOthers(st, a, id);
        CommitAllLeavesOthers(st, b, id);
      }
    }
    assert ra.latest == rb.latest;
    assert ra.history == rb.history;
  }

  /** After a run of commits all stamped `t`, each sample's id has a latest sample stamped `t`. */
  lemma {:induction false} CommitAllStamps(st: Store, samples: seq<Sample>, t: int, k: nat)
    requires k < |samples|
    requires forall j :: 0 <= j < |samples| ==> samples[j].timestamp == t
    ensures var r := CommitAll(st, samples);
      samples[k].id in r.latest && r.latest[samples[k].id].timestamp == t
    decreases |samples|
  {
    var n := |samples| - 1;
    var mid := CommitAll(st, samples[..n]);
    assert CommitAll(st, samples) == CommitTo(mid, samples[n]);
    if samples[k].id == samples[n].id {
      assert samples[n].timestamp == t;
    } else {
      assert k < n && samples[..n][k] == samples[k];
      CommitAllStamps(st, samples[..n], t, k);
      CommitOther(mid, samples[n], samples[k].id);
    }
  }

  /** With distinct ids, each sample becomes its id's latest and is pushed once onto its history. */
  lemma {:induction false} CommitAllEach(st: Store, samples: seq<Sample>, k: nat)
    requires k < |samples|
    requires forall i, j :: 0 <= i < j < |samples| ==> samples[i].id != samples[j].id
    ensures var r := CommitAll(st, samples);
      var s := samples[k];
      s.id in r.latest && r.latest[s.id] == s &&
      HistoryOf(r.history, s.id) == PushCapped(HistoryOf(st.history, s.id), s)
    decreases |samples|
  {
    var n := |samples| - 1;
    var id := samples[k].id;
    if k == n {
      CommitAllLeavesOthers(st, samples[..n], id);
    } else {
      CommitAllEach(st, samples[..n], k);
      CommitOther(CommitAll(st, samples[..n]), samples[n], id);
    }
  }

  lemma {:induction false} CommitAllKeepsInv(st: Store, roster: set<string>, samples: seq<Sample>)
    requires StoreInv(st, roster)
    requires forall k :: 0 <= k < |samples| ==> samples[k].id in roster && WellFormed(samples[k])
    ensures StoreInv(CommitAll(st, samples), roster)
    decreases |samples|
  {
    if |samples| > 0 {
      var n := |samples| - 1;
      CommitAllKeepsInv(st, roster, samples[..n]);
      CommitKeepsInv(CommitAll(st, samples[..n]), roster, samples[n]);
    }
  }

  /** A round leaves every id outside the roster as it was. */
  lemma RoundLeavesOthers(st: Store, servers: seq<ServerDef>, now: int, outcomes: seq<ProbeOutcome>, id: string)
    requires |outcomes| == |servers|
    requires forall k :: 0 <= k < |servers| ==> servers[k].id != id
    ensures var r := Round(st, servers, now, outcomes);
      (id in r.latest <==> id in st.latest) && (id in st.latest ==> r.latest[id] == st.latest[id]) &&
      HistoryOf(r.history, id) == HistoryOf(st.history, id)
  {
    CommitAllLeavesOthers(st, RoundSamples(servers, now, outcomes), id);
  }

  /** Every roster server ends the round with a latest sample stamped `now`, even with repeated ids. */
  lemma RoundStampsAll(st: Store, servers: seq<ServerDef>, now: int, outcomes: seq<ProbeOutcome>, k: nat)
    requires |outcomes| == |servers| && k < |servers|
    ensures var r := Round(st, servers, now, outcomes);
      servers[k].id in r.latest && r.latest[servers[k].id].timestamp == now
  {
    CommitAllStamps(st, RoundSamples(servers, now, outcomes), now, k);
  }

  /**
   * With distinct roster ids, the round gives each server exactly its own
   * outcome's sample as latest, and pushes that one sample onto its history.
   */
  lemma RoundCommitsEach(st: Store, servers: seq<ServerDef>, now: int, outcomes: seq<ProbeOutcome>, k: nat)
    requires |outcomes| == |servers| && k < |servers| && DistinctIds(servers)
    ensures var r := Round(st, servers, now, outcomes);
      var s := RoundSample(servers[k], now, outcomes[k]);
      servers[k].id in r.latest && r.latest[servers[k].id] == s &&
      HistoryOf(r.history, servers[k].id) == PushCapped(HistoryOf(st.history, servers[k].id), s)
  {
    CommitAllEach(st, RoundSamples(servers, now, outcomes), k);
  }

  lemma RoundKeepsInv(st: Store, roster: set<string>, servers: seq<ServerDef>, now: int, outcomes: seq<ProbeOutcome>)
    requires |outcomes| == |servers| && StoreInv(st, roster)
    requires forall k :: 0 <= k < |servers| ==> servers[k].id in roster
    ensures StoreInv(Round(st, servers, now, outcomes), roster)
  {
    CommitAllKeepsInv(st, roster, RoundSamples(servers, now, outcomes));
  }

  /** The inputs of one polling round: its timestamp and the probe outcomes in roster order. */
  datatype RoundInput = RoundInput(now: int, outcomes: seq<ProbeOutcome>)

  /** Successive polling rounds, oldest first. */
  function Rounds(st: Store, servers: seq<ServerDef>, inputs: seq<RoundInput>): (r: Store)
    requires forall i :: 0 <= i < |inputs| ==> |inputs[i].outcomes| == |servers|
    ensures |inputs| > 0 ==> forall k :: 0 <= k < |servers| ==> servers[k].id in r.latest
    ensures forall id :: id in st.latest ==> id in r.latest
    decreases |inputs|
  {
    if |inputs| == 0 then st
    else
      var n := |inputs| - 1;
      Round(Rounds(st, servers, inputs[..n]), servers, inputs[n].now, inputs[n].outcomes)
  }

  function Min(a: int, b: int): int {
    if a <= b then a else b
  }

  /** After N rounds a server's history has grown by N samples, capped at `Capacity`. */
  lemma {:induction false} HistoryLengthAfterRounds(st: Store, servers: seq<ServerDef>, inputs: seq<RoundInput>, k: nat)
    requires forall i :: 0 <= i < |inputs| ==> |inputs[i].outcomes| == |servers|
    requires DistinctIds(servers) && k < |servers|
    requires |HistoryOf(st.history, servers[k].id)| <= Capacity
    ensures |HistoryOf(Rounds(st, servers, inputs).history, servers[k].id)|
            == Min(|HistoryOf(st.history, servers[k].id)| + |inputs|, Capacity)
    decreases |inputs|
  {
    if |inputs| > 0 {
      var n := |inputs| - 1;
      var id := servers[k].id;
      var mid := Rounds(st, servers, inputs[..n]);
      HistoryLengthAfterRounds(st, servers, inputs[..n], k);
      RoundCommitsEach(mid, servers, inputs[n].now, inputs[n].outcomes, k);
      var s := RoundSample(servers[k], inputs[n].now, inputs[n].outcomes[k]);
      assert HistoryOf(Rounds(st, servers, inputs).history, id) == PushCapped(HistoryOf(mid.history, id), s);
    }
  }

  // ----------------------------------------------------------- RIPE Atlas

  /** `host && host.includes(sv.host)`: a non-empty target that contains the server's host. */
  predicate HostMatches(target: Option<string>, server: ServerDef) {
    target.Some? && target.value != "" && Text.Includes(target.value, server.host)
  }

  /** `servers.find(...)` from index `from` on, as an index. */
  function FindFrom(servers: seq<ServerDef>, target: Option<string>, from: nat): (r: Option<nat>)
    requires from <= |servers|
    ensures r.Some? ==> from <= r.value < |servers| && HostMatches(target, servers[r.value])
    ensures r.Some? ==> forall k :: from <= k < r.value ==> !HostMatches(target, servers[k])
    ensures r.None? ==> forall k :: from <= k < |servers| ==> !HostMatches(target, servers[k])
    decreases |servers| - from
  {
    if from == |servers| then None
    else if HostMatches(target, servers[from]) then Some(from)
    else FindFrom(servers, target, from + 1)
  }

  /** The first roster server whose host occurs in the target, if any. */
  function FindByHost(servers: seq<ServerDef>, target: Option<string>): (r: Option<nat>)
    ensures r.Some? ==> r.value < |servers| && HostMatches(target, servers[r.value])
    ensures r.Some? ==> forall k :: 0 <= k < r.value ==> !HostMatches(target, servers[k])
    ensures r.None? <==> forall k :: 0 <= k < |servers| ==> !HostMatches(target, servers[k])
  {
    FindFrom(servers, target, 0)
  }

  /** The sample the Atlas callback stores: 'ok' with the rounded rtt for a truthy number, else 'error'. */
  function AtlasSample(server: ServerDef, receivedAt: int, rtt: AtlasRtt): (r: Sample)
    ensures r.id == server.id && r.host == server.host && r.port == server.port
    ensures r.timestamp == receivedAt
    ensures WellFormed(r)
    ensures r.status == Ok <==> rtt.Number? && rtt.value != 0.0
    ensures r.status == Ok ==> r.rttMs == Some(JsMath.Round(rtt.value))
    ensures r.status != Ok ==> r.status == Error
  {
    if rtt.Number? && rtt.value != 0.0 then
      Sample(server.id, server.host, server.port, receivedAt, Some(JsMath.Round(rtt.value)), Ok)
    else
      Sample(server.id, server.host, server.port, receivedAt, None, Error)
  }

  /** Any first matching index is the one `FindByHost` returns. */
  lemma FirstMatchUnique(servers: seq<ServerDef>, target: Option<string>)
    ensures forall k :: (0 <= k < |servers| && HostMatches(target, servers[k]) &&
                         (forall j :: 0 <= j < k ==> !HostMatches(target, servers[j]))) ==>
      FindByHost(servers, target) == Some(k)
  {
    var r := FindByHost(servers, target);
    forall k | 0 <= k < |servers| && HostMatches(target, servers[k]) &&
               (forall j :: 0 <= j < k ==> !HostMatches(target, servers[j]))
      ensures r == Some(k)
    {
      assert r.Some?;
    }
  }

  /** What one Atlas payload does to the store: commit under the first matching server, or nothing. */
  function AtlasCommit(st: Store, servers: seq<ServerDef>, payload: AtlasPayload, receivedAt: int): (r: Store)
    ensures (forall k :: 0 <= k < |servers| ==> !HostMatches(payload.target, servers[k])) ==> r == st
    ensures forall k :: (0 <= k < |servers| && HostMatches(payload.target, servers[k]) &&
                         (forall j :: 0 <= j < k ==> !HostMatches(payload.target, servers[j]))) ==>
      var s := AtlasSample(servers[k], receivedAt, payload.rtt);
      servers[k].id in r.latest && r.latest[servers[k].id] == s &&
      HistoryOf(r.history, servers[k].id) == PushCapped(HistoryOf(st.history, servers[k].id), s)
  {
    FirstMatchUnique(servers, payload.target);
    match FindByHost(servers, payload.target)
    case None => st
    case Some(k) => CommitTo(st, AtlasSample(servers[k], receivedAt, payload.rtt))
  }

  /** An Atlas payload changes only the entry of the first matching server, and nothing when none matches. */
  lemma AtlasTouchesOnlyMatch(st: Store, servers: seq<ServerDef>, payload: AtlasPayload, receivedAt: int)
    ensures var r := AtlasCommit(st, servers, payload, receivedAt);
      match FindByHost(servers, payload.target)
      case None => r == st
      case Some(k) =>
        var id := servers[k].id;
        id in r.latest && r.latest[id].timestamp == receivedAt &&
        r.latest - {id} == st.latest - {id} && r.history - {id} == st.history - {id}
  {
    match FindByHost(servers, payload.target) {
      case None =>
      case Some(k) => CommitLeavesRest(st, AtlasSample(servers[k], receivedAt, payload.rtt));
    }
  }

  // -------------------------------------------------------------- the class

  /** `WorkerState`: the roster, the two maps the producers mutate, the period and the running flag. */
  class WorkerState {
    const servers: seq<ServerDef>
    var latest: map<string, Sample>
    var history: map<string, seq<Sample>>
    const intervalMs: nat
    var running: bool

    function State(): Store
      reads this
    {
      Store(latest, history)
    }

    ghost predicate Valid()
      reads this
    {
      StoreInv(State(), Ids(servers))
    }

    /** `makeInitialState`, with the roster the loader read passed in. */
    constructor (roster: seq<ServerDef>)
      ensures servers == roster && latest == map[] && history == map[]
      ensures intervalMs == DefaultIntervalMs && !running
      ensures Valid()
    {
      servers := roster;
      latest := map[];
      history := map[];
      intervalMs := DefaultIntervalMs;
      running := false;
    }

    /** The commit rule both producers apply. */
    method Commit(s: Sample)
      modifies this
      ensures State() == CommitTo(old(State()), s)
      ensures running == old(running)
      ensures old(Valid()) && s.id in Ids(servers) && WellFormed(s) ==> Valid()
    {
      if old(Valid()) && s.id in Ids(servers) && WellFormed(s) {
        CommitKeepsInv(State(), Ids(servers), s);
      }
      latest := latest[s.id := s];
      var h := if s.id in history then history[s.id] else [];
      h := h + [s];
      if |h| > Capacity {
        h := h[1..];
      }
      history := history[s.id := h];
    }

    /** `pollOnce`: one sample per roster server from its probe outcome, all stamped `now`. */
    method PollRound(now: int, outcomes: seq<ProbeOutcome>)
      requires Valid() && |outcomes| == |servers|
      modifies this
      ensures Valid() && running == old(running)
      ensures State() == Round(old(State()), servers, now, outcomes)
    {
      ghost var start := State();
      ghost var samples := RoundSamples(servers, now, outcomes);
      var i := 0;
      while i < |servers|
        invariant 0 <= i <= |servers|
        invariant State() == CommitAll(start, samples[..i])
        invariant Valid() && running == old(running)
      {
        var sample := RoundSample(servers[i], now, outcomes[i]);
        assert sample.id in Ids(servers) by {
          assert servers[i] in servers;
        }
        Commit(sample);
        CommitAllStep(start, samples, i);
        i := i + 1;
      }
      assert samples[..i] == samples;
    }

    /** The Atlas result callback: store under the first server whose host occurs in the target. */
    method AtlasResult(payload: AtlasPayload, receivedAt: int) returns (stored: bool)
      requires Valid()
      modifies this
      ensures Valid() && running == old(running)
      ensures stored <==> FindByHost(servers, payload.target).Some?
      ensures State() == AtlasCommit(old(State()), servers, payload, receivedAt)
    {
      var found := FindByHost(servers, payload.target);
      match found {
        case None =>
          stored := false;
        case Some(k) =>
          var sample := AtlasSample(servers[k], receivedAt, payload.rtt);
          assert servers[k] in servers;
          Commit(sample);
          stored := true;
      }
    }

    /** `startWorker`: a no-op when already running; otherwise mark running and poll once. */
    method Start(now: int, outcomes: seq<ProbeOutcome>) returns (started: bool)
      requires Valid() && |outcomes| == |servers|
      modifies this
      ensures Valid() && running
      ensures started <==> !old(running)
      ensures old(running) ==> State() == old(State())
      ensures !old(running) ==> State() == Round(old(State()), servers, now, outcomes)
    {
      if running {
        return false;
      }
      running := true;
      PollRound(now, outcomes);
      started := true;
    }
  }
}
