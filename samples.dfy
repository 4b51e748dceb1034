/**
 * The records shared by the worker, the routes and the components: a monitored
 * server as loaded from the roster (lib/serverData.ts) and a latency sample
 * (lib/latencyWorker.ts). Timestamps are milliseconds since the epoch.
 */
module Samples {
  import opened Options

  datatype Status = Ok | Timeout | Error

  /** The status as it appears on the wire: 'ok', 'timeout' or 'error'. */
  function StatusText(s: Status): (t: string)
    ensures t in {"ok", "timeout", "error"}
  {
    match s
    case Ok => "ok"
    case Timeout => "timeout"
    case Error => "error"
  }

  datatype ServerDef = ServerDef(
    id: string,
    exchange: string,
    provider: string,
    regionCode: string,
    lat: real,
    lng: real,
    host: string,
    port: int)

  datatype Sample = Sample(
    id: string,
    host: string,
    port: int,
    timestamp: int,
    rttMs: Option<int>,
    status: Status)

  /** A sample carries a round-trip time exactly when its status is 'ok'. */
  predicate WellFormed(s: Sample) {
    s.rttMs.Some? <==> s.status == Ok
  }

  /** The ids of the roster. */
  ghost function Ids(servers: seq<ServerDef>): set<string> {
    set s | s in servers :: s.id
  }

  predicate DistinctIds(servers: seq<ServerDef>) {
    forall i, j :: 0 <= i < j < |servers| ==> servers[i].id != servers[j].id
  }
}
