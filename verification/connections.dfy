/** The records exchanged by the Publicize connections field: one connection of the
    snapshot the connection reader returns for a post, and one item of a requested
    batch of changes. `update` reads only these typed fields, so `Connection` is its view of
    a connection; `get` must see and drop whatever extra keys a record carries, so it works
    on the raw `ReadProjection.Record` instead. */
module Connections {

  datatype Option<T> = None | Some(value: T)

  /** One available sharing connection of a post, with its per-post state. */
  datatype Connection = Connection(
    uniqueId: string,
    serviceName: string,
    displayName: string,
    enabled: bool,
    done: bool,
    toggleable: bool)

  /** One requested change: `{ service_name, enabled }`, `{ id, enabled }`, or both keys. */
  datatype Request = Request(serviceName: Option<string>, id: Option<string>, enabled: bool)

  /** The model's assumption about the reader: no two connections of a snapshot share a
      unique id. */
  predicate UniqueIds(available: seq<Connection>)
  {
    forall i, j :: 0 <= i < j < |available| ==> available[i].uniqueId != available[j].uniqueId
  }

  /** The unique ids of a sequence of connections, in order. */
  function Ids(available: seq<Connection>): (ids: seq<string>)
    ensures |ids| == |available|
    ensures forall k :: 0 <= k < |ids| ==> ids[k] == available[k].uniqueId
    ensures forall uid :: uid in ids ==> uid in IdSet(available)
  {
    seq(|available|, i requires 0 <= i < |available| => available[i].uniqueId)
  }

  /** The unique ids that occur in a sequence of connections. */
  function IdSet(available: seq<Connection>): set<string>
  {
    set c | c in available :: c.uniqueId
  }

  /** The service names that occur in a sequence of connections. */
  function ServiceSet(available: seq<Connection>): set<string>
  {
    set c | c in available :: c.serviceName
  }

  lemma IdSetSnoc(s: seq<Connection>, c: Connection)
    ensures IdSet(s + [c]) == IdSet(s) + {c.uniqueId}
    ensures ServiceSet(s + [c]) == ServiceSet(s) + {c.serviceName}
  {
  }
}
