/**
 * The immutable, versioned records exchanged between the world and an NPC
 * (src/game/messaging/messages.py). Frozen dataclasses become datatypes: two records
 * with equal fields are equal, and nothing can update a record in place.
 */
module Messages {
  import opened Wrappers
  import opened Cells

  /** Version string carried by every record. */
  const PROTOCOL_VERSION: string := "1.0"

  /** The four event kinds of the `EventKind` literal type. */
  datatype EventKind = TimeTick | ZoneAlert | NpcInteraction | WorldChange

  /** The wire spelling of a kind. */
  function KindName(k: EventKind): (r: string)
    ensures |r| > 0 && forall i :: 0 <= i < |r| ==> 'a' <= r[i] <= 'z' || r[i] == '_'
  {
    match k
    case TimeTick => "time_tick"
    case ZoneAlert => "zone_alert"
    case NpcInteraction => "npc_interaction"
    case WorldChange => "world_change"
  }

  /** Reads a kind from its wire spelling; any other string is not a kind. */
  function ParseKind(s: string): (r: Option<EventKind>)
    ensures r.Some? ==> KindName(r.value) == s
    ensures forall k :: KindName(k) == s ==> r == Some(k)
  {
    if s == "time_tick" then Some(TimeTick)
    else if s == "zone_alert" then Some(ZoneAlert)
    else if s == "npc_interaction" then Some(NpcInteraction)
    else if s == "world_change" then Some(WorldChange)
    else None
  }

  /** A JSON-friendly value, for payloads and descriptors (`dict[str, Any]`). */
  datatype Json =
    | JNull
    | JBool(b: bool)
    | JNum(n: real)
    | JStr(s: string)
    | JArr(items: seq<Json>)
    | JObj(fields: map<string, Json>)

  /** State of the world as seen by one NPC; `lastEvents` defaults to the empty list. */
  datatype WorldSnapshot = WorldSnapshot(
    version: string,
    tSim: real,
    seqNo: int,
    npcId: string,
    cell: Cell,
    nearby: seq<map<string, Json>>,
    areas: seq<map<string, Json>>,
    lastEvents: seq<string> := [])

  /** A pushed interrupt; `priority` defaults to 0 (0 normal, 1 high, 2 critical). */
  datatype WorldEvent = WorldEvent(
    version: string,
    tSim: real,
    seqNo: int,
    eventId: string,
    kind: EventKind,
    payload: map<string, Json>,
    priority: int := 0)

  /** The defaults of the two records, and that records are plain values compared field by field. */
  lemma RecordDefaults(version: string, tSim: real, seqNo: int, id: string, kind: EventKind, cell: Cell)
    ensures WorldEvent(version, tSim, seqNo, id, kind, map[]).priority == 0
    ensures WorldSnapshot(version, tSim, seqNo, id, cell, [], []).lastEvents == []
    ensures WorldEvent(version, tSim, seqNo, id, kind, map[]) == WorldEvent(version, tSim, seqNo, id, kind, map[], 0)
  {
  }
}
