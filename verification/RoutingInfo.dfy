/** The swarm messages: a node's routing information is a tree of the nodes it is related to. */
module RoutingInfos {
  import opened Options

  newtype byte = n: int | 0 <= n < 0x100
  type u32 = n: nat | n < 0x1_0000_0000

  datatype SessionId = SessionId(raw: seq<byte>)

  datatype NodeType = Unspecified | Normal | Gateway | Tracker

  /** A gateway session a node has heard of, with the hops its mention may still travel. */
  datatype Mention = Mention(sessionId: SessionId, ttl: u32)

  /** Fields that no modelled operation looks into; they are only carried along. */
  datatype Payload = Payload(
    position: Option<(real, real, real)>,
    gatewayState: Option<(nat, nat)>,
    isLockon: bool)

  datatype Relation = NoRelation | Count(count: u32) | Infos(infos: seq<RoutingInfo>)

  datatype RoutingInfo = RoutingInfo(
    nodeType: NodeType,
    sessionId: Option<SessionId>,
    relation: Relation,
    known: seq<Mention>,
    payload: Payload)

  type Forest = seq<RoutingInfo>

  const NO_PAYLOAD := Payload(None, None, false)

  /** `as u32`: keeps the low 32 bits. */
  function Truncate(n: nat): u32 {
    n % 0x1_0000_0000
  }

  function RelationCount(t: RoutingInfo): nat {
    match t.relation
    case Count(v) => v
    case Infos(infos) => |infos|
    case NoRelation => 0
  }

  function Children(t: RoutingInfo): Forest {
    match t.relation
    case Infos(infos) => infos
    case _ => []
  }

  predicate HasId(t: RoutingInfo, s: SessionId) {
    t.sessionId == Some(s)
  }
}
