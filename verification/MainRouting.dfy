/**
 PDU routing of the gateway (MAIN/BSW/Routing/pdur.c) and its configuration tables
 (MAIN/Configurations/pdur_cfg.c).
 */
module MainRouting {
  import opened Bytes

  datatype Target =
    | UdpControl | SomeIp | UdsMain | UdsAct | UdsBody
    | ActStatus | CollisionEvent | BodyAlive | ActResponse | BodyResponse

  const DOIP_MAIN := 0x03
  const DOIP_ACT := 0x04
  const DOIP_BODY := 0x05
  const CAN_ACT_UDS := 0x17
  const CAN_BODY_UDS := 0x18

  const RxTable: seq<(nat, Target)> :=
    [(0x01, UdpControl), (0x02, SomeIp), (DOIP_MAIN, UdsMain), (DOIP_ACT, UdsAct), (DOIP_BODY, UdsBody),
     (0x11, ActStatus), (0x12, CollisionEvent), (0x13, BodyAlive), (CAN_ACT_UDS, ActResponse), (CAN_BODY_UDS, BodyResponse)]

  /** PduR_RouteRx: the first entry with this id decides. */
  method RouteRx(id: nat, table: seq<(nat, Target)>) returns (target: Option<Target>)
    ensures target.Some? ==> exists k :: 0 <= k < |table| && table[k] == (id, target.value)
                                         && forall j :: 0 <= j < k ==> table[j].0 != id
    ensures target.None? ==> forall k :: 0 <= k < |table| ==> table[k].0 != id
  {
    for i := 0 to |table|
      invariant forall k :: 0 <= k < i ==> table[k].0 != id
    {
      if table[i].0 == id {
        return Some(table[i].1);
      }
    }
    return None;
  }

  /** No id occurs twice, so the order of the table does not matter. */
  lemma RoutesAreUnambiguous()
    ensures forall j, k :: 0 <= j < k < |RxTable| ==> RxTable[j].0 != RxTable[k].0
  {
  }
}
