/** The shared record types of include/types.h. */
module Types {
  import opened Prelude

  datatype FiveTuple = FiveTuple(srcIp: u32, dstIp: u32, srcPort: u16, dstPort: u16, protocol: byte) {
    function Reversed(): FiveTuple {
      FiveTuple(dstIp, srcIp, dstPort, srcPort, protocol)
    }

    function Normalised(): FiveTuple {
      if srcIp < dstIp || (srcIp == dstIp && srcPort < dstPort) then this else Reversed()
    }
  }

  datatype FlowAction = FORWARD | DROP

  datatype ConnectionState = NEW | ESTABLISHED | CLASSIFIED | BLOCKED | CLOSED

  // AppType is its enum value: the statistics arrays are indexed by it.
  const APP_COUNT: nat := 22
  type AppType = a: int | 0 <= a < APP_COUNT
  const UNKNOWN: AppType := 0
  const HTTP: AppType := 1
  const HTTPS: AppType := 2
  const DNS: AppType := 3

  datatype PacketJob = PacketJob(
    packetId: nat,
    tsSec: u32,
    tsUsec: u32,
    tuple: FiveTuple,
    data: seq<byte>,
    tcpFlags: byte,
    payloadOffset: nat,
    payloadLength: nat)

  /** One tracked flow. Times are ticks of the steady clock. */
  datatype Connection = Connection(
    tuple: FiveTuple,
    state: ConnectionState,
    app: AppType,
    action: FlowAction,
    sni: string,
    packetsIn: nat,
    bytesIn: nat,
    firstSeen: int,
    lastSeen: int,
    classified: bool)

  type FlowTable = map<FiveTuple, Connection>

  // Packets between two cleanups of a worker's table (include/fast_path.h).
  const CLEANUP_INTERVAL: nat := 10000
}
