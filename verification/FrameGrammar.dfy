/** Building TCP and UDP frames, and what the parser makes of them. */
module FrameGrammar {
  import opened Prelude
  import opened Types
  import opened PacketParser

  datatype Segment =
    | TcpSegment(seqNum: u32, ackNum: u32, reserved: byte, flags: byte, trailer: seq<byte>, options: seq<byte>)
    | UdpSegment(lengthAndChecksum: seq<byte>)

  /** An Ethernet frame carrying TCP or UDP over IPv4, field by field. */
  datatype Frame = Frame(
    macs: seq<byte>,
    ipMisc: seq<byte>,
    ttl: byte,
    ipChecksum: seq<byte>,
    tuple: FiveTuple,
    ipOptions: seq<byte>,
    segment: Segment,
    payload: seq<byte>)
  {
    /** Fixed field sizes; both headers are 5 to 15 words long. */
    predicate Valid() {
      && |macs| == 12 && |ipMisc| == 7 && |ipChecksum| == 2
      && |ipOptions| % 4 == 0 && |ipOptions| <= 40
      && match segment {
           case TcpSegment(_, _, reserved, _, trailer, options) =>
             tuple.protocol == TCP && reserved < 16 && |trailer| == 6 && |options| % 4 == 0 && |options| <= 40
           case UdpSegment(lengthAndChecksum) =>
             tuple.protocol == UDP && |lengthAndChecksum| == 4
         }
    }

    function Ethernet(): (b: seq<byte>)
      requires Valid()
      ensures |b| == 14
    {
      macs + PutU16(ETHERTYPE_IPV4)
    }

    function Ip(): (b: seq<byte>)
      requires Valid()
      ensures |b| == 20 + |ipOptions|
    {
      [0x40 + 5 + |ipOptions| / 4] + ipMisc + [ttl, tuple.protocol] + ipChecksum
      + PutU32(tuple.srcIp) + PutU32(tuple.dstIp) + ipOptions
    }

    function Transport(): (b: seq<byte>)
      requires Valid()
      ensures |b| == if segment.TcpSegment? then 20 + |segment.options| else 8
    {
      PutU16(tuple.srcPort) + PutU16(tuple.dstPort)
      + match segment {
          case TcpSegment(seqNum, ackNum, reserved, flags, trailer, options) =>
            PutU32(seqNum) + PutU32(ackNum) + [(5 + |options| / 4) * 16 + reserved, flags] + trailer + options
          case UdpSegment(lengthAndChecksum) => lengthAndChecksum
        }
    }

    function Encode(): seq<byte>
      requires Valid()
    {
      Ethernet() + (Ip() + (Transport() + payload))
    }
  }

  lemma U32Read(p: seq<byte>, k: nat, n: u32)
    requires k + 4 <= |p| && forall i :: 0 <= i < 4 ==> p[k + i] == PutU32(n)[i]
    ensures U32At(p, k) == n
  {
    var b := PutU32(n);
    assert p[k] == b[0] && p[k + 1] == b[1] && p[k + 2] == b[2] && p[k + 3] == b[3];
    assert U16At(p, k) == n / 0x1_0000 && U16At(p, k + 2) == n % 0x1_0000;
  }

  lemma IpRead(f: seq<byte>, x: Frame)
    requires x.Valid() && 14 + |x.Ip()| <= |f| && forall i :: 0 <= i < |x.Ip()| ==> f[14 + i] == x.Ip()[i]
    ensures IpOk(f) && IpLength(f) == |x.Ip()|
    ensures f[22] == x.ttl && f[23] == x.tuple.protocol && U32At(f, 26) == x.tuple.srcIp
            && U32At(f, 30) == x.tuple.dstIp
  {
    var b := x.Ip();
    assert f[14 + 0] == b[0];
    assert f[14 + 8] == b[8] && f[14 + 9] == b[9];
    assert b[12..16] == PutU32(x.tuple.srcIp) && b[16..20] == PutU32(x.tuple.dstIp);
    NumberAt(f, 14, b, 12, x.tuple.srcIp);
    NumberAt(f, 14, b, 16, x.tuple.dstIp);
  }

  lemma PortsRead(f: seq<byte>, k: nat, x: Frame)
    requires x.Valid() && k + |x.Transport()| <= |f|
    requires forall i :: 0 <= i < |x.Transport()| ==> f[k + i] == x.Transport()[i]
    ensures U16At(f, k) == x.tuple.srcPort && U16At(f, k + 2) == x.tuple.dstPort
  {
    var b := x.Transport();
    assert f[k + 0] == b[0] && f[k + 1] == b[1] && f[k + 2] == b[2] && f[k + 3] == b[3];
    assert b[0..2] == PutU16(x.tuple.srcPort) && b[2..4] == PutU16(x.tuple.dstPort);
    assert b[0] == b[0..2][0] && b[1] == b[0..2][1] && b[2] == b[2..4][0] && b[3] == b[2..4][1];
  }

  lemma TcpRead(f: seq<byte>, k: nat, x: Frame)
    requires x.Valid() && x.segment.TcpSegment? && k + |x.Transport()| <= |f|
    requires forall i :: 0 <= i < |x.Transport()| ==> f[k + i] == x.Transport()[i]
    ensures TcpOk(f, k) && TcpLength(f, k) == |x.Transport()| && f[k + 13] == x.segment.flags
    ensures U32At(f, k + 4) == x.segment.seqNum && U32At(f, k + 8) == x.segment.ackNum
  {
    var b := x.Transport();
    var words := 5 + |x.segment.options| / 4;
    assert f[k + 12] == b[12] == words * 16 + x.segment.reserved;
    assert f[k + 13] == b[13] == x.segment.flags;
    assert b[4..8] == PutU32(x.segment.seqNum) && b[8..12] == PutU32(x.segment.ackNum);
    NumberAt(f, k, b, 4, x.segment.seqNum);
    NumberAt(f, k, b, 8, x.segment.ackNum);
  }

  /** A 32-bit field of a header that lies at `k`. */
  lemma NumberAt(f: seq<byte>, k: nat, header: seq<byte>, i: nat, n: u32)
    requires i + 4 <= |header| && k + |header| <= |f| && header[i..i + 4] == PutU32(n)
    requires forall j :: 0 <= j < |header| ==> f[k + j] == header[j]
    ensures U32At(f, k + i) == n
  {
    forall j | 0 <= j < 4 ensures f[k + i + j] == PutU32(n)[j] {
      assert f[k + (i + j)] == header[i + j] == header[i..i + 4][j];
    }
    U32Read(f, k + i, n);
  }

  lemma PartsOfFrame(x: Frame)
    requires x.Valid()
    ensures var f, k := x.Encode(), 14 + |x.Ip()|;
            && |f| == k + |x.Transport()| + |x.payload|
            && U16At(f, 12) == ETHERTYPE_IPV4
            && (forall i :: 0 <= i < |x.Ip()| ==> f[14 + i] == x.Ip()[i])
            && (forall i :: 0 <= i < |x.Transport()| ==> f[k + i] == x.Transport()[i])
            && f[k + |x.Transport()|..] == x.payload
  {
    var f := x.Encode();
    var k := 14 + |x.Ip()|;
    Advance(f, 0, x.Ethernet(), x.Ip() + (x.Transport() + x.payload));
    Advance(f, 14, x.Ip(), x.Transport() + x.payload);
    Advance(f, k, x.Transport(), x.payload);
    assert f[12] == x.Ethernet()[12] && f[13] == x.Ethernet()[13];
  }

  /**
   Round trip: a frame with any header lengths of 5 to 15 words and any payload is kept, and
   parses to its own tuple, with the payload as the rest of the frame.
   */
  lemma FrameRoundTrip(x: Frame)
    requires x.Valid()
    ensures var f := x.Encode();
            && Kept(f)
            && var p := Parsed(f).value;
               && MakeTuple(p) == x.tuple
               && p.payloadOffset + p.payloadLength == |f|
               && f[p.payloadOffset..] == x.payload
               && p.hasEth && p.etherType == 0x0800 && p.hasIp && p.ipVersion == 4 && p.ttl == x.ttl
               && (p.hasTcp <==> x.segment.TcpSegment?) && (p.hasUdp <==> x.segment.UdpSegment?)
               && (x.segment.UdpSegment? ==> p.tcpFlags == 0)
               && (x.segment.TcpSegment? ==>
                     p.tcpFlags == x.segment.flags && p.seqNum == x.segment.seqNum
                       && p.ackNum == x.segment.ackNum)
  {
    var f := x.Encode();
    var k := 14 + |x.Ip()|;
    PartsOfFrame(x);
    IpRead(f, x);
    PortsRead(f, k, x);
    if x.segment.TcpSegment? {
      TcpRead(f, k, x);
    }
  }

  lemma PutOfU32(p: seq<byte>, k: nat)
    requires k + 4 <= |p|
    ensures PutU32(U32At(p, k)) == p[k..k + 4]
  {
    var hi, lo := U16At(p, k), U16At(p, k + 2);
    assert U32At(p, k) / 0x1_0000 == hi && U32At(p, k) % 0x1_0000 == lo;
    assert PutU16(hi) == p[k..k + 2] && PutU16(lo) == p[k + 2..k + 4];
  }

  function SegmentAt(f: seq<byte>, k: nat, protocol: byte): Segment
    requires if protocol == TCP then TcpOk(f, k) else k + 8 <= |f|
  {
    if protocol == TCP then
      TcpSegment(U32At(f, k + 4), U32At(f, k + 8), f[k + 12] % 16, f[k + 13],
                 f[k + 14..k + 20], f[k + 20..k + TcpLength(f, k)])
    else UdpSegment(f[k + 4..k + 8])
  }

  lemma IpParse(f: seq<byte>, x: Frame)
    requires IpOk(f) && x.Valid()
    requires x.ipMisc == f[15..22] && x.ttl == f[22] && x.tuple.protocol == f[23] && x.ipChecksum == f[24..26]
    requires x.tuple.srcIp == U32At(f, 26) && x.tuple.dstIp == U32At(f, 30) && x.ipOptions == f[34..14 + IpLength(f)]
    ensures x.Ip() == f[14..14 + IpLength(f)]
  {
    PutOfU32(f, 26);
    PutOfU32(f, 30);
    var n := 14 + IpLength(f);
    assert 0x40 + 5 + |x.ipOptions| / 4 == f[14];
    assert f[14..n] == [f[14]] + f[15..22] + [f[22], f[23]] + f[24..26] + f[26..30] + f[30..34] + f[34..n];
  }

  lemma TcpParse(f: seq<byte>, k: nat, x: Frame)
    requires x.Valid() && x.tuple.protocol == TCP && TcpOk(f, k)
    requires x.segment == SegmentAt(f, k, TCP)
    requires x.tuple.srcPort == U16At(f, k) && x.tuple.dstPort == U16At(f, k + 2)
    ensures x.Transport() == f[k..k + TcpLength(f, k)]
  {
    PutOfU16(f, k);
    PutOfU16(f, k + 2);
    PutOfU32(f, k + 4);
    PutOfU32(f, k + 8);
    var n := k + TcpLength(f, k);
    assert (5 + |x.segment.options| / 4) * 16 + x.segment.reserved == f[k + 12];
    assert f[k..n] == f[k..k + 2] + f[k + 2..k + 4]
                      + (f[k + 4..k + 8] + f[k + 8..k + 12] + [f[k + 12], f[k + 13]] + f[k + 14..k + 20]
                        + f[k + 20..n]);
  }

  lemma UdpParse(f: seq<byte>, k: nat, x: Frame)
    requires x.Valid() && x.tuple.protocol == UDP && k + 8 <= |f|
    requires x.segment == SegmentAt(f, k, UDP)
    requires x.tuple.srcPort == U16At(f, k) && x.tuple.dstPort == U16At(f, k + 2)
    ensures x.Transport() == f[k..k + 8]
  {
    PutOfU16(f, k);
    PutOfU16(f, k + 2);
    assert f[k..k + 8] == f[k..k + 2] + f[k + 2..k + 4] + f[k + 4..k + 8];
  }

  /** Where the payload of an accepted segment starts. */
  function SegmentEnd(f: seq<byte>, k: nat, protocol: byte): (n: nat)
    requires if protocol == TCP then TcpOk(f, k) else k + 8 <= |f|
    ensures k <= n <= |f|
  {
    if protocol == TCP then k + TcpLength(f, k) else k + 8
  }

  /** What the parser has checked of a frame it keeps, and where it puts the payload. */
  lemma KeptMeans(f: seq<byte>)
    requires Kept(f)
    ensures IpOk(f) && U16At(f, 12) == ETHERTYPE_IPV4 && (f[23] == TCP || f[23] == UDP)
    ensures var p, k := Parsed(f).value, 14 + IpLength(f);
            && (if f[23] == TCP then TcpOk(f, k) else k + 8 <= |f|)
            && p.payloadOffset == SegmentEnd(f, k, f[23]) && p.payloadOffset + p.payloadLength == |f|
            && MakeTuple(p) == FiveTuple(U32At(f, 26), U32At(f, 30), U16At(f, k), U16At(f, k + 2), f[23])
  {
  }

  lemma FrameParse(f: seq<byte>, k: nat) returns (x: Frame)
    requires IpOk(f) && U16At(f, 12) == ETHERTYPE_IPV4 && k == 14 + IpLength(f)
    requires if f[23] == TCP then TcpOk(f, k) else f[23] == UDP && k + 8 <= |f|
    ensures x.Valid() && x.Encode() == f && x.payload == f[SegmentEnd(f, k, f[23])..]
    ensures x.tuple == FiveTuple(U32At(f, 26), U32At(f, 30), U16At(f, k), U16At(f, k + 2), f[23])
  {
    var tuple := FiveTuple(U32At(f, 26), U32At(f, 30), U16At(f, k), U16At(f, k + 2), f[23]);
    var n := SegmentEnd(f, k, f[23]);
    x := Frame(f[..12], f[15..22], f[22], f[24..26], tuple, f[34..k], SegmentAt(f, k, f[23]), f[n..]);
    IpParse(f, x);
    TransportParse(f, k, x);
    EthernetParse(f, x);
    Pieces(f, 14, k, n);
  }

  lemma TransportParse(f: seq<byte>, k: nat, x: Frame)
    requires x.Valid() && (if x.tuple.protocol == TCP then TcpOk(f, k) else k + 8 <= |f|)
    requires x.segment == SegmentAt(f, k, x.tuple.protocol)
    requires k + 4 <= |f| && x.tuple.srcPort == U16At(f, k) && x.tuple.dstPort == U16At(f, k + 2)
    ensures x.Transport() == f[k..SegmentEnd(f, k, x.tuple.protocol)]
  {
    if x.tuple.protocol == TCP {
      TcpParse(f, k, x);
    } else {
      UdpParse(f, k, x);
    }
  }

  /** Soundness: every frame the reader keeps is such a frame, and its window is in bounds. */
  lemma KeptFramesAreFrames(f: seq<byte>) returns (x: Frame)
    requires Kept(f)
    ensures x.Valid() && x.Encode() == f && x.tuple == MakeTuple(Parsed(f).value)
    ensures Parsed(f).value.payloadOffset + Parsed(f).value.payloadLength == |f|
    ensures x.payload == f[Parsed(f).value.payloadOffset..]
  {
    KeptMeans(f);
    x := FrameParse(f, 14 + IpLength(f));
  }

  lemma EthernetParse(f: seq<byte>, x: Frame)
    requires x.Valid() && |f| >= 14 && x.macs == f[..12] && U16At(f, 12) == ETHERTYPE_IPV4
    ensures x.Ethernet() == f[..14]
  {
    PutOfU16(f, 12);
    assert f[..14] == f[..12] + f[12..14];
  }

  lemma Pieces<T>(f: seq<T>, i: nat, j: nat, k: nat)
    requires i <= j <= k <= |f|
    ensures f[..i] + (f[i..j] + (f[j..k] + f[k..])) == f
  {
  }

  // ----- tests/generate_test_pcap.py -----

  /** eth + ip_hdr + tcp_hdr + payload, with the generator's fixed fields. */
  function GeneratedTcp(macs: seq<byte>, id: u16, tuple: FiveTuple, seqNum: u32, ackNum: u32,
                        flags: byte, payload: seq<byte>): (x: Frame)
    requires |macs| == 12 && tuple.protocol == TCP && 40 + |payload| < 0x1_0000
    ensures x.Valid() && x.tuple == tuple && x.payload == payload
  {
    Frame(macs, [0] + PutU16(40 + |payload|) + PutU16(id) + PutU16(0x4000), 64, PutU16(0), tuple, [],
          TcpSegment(seqNum, ackNum, 0, flags, PutU16(65535) + PutU16(0) + PutU16(0), []), payload)
  }

  function GeneratedUdp(macs: seq<byte>, id: u16, tuple: FiveTuple, payload: seq<byte>): (x: Frame)
    requires |macs| == 12 && tuple.protocol == UDP && 28 + |payload| < 0x1_0000
    ensures x.Valid() && x.tuple == tuple && x.payload == payload
  {
    Frame(macs, [0] + PutU16(28 + |payload|) + PutU16(id) + PutU16(0x4000), 64, PutU16(0), tuple, [],
          UdpSegment(PutU16(8 + |payload|) + PutU16(0)), payload)
  }

  /** eth, ip_hdr, tcp_hdr and udp_hdr, field by field as they are packed; `id` is the random one. */
  function Eth(srcMac: seq<byte>, dstMac: seq<byte>, etherType: u16): seq<byte> {
    dstMac + srcMac + PutU16(etherType)
  }

  function IpHdr(src: u32, dst: u32, protocol: byte, payloadLen: nat, id: u16): seq<byte>
    requires 20 + payloadLen < 0x1_0000
  {
    ([0x45, 0] + PutU16(20 + payloadLen) + PutU16(id) + PutU16(0x4000) + [64, protocol] + PutU16(0))
    + PutU32(src) + PutU32(dst)
  }

  function TcpHdr(srcPort: u16, dstPort: u16, seqNum: u32, ackNum: u32, flags: byte): (b: seq<byte>)
    ensures |b| == 20
  {
    PutU16(srcPort) + PutU16(dstPort) + PutU32(seqNum) + PutU32(ackNum)
    + [0x50, flags] + PutU16(65535) + PutU16(0) + PutU16(0)
  }

  function UdpHdr(srcPort: u16, dstPort: u16, payloadLen: nat): (b: seq<byte>)
    requires 8 + payloadLen < 0x1_0000
    ensures |b| == 8
  {
    PutU16(srcPort) + PutU16(dstPort) + PutU16(8 + payloadLen) + PutU16(0)
  }

  lemma EthBytes(x: Frame, srcMac: seq<byte>, dstMac: seq<byte>)
    requires x.Valid() && |srcMac| == 6 && |dstMac| == 6 && x.macs == dstMac + srcMac
    ensures Eth(srcMac, dstMac, ETHERTYPE_IPV4) == x.Ethernet()
  {
  }

  lemma IpBytes(x: Frame, payloadLen: nat, id: u16)
    requires x.Valid() && 20 + payloadLen < 0x1_0000
    requires x.ipMisc == [0] + PutU16(20 + payloadLen) + PutU16(id) + PutU16(0x4000)
    requires x.ttl == 64 && x.ipChecksum == PutU16(0) && x.ipOptions == []
    ensures IpHdr(x.tuple.srcIp, x.tuple.dstIp, x.tuple.protocol, payloadLen, id) == x.Ip()
  {
  }

  lemma TransportBytes(x: Frame)
    requires x.Valid()
    ensures x.segment.TcpSegment? && x.segment.reserved == 0 && x.segment.options == []
            && x.segment.trailer == PutU16(65535) + PutU16(0) + PutU16(0) ==>
              TcpHdr(x.tuple.srcPort, x.tuple.dstPort, x.segment.seqNum, x.segment.ackNum, x.segment.flags)
                == x.Transport()
    ensures x.segment.UdpSegment? && 8 + |x.payload| < 0x1_0000
            && x.segment.lengthAndChecksum == PutU16(8 + |x.payload|) + PutU16(0) ==>
              UdpHdr(x.tuple.srcPort, x.tuple.dstPort, |x.payload|) == x.Transport()
  {
  }

  lemma Joined<T>(a: seq<T>, b: seq<T>, c: seq<T>, d: seq<T>)
    ensures a + b + c + d == a + (b + (c + d))
  {
  }

  /** The generator's TCP frame, put together as it does, is a frame of the grammar. */
  lemma GeneratedTcpBytes(srcMac: seq<byte>, dstMac: seq<byte>, id: u16, tuple: FiveTuple,
                          seqNum: u32, ackNum: u32, flags: byte, payload: seq<byte>)
    requires |srcMac| == 6 && |dstMac| == 6 && tuple.protocol == TCP && 40 + |payload| < 0x1_0000
    ensures Eth(srcMac, dstMac, 0x0800) + IpHdr(tuple.srcIp, tuple.dstIp, 6, 20 + |payload|, id)
            + TcpHdr(tuple.srcPort, tuple.dstPort, seqNum, ackNum, flags) + payload
         == GeneratedTcp(dstMac + srcMac, id, tuple, seqNum, ackNum, flags, payload).Encode()
  {
    var x := GeneratedTcp(dstMac + srcMac, id, tuple, seqNum, ackNum, flags, payload);
    EthBytes(x, srcMac, dstMac);
    IpBytes(x, 20 + |payload|, id);
    TransportBytes(x);
    Joined(x.Ethernet(), x.Ip(), x.Transport(), payload);
  }

  /** And so is its UDP frame. */
  lemma GeneratedUdpBytes(srcMac: seq<byte>, dstMac: seq<byte>, id: u16, tuple: FiveTuple, payload: seq<byte>)
    requires |srcMac| == 6 && |dstMac| == 6 && tuple.protocol == UDP && 28 + |payload| < 0x1_0000
    ensures Eth(srcMac, dstMac, 0x0800) + IpHdr(tuple.srcIp, tuple.dstIp, 17, 8 + |payload|, id)
            + UdpHdr(tuple.srcPort, tuple.dstPort, |payload|) + payload
         == GeneratedUdp(dstMac + srcMac, id, tuple, payload).Encode()
  {
    var x := GeneratedUdp(dstMac + srcMac, id, tuple, payload);
    EthBytes(x, srcMac, dstMac);
    IpBytes(x, 8 + |payload|, id);
    TransportBytes(x);
    Joined(x.Ethernet(), x.Ip(), x.Transport(), payload);
  }
}
